/** What the server's window keeps and forgets. */
module RpcWindow {
  import opened RpcServer

  predicate Remembers(win: seq<Entry>, x: nat) {
    exists k :: 0 <= k < |win| && win[k].xid == x
  }

  predicate Distinct(win: seq<Entry>) {
    forall j, k :: 0 <= j < k < |win| ==> win[j].xid != win[k].xid
  }

  /** The last entry is above `x`: a request `x` that is not remembered is refused. */
  predicate EndsAbove(win: seq<Entry>, x: nat) {
    win != [] && win[|win| - 1].xid > x
  }

  /** The entries that a header acknowledging `rep` does not drop. */
  function Kept(win: seq<Entry>, rep: nat): (w: seq<Entry>) {
    if win == [] then []
    else if Dropped(win[0], rep) then Kept(win[1..], rep)
    else [win[0]] + Kept(win[1..], rep)
  }

  /** A late copy of `x`, whose header acknowledges `rep`, is not let through. */
  predicate Guarded(win: seq<Entry>, x: nat, rep: nat) {
    Remembers(win, x) || EndsAbove(Kept(win, rep), x)
  }

  lemma RemembersEntry(win: seq<Entry>, e: Entry)
    requires e in win
    ensures Remembers(win, e.xid)
  {
    var k :| 0 <= k < |win| && win[k] == e;
  }

  lemma RemembersTail(win: seq<Entry>, x: nat)
    requires win != []
    ensures Remembers(win, x) <==> win[0].xid == x || Remembers(win[1..], x)
  {
    if Remembers(win, x) && win[0].xid != x {
      var k :| 0 <= k < |win| && win[k].xid == x;
      assert win[1..][k - 1].xid == x;
    }
    if Remembers(win[1..], x) {
      var k :| 0 <= k < |win[1..]| && win[1..][k].xid == x;
      assert win[k + 1].xid == x;
    }
  }

  lemma DistinctTail(win: seq<Entry>)
    requires Distinct(win) && win != []
    ensures Distinct(win[1..]) && !Remembers(win[1..], win[0].xid)
  {
    assert forall k :: 0 <= k < |win[1..]| ==> win[1..][k] == win[k + 1];
  }

  // ------------------------------------------------------------------------- the walk

  predicate SameLast(win: seq<Entry>, w: seq<Entry>) {
    win != [] && w != [] && w[|w| - 1] == win[|win| - 1]
  }

  lemma {:induction false} WalkHits(win: seq<Entry>, x: nat, rep: nat)
    ensures var r := Walk(win, x, rep);
      (r.Hit? <==> Remembers(win, x)) && (r.Hit? ==> r.e in win && r.e.xid == x)
    decreases |win|
  {
    if win != [] {
      RemembersTail(win, x);
      if win[0].xid != x { WalkHits(win[1..], x, rep); }
    }
  }

  /** A walk that hits the request keeps the last entry, one that misses keeps it unless
      the header drops it. */
  lemma {:induction false} WalkKeepsLast(win: seq<Entry>, x: nat, rep: nat)
    ensures var r := Walk(win, x, rep);
      r.Hit? || (win != [] && !Dropped(win[|win| - 1], rep)) ==> SameLast(win, r.win)
    decreases |win|
  {
    if win != [] && win[0].xid != x { WalkKeepsLast(win[1..], x, rep); }
  }

  /** What a walk leaves: an entry is lost only if the header drops it. */
  lemma {:induction false} WalkLeaves(win: seq<Entry>, x: nat, rep: nat)
    requires Distinct(win)
    ensures var w := Walk(win, x, rep).win;
      && Distinct(w) && (forall e :: e in w ==> e in win)
      && (forall e :: e in win && e !in w ==> Dropped(e, rep) && e.xid != x)
    decreases |win|
  {
    if win != [] && win[0].xid != x {
      DistinctTail(win);
      WalkLeaves(win[1..], x, rep);
      WalkFirst(win, x, rep);
    }
  }

  /** The first entry is put before what the walk makes of the others, or dropped. */
  lemma WalkFirst(win: seq<Entry>, x: nat, rep: nat)
    requires Distinct(win) && win != [] && win[0].xid != x
    requires var u := Walk(win[1..], x, rep).win;
      Distinct(u) && (forall e :: e in u ==> e in win[1..])
      && (forall e :: e in win[1..] && e !in u ==> Dropped(e, rep) && e.xid != x)
    ensures var w := Walk(win, x, rep).win;
      Distinct(w) && (forall e :: e in w ==> e in win)
      && (forall e :: e in win && e !in w ==> Dropped(e, rep) && e.xid != x)
  {
    var u, w := Walk(win[1..], x, rep).win, Walk(win, x, rep).win;
    assert win == [win[0]] + win[1..];
    if !Dropped(win[0], rep) {
      assert w == [win[0]] + u;
      DistinctTail(win);
      forall k | 0 <= k < |u|
        ensures u[k].xid != win[0].xid
      {
        assert u[k] in u;
        RemembersEntry(win[1..], u[k]);
      }
    }
  }

  lemma {:induction false} WalkMissIsKept(win: seq<Entry>, x: nat, rep: nat)
    requires !Remembers(win, x)
    ensures Walk(win, x, rep) == Miss(Kept(win, rep))
    decreases |win|
  {
    if win != [] {
      RemembersTail(win, x);
      WalkMissIsKept(win[1..], x, rep);
    }
  }

  lemma {:induction false} KeptIsNotDropped(win: seq<Entry>, rep: nat, e: Entry)
    requires e in Kept(win, rep)
    ensures e in win && !Dropped(e, rep)
    decreases |win|
  {
    if Dropped(win[0], rep) || e != win[0] { KeptIsNotDropped(win[1..], rep, e); }
  }

  /** Exactly when a request is let through as a new one. */
  lemma CheckExact(win: seq<Entry>, x: nat, rep: nat)
    requires Distinct(win)
    ensures Check(win, x, rep).1 == New <==> !Guarded(win, x, rep)
  {
    WalkHits(win, x, rep);
    if !Remembers(win, x) { WalkMissIsKept(win, x, rep); }
  }

  /** Exactly what a walk that hits leaves: of the entries in front of the request those
      that the header does not drop, and everything from the request on. */
  lemma {:induction false} WalkHitExact(win: seq<Entry>, x: nat, rep: nat, k: nat)
    requires k < |win| && win[k].xid == x && forall j :: 0 <= j < k ==> win[j].xid != x
    ensures Walk(win, x, rep) == Hit(Kept(win[..k], rep) + win[k..], win[k])
    decreases |win|
  {
    if k == 0 {
      assert Kept(win[..0], rep) + win[0..] == win;
    } else {
      assert win[0].xid != x;
      assert forall j :: 0 <= j < k - 1 ==> win[1..][j] == win[j + 1];
      WalkHitExact(win[1..], x, rep, k - 1);
      assert win[..k][1..] == win[1..][..k - 1] && win[..k][0] == win[0] && win[1..][k - 1..] == win[k..];
      var kept := Kept(win[1..][..k - 1], rep);
      assert [win[0]] + (kept + win[k..]) == ([win[0]] + kept) + win[k..];
    }
  }

  lemma OnlyEntry(win: seq<Entry>, e: Entry, f: Entry)
    requires Distinct(win) && e in win && f in win && e.xid == f.xid
    ensures e == f
  {
    var j :| 0 <= j < |win| && win[j] == e;
    var k :| 0 <= k < |win| && win[k] == f;
  }

  /** Exactly which of the four answers a request gets: the recorded reply if there is
      one, none while it is being executed, a refusal if it is not remembered and the last
      entry that its header leaves is above it; otherwise it is let through. */
  lemma AnswerExact(win: seq<Entry>, x: nat, rep: nat)
    requires Distinct(win)
    ensures forall b :: Check(win, x, rep).1 == Done(b) <==> Entry(x, true, b) in win
    ensures Check(win, x, rep).1 == InProgress <==> exists e :: e in win && e.xid == x && !e.present
    ensures Check(win, x, rep).1 == Forgotten <==> !Remembers(win, x) && EndsAbove(Kept(win, rep), x)
    ensures Check(win, x, rep).1 == New <==> !Guarded(win, x, rep)
  {
    CheckExact(win, x, rep);
    WalkHits(win, x, rep);
    var r := Walk(win, x, rep);
    if Remembers(win, x) {
      forall f | f in win && f.xid == x
        ensures f == r.e
      {
        OnlyEntry(win, f, r.e);
      }
    } else {
      WalkMissIsKept(win, x, rep);
      forall f | f in win
        ensures f.xid != x
      {
        RemembersEntry(win, f);
      }
    }
  }

  lemma {:induction false} KeptLast(win: seq<Entry>, rep: nat)
    requires win != [] && !Dropped(win[|win| - 1], rep)
    ensures SameLast(win, Kept(win, rep))
    decreases |win|
  {
    if |win| > 1 { KeptLast(win[1..], rep); }
  }

  lemma {:induction false} KeptConcat(a: seq<Entry>, b: seq<Entry>, rep: nat)
    ensures Kept(a + b, rep) == Kept(a, rep) + Kept(b, rep)
    decreases |a|
  {
    if a == [] {
      assert a + b == b;
    } else {
      assert (a + b)[1..] == a[1..] + b;
      KeptConcat(a[1..], b, rep);
    }
  }

  lemma {:induction false} KeptShorter(w: seq<Entry>, rep: nat)
    ensures |Kept(w, rep)| <= |w|
    decreases |w|
  {
    if w != [] { KeptShorter(w[1..], rep); }
  }

  /** If nothing is dropped, nothing is dropped from the back. */
  lemma KeptBack(w: seq<Entry>, p: nat, rep: nat)
    requires p < |w| && Kept(w, rep) == w
    ensures Kept(w[p..], rep) != []
  {
    assert w == w[..p] + w[p..];
    KeptConcat(w[..p], w[p..], rep);
    KeptShorter(w[..p], rep);
  }

  /** Dropping less first, or after, makes no difference. */
  lemma {:induction false} KeptTwice(win: seq<Entry>, less: nat, rep: nat)
    requires less <= rep
    ensures Kept(Kept(win, less), rep) == Kept(win, rep) == Kept(Kept(win, rep), less)
    decreases |win|
  {
    if win != [] { KeptTwice(win[1..], less, rep); }
  }

  /** What a walk drops is dropped by any header that acknowledges more. */
  lemma {:induction false} KeptAfterWalk(win: seq<Entry>, x: nat, rep: nat, more: nat)
    requires rep <= more
    ensures Kept(Walk(win, x, rep).win, more) == Kept(win, more)
    decreases |win|
  {
    if win != [] && win[0].xid != x { KeptAfterWalk(win[1..], x, rep, more); }
  }

  /** A walk that hits keeps the last entry that any header below the request leaves. */
  lemma {:induction false} KeptAfterHit(win: seq<Entry>, x: nat, rep: nat, less: nat)
    requires Remembers(win, x) && less < x
    ensures SameLast(Kept(win, less), Kept(Walk(win, x, rep).win, less))
    decreases |win|
  {
    RemembersTail(win, x);
    if win[0].xid != x { KeptAfterHit(win[1..], x, rep, less); }
  }

  // ------------------------------------------------------------------- a new entry

  lemma SpliceDistinct(w: seq<Entry>, p: nat, e: Entry)
    requires Distinct(w) && !Remembers(w, e.xid) && p <= |w|
    ensures Distinct(w[..p] + [e] + w[p..])
  {
    var r := w[..p] + [e] + w[p..];
    assert forall k :: 0 <= k < |w| ==> w[k].xid != e.xid;
    assert forall k :: 0 <= k < p ==> r[k] == w[k];
    assert forall k :: p < k < |r| ==> r[k] == w[k - 1];
  }

  lemma SpliceMembers(w: seq<Entry>, p: nat, e: Entry)
    requires p <= |w|
    ensures forall x :: x in w[..p] + [e] + w[p..] <==> x in w || x == e
  {
    var r := w[..p] + [e] + w[p..];
    forall x | x in w
      ensures x in r
    {
      var k :| 0 <= k < |w| && w[k] == x;
      assert r[if k < p then k else k + 1] == x;
    }
    assert r[p] == e;
  }

  /** Exactly where a new entry goes: to the front, if the list is empty or starts with a
      smaller id; otherwise before an entry that is not smaller, up to which none is, and
      which is the last or is followed by a smaller one. */
  lemma PlaceExact(w: seq<Entry>, x: nat, p: nat)
    ensures p == Place(w, x) <==>
      || (p == 0 && (w == [] || w[0].xid < x))
      || (p < |w| && (forall j :: 0 <= j <= p ==> w[j].xid >= x) && (p + 1 == |w| || w[p + 1].xid < x))
  {
    var k := FirstBelow(w, x);
  }

  /** A new entry is never put behind the last one. */
  lemma InsertAdds(w: seq<Entry>, xid: nat)
    requires Distinct(w) && !Remembers(w, xid) && !EndsAbove(w, xid)
    ensures var r := Insert(w, xid);
      && Distinct(r) && r != []
      && (forall e :: e in r <==> e in w || e == Entry(xid, false, ""))
      && r[|r| - 1] == (if w == [] then Entry(xid, false, "") else w[|w| - 1])
  {
    var p := Place(w, xid);
    if w != [] {
      assert w[|w| - 1].xid != xid;
      assert p < |w|;
    }
    SpliceDistinct(w, p, Entry(xid, false, ""));
    SpliceMembers(w, p, Entry(xid, false, ""));
  }

  lemma InsertRemembers(w: seq<Entry>, xid: nat, y: nat)
    requires Distinct(w) && !Remembers(w, xid) && !EndsAbove(w, xid)
    ensures Remembers(Insert(w, xid), y) <==> y == xid || Remembers(w, y)
  {
    InsertAdds(w, xid);
    var r := Insert(w, xid);
    if Remembers(r, y) {
      var k :| 0 <= k < |r| && r[k].xid == y;
      assert r[k] in r;
      if r[k] in w { RemembersEntry(w, r[k]); }
    }
    if Remembers(w, y) {
      var k :| 0 <= k < |w| && w[k].xid == y;
      assert w[k] in r;
      RemembersEntry(r, w[k]);
    }
    RemembersEntry(r, Entry(xid, false, ""));
  }

  /** What a header leaves of the window with the new entry: that entry comes last if the
      header drops everything behind it. */
  lemma InsertKept(w: seq<Entry>, x: nat, rep: nat)
    ensures var q, back := Kept(Insert(w, x), rep), Kept(w[Place(w, x)..], rep);
      if back == [] then q != [] && q[|q| - 1].xid == x else SameLast(Kept(w, rep), q)
  {
    var p := Place(w, x);
    var e := Entry(x, false, "");
    assert w == w[..p] + w[p..];
    KeptConcat(w[..p], w[p..], rep);
    KeptConcat(w[..p] + [e], w[p..], rep);
    KeptConcat(w[..p], [e], rep);
    assert Kept([e], rep) == [e];
  }

  /** A new entry that leaves a forgotten request unguarded. */
  lemma InsertUnguards(w: seq<Entry>, x: nat, y: nat, rep: nat)
    requires Distinct(w) && !Remembers(w, x) && !EndsAbove(w, x) && y != x && !Remembers(w, y)
    requires if Kept(w[Place(w, x)..], rep) == [] then x < y else !EndsAbove(Kept(w, rep), y)
    ensures !Guarded(Insert(w, x), y, rep)
  {
    InsertRemembers(w, x, y);
    InsertKept(w, x, rep);
  }

  lemma PlaceIsInside(w: seq<Entry>, x: nat)
    requires w != [] && !Remembers(w, x) && !EndsAbove(w, x)
    ensures Place(w, x) < |w|
  {
    assert w[|w| - 1].xid != x;
  }

  lemma {:induction false} AddReplySets(win: seq<Entry>, xid: nat, buf: Bytes)
    requires Distinct(win)
    ensures var r := AddReply(win, xid, buf);
      && |r| == |win|
      && forall k :: 0 <= k < |win| ==> r[k] == if win[k].xid == xid then Entry(xid, true, buf) else win[k]
  {
    if win != [] {
      assert forall k :: 0 <= k < |win[1..]| ==> win[1..][k] == win[k + 1];
      if win[0].xid != xid {
        AddReplySets(win[1..], xid, buf);
      }
    }
  }

  lemma AddReplyRemembers(win: seq<Entry>, x: nat, buf: Bytes, y: nat)
    requires Distinct(win)
    ensures Remembers(AddReply(win, x, buf), y) <==> Remembers(win, y)
  {
    AddReplySets(win, x, buf);
    var r := AddReply(win, x, buf);
    if Remembers(win, y) {
      var k :| 0 <= k < |win| && win[k].xid == y;
      assert r[k].xid == y;
    }
    if Remembers(r, y) {
      var k :| 0 <= k < |r| && r[k].xid == y;
      assert win[k].xid == y;
    }
  }

  lemma AddReplyLast(win: seq<Entry>, x: nat, buf: Bytes, y: nat)
    requires Distinct(win)
    ensures EndsAbove(AddReply(win, x, buf), y) <==> EndsAbove(win, y)
  {
    AddReplySets(win, x, buf);
    if win != [] {
      var k := |win| - 1;
      assert AddReply(win, x, buf)[k].xid == win[k].xid;
    }
  }

  lemma {:induction false} AddReplyKeepsNone(win: seq<Entry>, x: nat, buf: Bytes, rep: nat)
    requires Kept(win, rep) == []
    ensures Kept(AddReply(win, x, buf), rep) == []
    decreases |win|
  {
    if win != [] && win[0].xid != x { AddReplyKeepsNone(win[1..], x, buf, rep); }
  }

  /** A reply that is recorded can only be dropped by a header that acknowledges it, so
      it does not change the last entry above a request. */
  lemma {:induction false} AddReplyEnds(win: seq<Entry>, x: nat, buf: Bytes, y: nat, rep: nat)
    requires EndsAbove(Kept(win, rep), y) && rep < y
    ensures EndsAbove(Kept(AddReply(win, x, buf), rep), y)
    decreases |win|
  {
    var tail, r := win[1..], AddReply(win, x, buf);
    var back := Kept(r[1..], rep);
    if Kept(tail, rep) == [] {
      if win[0].xid != x { AddReplyKeepsNone(tail, x, buf, rep); }
      assert back == [] && r[0].xid == win[0].xid > rep;
    } else {
      if win[0].xid != x { AddReplyEnds(tail, x, buf, y, rep); }
      assert EndsAbove(back, y);
    }
    assert Kept(r, rep) == (if Dropped(r[0], rep) then [] else [r[0]]) + back;
  }

  lemma AddReplyGuards(win: seq<Entry>, x: nat, buf: Bytes, y: nat, rep: nat)
    requires Distinct(win) && Guarded(win, y, rep) && rep < y
    ensures Guarded(AddReply(win, x, buf), y, rep)
  {
    AddReplyRemembers(win, x, buf, y);
    if !Remembers(win, y) { AddReplyEnds(win, x, buf, y, rep); }
  }
}
