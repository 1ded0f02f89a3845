/** Simpler conditions that make every delivery harmless: nothing is dropped from above
    the last entry left; no header acknowledges a request in progress; no call times out. */
module RpcSettled {
  import opened RpcServer
  import opened RpcWindow
  import opened RpcSystem
  import opened RpcExact

  // --------------------------------------------------------------------- safe deliveries

  /** What the delivery drops lies below the last entry it leaves, if it leaves any. */
  ghost predicate Safe(s: Sys, e: Event) {
    e.DeliverRequest? && e.x in s.sent ==>
      forall f :: f in s.win && f !in Left(s, e.x) ==> Left(s, e.x) == [] || EndsAbove(Left(s, e.x), f.xid)
  }

  ghost predicate SafeRun(s: Sys, es: seq<Event>)
    requires IsRun(s, es)
    decreases es
  {
    es == [] || (Safe(s, es[0]) && SafeRun(Next(s, es[0]), es[1..]))
  }

  /** A request that was executed is remembered or below the last entry. */
  ghost predicate CoveredAt(s: Sys, y: nat) {
    y in s.news ==> Remembers(s.win, y) || EndsAbove(s.win, y)
  }

  /** A request that was refused is below the last entry. */
  ghost predicate RefusedAt(s: Sys, y: nat) {
    Failure(y) in s.replies ==> !Remembers(s.win, y) && EndsAbove(s.win, y)
  }

  ghost predicate SafeInv(s: Sys) {
    && Inv(s)
    && (forall y :: CoveredAt(s, y))
    && (forall y :: RefusedAt(s, y))
  }

  lemma InitSafe()
    ensures SafeInv(InitSys())
  {
  }

  /** Whatever was below the last entry stays there, or below the request delivered. */
  lemma SafeLast(s: Sys, x: nat, y: nat)
    requires ClientOk(s) && WindowOk(s) && x in s.sent && Safe(s, DeliverRequest(x)) && EndsAbove(s.win, y)
    ensures if Left(s, x) == [] then y < x else EndsAbove(Left(s, x), y)
  {
    var last := s.win[|s.win| - 1];
    WalkHits(s.win, x, s.sent[x]);
    WalkKeepsLast(s.win, x, s.sent[x]);
    if !Remembers(s.win, x) && Dropped(last, s.sent[x]) {
      WalkMissIsKept(s.win, x, s.sent[x]);
      if last in Left(s, x) { KeptIsNotDropped(s.win, s.sent[x], last); }
    }
  }

  lemma SafeLeaves(s: Sys, x: nat, y: nat)
    requires ClientOk(s) && WindowOk(s) && x in s.sent && Safe(s, DeliverRequest(x)) && CoveredAt(s, y) && y in s.news
    ensures if Left(s, x) == [] then y < x else Remembers(Left(s, x), y) || EndsAbove(Left(s, x), y)
  {
    if Remembers(s.win, y) {
      var k :| 0 <= k < |s.win| && s.win[k].xid == y;
      WalkLeaves(s.win, x, s.sent[x]);
      if s.win[k] in Left(s, x) { RemembersEntry(Left(s, x), s.win[k]); }
    } else {
      SafeLast(s, x, y);
    }
  }

  lemma SafeIsHarmless(s: Sys, x: nat)
    requires SafeInv(s) && x in s.sent && Safe(s, DeliverRequest(x))
    ensures Harmless(s, DeliverRequest(x))
  {
    var w := Left(s, x);
    forall f | f in s.win && f !in w
      ensures f.xid in s.sent && (w == [] || EndsAbove(Kept(w, s.sent[f.xid]), f.xid))
    {
      assert GuardedAt(s, f.xid);
      if w != [] { KeptLast(w, s.sent[f.xid]); }
    }
    if !Guarded(s.win, x, s.sent[x]) {
      NewIsNew(s, x);
      forall y | y in s.news && x < y
        ensures Remembers(w, y)
      {
        assert CoveredAt(s, y);
        SafeLeaves(s, x, y);
      }
    }
  }

  lemma NewCovers(s: Sys, x: nat, y: nat)
    requires SafeInv(s) && x in s.sent && Safe(s, DeliverRequest(x)) && !Guarded(s.win, x, s.sent[x])
    requires y in s.news || y == x
    ensures Remembers(Insert(Left(s, x), x), y) || EndsAbove(Insert(Left(s, x), x), y)
  {
    NewIsNew(s, x);
    WalkLeaves(s.win, x, s.sent[x]);
    InsertAdds(Left(s, x), x);
    InsertRemembers(Left(s, x), x, y);
    if y in s.news {
      assert CoveredAt(s, y);
      SafeLeaves(s, x, y);
    }
  }

  lemma SafeCovers(s: Sys, x: nat, y: nat)
    requires SafeInv(s) && x in s.sent && Safe(s, DeliverRequest(x))
    ensures CoveredAt(Next(s, DeliverRequest(x)), y)
  {
    WindowAfter(s, x);
    if y in Next(s, DeliverRequest(x)).news {
      if Guarded(s.win, x, s.sent[x]) {
        OldIsOld(s, x);
        LeftSomething(s, x);
        assert CoveredAt(s, y);
        SafeLeaves(s, x, y);
      } else {
        NewIsNew(s, x);
        NewCovers(s, x, y);
      }
    }
  }

  lemma OldIsOld(s: Sys, x: nat)
    requires Inv(s) && x in s.sent && Guarded(s.win, x, s.sent[x])
    ensures Next(s, DeliverRequest(x)).news == s.news
    ensures forall y :: Failure(y) in Next(s, DeliverRequest(x)).replies ==>
      Failure(y) in s.replies || (y == x && !Remembers(s.win, x))
  {
    if Remembers(s.win, x) {
      HitAnswers(s, x);
    } else {
      ForgottenAnswers(s, x);
    }
  }

  lemma StillForgotten(s: Sys, x: nat, y: nat)
    requires Distinct(s.win) && x in s.sent && !Remembers(s.win, y)
    ensures !Remembers(Left(s, x), y)
  {
    WalkLeaves(s.win, x, s.sent[x]);
  }

  lemma SafeRefuses(s: Sys, x: nat, y: nat)
    requires SafeInv(s) && x in s.sent && Safe(s, DeliverRequest(x))
    ensures RefusedAt(Next(s, DeliverRequest(x)), y)
  {
    var t := Next(s, DeliverRequest(x));
    assert RefusedAt(s, y);
    WindowAfter(s, x);
    if Failure(y) in t.replies {
      if Guarded(s.win, x, s.sent[x]) {
        OldIsOld(s, x);
        LeftSomething(s, x);
        if y == x { WalkMissIsKept(s.win, x, s.sent[x]); }
        StillForgotten(s, x, y);
        if Failure(y) in s.replies { SafeLast(s, x, y); }
      } else {
        NewIsNew(s, x);
        NewRefuses(s, x, y);
      }
    }
  }

  lemma NewRefuses(s: Sys, x: nat, y: nat)
    requires SafeInv(s) && x in s.sent && Safe(s, DeliverRequest(x)) && !Guarded(s.win, x, s.sent[x])
    requires Failure(y) in s.replies
    ensures !Remembers(Insert(Left(s, x), x), y) && EndsAbove(Insert(Left(s, x), x), y)
  {
    assert RefusedAt(s, y);
    NewIsNew(s, x);
    WalkLeaves(s.win, x, s.sent[x]);
    StillForgotten(s, x, y);
    SafeLast(s, x, y);
    InsertAdds(Left(s, x), x);
    InsertRemembers(Left(s, x), x, y);
  }

  lemma FinishSafe(s: Sys, x: nat, buf: Bytes, y: nat)
    requires SafeInv(s) && x in s.running
    ensures CoveredAt(Next(s, Finish(x, buf)), y) && RefusedAt(Next(s, Finish(x, buf)), y)
  {
    assert CoveredAt(s, y) && RefusedAt(s, y);
    AddReplyRemembers(s.win, x, buf, y);
    AddReplyLast(s.win, x, buf, y);
  }

  lemma StepIsSafe(s: Sys, e: Event)
    requires SafeInv(s) && Enabled(s, e) && Safe(s, e)
    ensures Harmless(s, e) && SafeInv(Next(s, e))
  {
    if e.DeliverRequest? { SafeIsHarmless(s, e.x); }
    StepKeepsInv(s, e);
    var t := Next(s, e);
    forall y
      ensures CoveredAt(t, y) && RefusedAt(t, y)
    {
      assert CoveredAt(s, y) && RefusedAt(s, y);
      if e.DeliverRequest? {
        SafeCovers(s, e.x, y);
        SafeRefuses(s, e.x, y);
      } else if e.Finish? {
        FinishSafe(s, e.x, e.buf, y);
      }
    }
  }

  lemma {:induction false} SafeRunIsHarmless(s: Sys, es: seq<Event>)
    requires SafeInv(s) && IsRun(s, es) && SafeRun(s, es)
    ensures HarmlessRun(s, es) && SafeInv(After(s, es))
    decreases es
  {
    if es != [] {
      StepIsSafe(s, es[0]);
      SafeRunIsHarmless(Next(s, es[0]), es[1..]);
    }
  }

  lemma RefusedIsFinal(s: Sys, y: nat)
    requires SafeInv(s) && Failure(y) in s.replies
    ensures y in s.sent && Next(s, DeliverRequest(y)).news == s.news
  {
    assert RefusedAt(s, y) && y in s.sent;
    KeptLast(s.win, s.sent[y]);
    OldIsOld(s, y);
  }

  /** At-most-once over every run in which whatever a delivery drops lies below the last
      entry it leaves; a request once refused is then never executed. */
  lemma AtMostOnceIfSafe(es: seq<Event>)
    requires IsRun(InitSys(), es) && SafeRun(InitSys(), es)
    ensures HarmlessRun(InitSys(), es) && AtMostOnce(After(InitSys(), es))
    ensures var s := After(InitSys(), es);
      forall y :: Failure(y) in s.replies ==> y in s.sent && Next(s, DeliverRequest(y)).news == s.news
  {
    InitSafe();
    SafeRunIsHarmless(InitSys(), es);
    AtMostOnceIfHarmless(es);
    var s := After(InitSys(), es);
    forall y | Failure(y) in s.replies
      ensures y in s.sent && Next(s, DeliverRequest(y)).news == s.news
    {
      RefusedIsFinal(s, y);
    }
  }

  // ------------------------------------------------------------------ settled deliveries

  /** The request's header acknowledges no request that is still being executed. */
  ghost predicate Settled(s: Sys, e: Event) {
    e.DeliverRequest? && e.x in s.sent ==>
      forall f :: f in s.win && f.xid <= s.sent[e.x] ==> f.present
  }

  ghost predicate SettledRun(s: Sys, es: seq<Event>)
    requires IsRun(s, es)
    decreases es
  {
    es == [] || (Settled(s, es[0]) && SettledRun(Next(s, es[0]), es[1..]))
  }

  /** Everything in the window exceeds what the header of an executed request acknowledged. */
  ghost predicate AboveAt(s: Sys, y: nat) {
    y in s.news && y in s.sent ==> forall e :: e in s.win ==> e.xid > s.sent[y]
  }

  ghost predicate SettledInv(s: Sys) {
    SafeInv(s) && forall y :: AboveAt(s, y)
  }

  lemma InitSettled()
    ensures SettledInv(InitSys())
  {
    InitSafe();
  }

  /** A settled delivery leaves only entries above its header's prefix. */
  lemma SettledLeaves(s: Sys, x: nat, e: Entry)
    requires SettledInv(s) && x in s.sent && Settled(s, DeliverRequest(x)) && e in Left(s, x)
    ensures e in s.win && e.xid > s.sent[x]
  {
    WalkLeaves(s.win, x, s.sent[x]);
    if Remembers(s.win, x) {
      HitWasExecuted(s, x);
    } else {
      WalkMissIsKept(s.win, x, s.sent[x]);
      KeptIsNotDropped(s.win, s.sent[x], e);
    }
  }

  lemma HitWasExecuted(s: Sys, x: nat)
    requires SettledInv(s) && x in s.sent && Remembers(s.win, x)
    ensures forall e :: e in s.win ==> e.xid > s.sent[x]
  {
    var k :| 0 <= k < |s.win| && s.win[k].xid == x;
    assert s.win[k] in s.win;
    assert AboveAt(s, x);
  }

  lemma SettledIsSafe(s: Sys, x: nat)
    requires SettledInv(s) && x in s.sent && Settled(s, DeliverRequest(x))
    ensures Safe(s, DeliverRequest(x))
  {
    var w := Left(s, x);
    WalkLeaves(s.win, x, s.sent[x]);
    if w != [] { SettledLeaves(s, x, w[|w| - 1]); }
  }

  /** A request that is let through exceeds every prefix acknowledged before. */
  lemma NewIsAbove(s: Sys, x: nat, y: nat)
    requires SettledInv(s) && x in s.sent && Settled(s, DeliverRequest(x)) && !Guarded(s.win, x, s.sent[x])
    requires y in s.news
    ensures y in s.sent && s.sent[y] < x
  {
    assert AboveAt(s, y) && GuardedAt(s, y) && CoveredAt(s, y);
    SettledIsSafe(s, x);
    SafeLeaves(s, x, y);
    NewIsNew(s, x);
    var w := Left(s, x);
    if w != [] {
      SettledLeaves(s, x, w[|w| - 1]);
      assert w[|w| - 1].xid > s.sent[y];
    }
  }

  lemma SettledAbove(s: Sys, x: nat, y: nat)
    requires SettledInv(s) && x in s.sent && Settled(s, DeliverRequest(x))
    ensures AboveAt(Next(s, DeliverRequest(x)), y)
  {
    var t := Next(s, DeliverRequest(x));
    assert AboveAt(s, y);
    WindowAfter(s, x);
    WalkLeaves(s.win, x, s.sent[x]);
    if Guarded(s.win, x, s.sent[x]) {
      OldIsOld(s, x);
    } else {
      NewIsNew(s, x);
      InsertAdds(Left(s, x), x);
      if y in s.news { NewIsAbove(s, x, y); }
      forall e | e in t.win && y in t.news && y in t.sent
        ensures e.xid > t.sent[y]
      {
        if e in Left(s, x) { SettledLeaves(s, x, e); }
      }
    }
  }

  lemma OtherAbove(s: Sys, e: Event, y: nat)
    requires SettledInv(s) && Enabled(s, e) && !e.DeliverRequest?
    ensures AboveAt(Next(s, e), y)
  {
    assert AboveAt(s, y) && GuardedAt(s, y);
    if e.Finish? {
      AddReplySets(s.win, e.x, e.buf);
      var t := Next(s, e);
      forall f | f in t.win && y in t.news && y in t.sent
        ensures f.xid > t.sent[y]
      {
        var k :| 0 <= k < |t.win| && t.win[k] == f;
        assert s.win[k] in s.win;
      }
    }
  }

  lemma StepIsSettled(s: Sys, e: Event)
    requires SettledInv(s) && Enabled(s, e) && Settled(s, e)
    ensures Safe(s, e) && SettledInv(Next(s, e))
  {
    if e.DeliverRequest? { SettledIsSafe(s, e.x); }
    StepIsSafe(s, e);
    forall y
      ensures AboveAt(Next(s, e), y)
    {
      if e.DeliverRequest? {
        SettledAbove(s, e.x, y);
      } else {
        OtherAbove(s, e, y);
      }
    }
  }

  lemma {:induction false} SettledRunIsSafe(s: Sys, es: seq<Event>)
    requires SettledInv(s) && IsRun(s, es) && SettledRun(s, es)
    ensures SafeRun(s, es)
    decreases es
  {
    if es != [] {
      StepIsSettled(s, es[0]);
      SettledRunIsSafe(Next(s, es[0]), es[1..]);
    }
  }

  /** At-most-once over every run, time-outs included, in which no delivered header
      acknowledges a request that is still being executed. */
  lemma AtMostOnceIfSettled(es: seq<Event>)
    requires IsRun(InitSys(), es) && SettledRun(InitSys(), es)
    ensures SafeRun(InitSys(), es) && AtMostOnce(After(InitSys(), es))
  {
    InitSettled();
    SettledRunIsSafe(InitSys(), es);
    AtMostOnceIfSafe(es);
  }

  // ------------------------------------------------------------------------ no time-outs

  ghost predicate NoTimeouts(es: seq<Event>) {
    forall k :: 0 <= k < |es| ==> !es[k].Timeout?
  }

  /** While no call has timed out, only replied requests are acknowledged. */
  ghost predicate AcknowledgedOk(s: Sys) {
    forall x :: x in s.reported ==> Replied(s, x)
  }

  /** If only replied requests are acknowledged, no header acknowledges a running one. */
  lemma RepliedIsSettled(s: Sys, e: Event)
    requires SettledInv(s) && AcknowledgedOk(s)
    ensures Settled(s, e)
  {
    if e.DeliverRequest? && e.x in s.sent {
      forall f | f in s.win && f.xid <= s.sent[e.x]
        ensures f.present
      {
        assert EntryOk(s, f) && GuardedAt(s, f.xid) && RefusedAt(s, f.xid);
        RemembersEntry(s.win, f);
        assert f.xid in s.reported && Replied(s, f.xid);
      }
    }
  }

  lemma StepKeepsAcknowledged(s: Sys, e: Event)
    requires AcknowledgedOk(s) && Enabled(s, e) && !e.Timeout?
    ensures AcknowledgedOk(Next(s, e))
  {
    var t := Next(s, e);
    forall x | x in t.reported
      ensures Replied(t, x)
    {
      if x in s.reported {
        assert Replied(s, x);
      } else {
        assert e.DeliverReply? && e.x == x;
      }
      if Failure(x) !in s.replies {
        var b :| Answer(x, b) in s.replies;
        assert Answer(x, b) in t.replies;
      }
    }
  }

  lemma {:induction false} NoTimeoutsSettle(s: Sys, es: seq<Event>)
    requires SettledInv(s) && AcknowledgedOk(s) && IsRun(s, es) && NoTimeouts(es)
    ensures SettledRun(s, es)
    decreases es
  {
    if es != [] {
      RepliedIsSettled(s, es[0]);
      StepIsSettled(s, es[0]);
      StepKeepsAcknowledged(s, es[0]);
      NoTimeoutsSettle(Next(s, es[0]), es[1..]);
    }
  }

  /** At-most-once over every run in which no call times out. */
  lemma AtMostOnceWithoutTimeouts(es: seq<Event>)
    requires IsRun(InitSys(), es) && NoTimeouts(es)
    ensures SettledRun(InitSys(), es) && AtMostOnce(After(InitSys(), es))
  {
    InitSettled();
    NoTimeoutsSettle(InitSys(), es);
    AtMostOnceIfSettled(es);
  }
}
