/** Exactly which deliveries let at-most-once fail: a delivery that is not harmless leaves
    a state in which a late copy of an executed request is executed again. */
module RpcExact {
  import opened RpcServer
  import opened RpcWindow
  import opened RpcSystem

  /** Delivering `y` would execute it a second time. */
  ghost predicate RepeatsWith(s: Sys, y: nat) {
    y in s.sent && y in s.news && Next(s, DeliverRequest(y)).news == s.news + [y]
  }

  ghost predicate CanRepeat(s: Sys) {
    exists y :: RepeatsWith(s, y)
  }

  lemma RepeatsIsUnguarded(s: Sys, y: nat)
    requires Distinct(s.win) && y in s.sent && y in s.news
    ensures RepeatsWith(s, y) <==> !Guarded(s.win, y, s.sent[y])
  {
    CheckExact(s.win, y, s.sent[y]);
    assert |s.news + [y]| == |s.news| + 1;
  }

  lemma InvCannotRepeat(s: Sys)
    requires Inv(s)
    ensures !CanRepeat(s)
  {
    forall y | y in s.sent && y in s.news
      ensures !RepeatsWith(s, y)
    {
      assert GuardedAt(s, y);
      RepeatsIsUnguarded(s, y);
    }
  }

  /** The window after a delivery. */
  lemma WindowAfter(s: Sys, x: nat)
    requires Inv(s) && x in s.sent
    ensures var t := Next(s, DeliverRequest(x));
      && t.win == (if Guarded(s.win, x, s.sent[x]) then Left(s, x) else Insert(Left(s, x), x))
      && t.sent == s.sent && (forall y :: y in s.news ==> y in t.news) && Distinct(t.win)
  {
    WalkLeaves(s.win, x, s.sent[x]);
    if !Guarded(s.win, x, s.sent[x]) {
      NewIsNew(s, x);
      InsertAdds(Left(s, x), x);
    } else if Remembers(s.win, x) {
      HitAnswers(s, x);
    } else {
      ForgottenAnswers(s, x);
    }
  }

  lemma DroppedIsForgotten(s: Sys, x: nat, f: Entry)
    requires Inv(s) && x in s.sent && f in s.win && f !in Left(s, x)
    ensures f.xid in s.news && f.xid in s.sent && s.sent[f.xid] < f.xid <= s.sent[x] && !Remembers(Left(s, x), f.xid)
  {
    WalkLeaves(s.win, x, s.sent[x]);
    assert GuardedAt(s, f.xid);
  }

  /** A reply that is dropped although the last entry left lies below it. */
  lemma DropExposes(s: Sys, x: nat, f: Entry)
    requires Inv(s) && x in s.sent && f in s.win && f !in Left(s, x) && f.xid in s.sent
    requires Left(s, x) != [] && !EndsAbove(Kept(Left(s, x), s.sent[f.xid]), f.xid)
    ensures RepeatsWith(Next(s, DeliverRequest(x)), f.xid)
  {
    var t := Next(s, DeliverRequest(x));
    DroppedIsForgotten(s, x, f);
    WindowAfter(s, x);
    if !Guarded(s.win, x, s.sent[x]) { NewDropExposes(s, x, f); }
    RepeatsIsUnguarded(t, f.xid);
  }

  lemma NewDropExposes(s: Sys, x: nat, f: Entry)
    requires Inv(s) && x in s.sent && f in s.win && f !in Left(s, x) && f.xid in s.sent && !Guarded(s.win, x, s.sent[x])
    requires Left(s, x) != [] && !EndsAbove(Kept(Left(s, x), s.sent[f.xid]), f.xid)
    ensures !Guarded(Insert(Left(s, x), x), f.xid, s.sent[f.xid])
  {
    var w, own := Left(s, x), s.sent[f.xid];
    DroppedIsForgotten(s, x, f);
    NewIsNew(s, x);
    WalkLeaves(s.win, x, s.sent[x]);
    WalkMissIsKept(s.win, x, s.sent[x]);
    KeptTwice(s.win, own, s.sent[x]);
    PlaceIsInside(w, x);
    KeptBack(w, Place(w, x), own);
    InsertUnguards(w, x, f.xid, own);
  }

  /** A new request that is put behind all that guards a larger one. */
  lemma InsertExposes(s: Sys, x: nat, y: nat)
    requires Inv(s) && x in s.sent && !Guarded(s.win, x, s.sent[x]) && y in s.news && y in s.sent && x < y
    requires !Remembers(Left(s, x), y) && Kept(Left(s, x)[Place(Left(s, x), x)..], s.sent[y]) == []
    ensures RepeatsWith(Next(s, DeliverRequest(x)), y)
  {
    WindowAfter(s, x);
    NewIsNew(s, x);
    WalkLeaves(s.win, x, s.sent[x]);
    InsertUnguards(Left(s, x), x, y, s.sent[y]);
    RepeatsIsUnguarded(Next(s, DeliverRequest(x)), y);
  }

  lemma HarmExposes(s: Sys, x: nat) returns (y: nat)
    requires Inv(s) && x in s.sent && !Harmless(s, DeliverRequest(x))
    ensures RepeatsWith(Next(s, DeliverRequest(x)), y)
  {
    if !DropsHarmlessly(s, x) {
      var f :| f in s.win && f !in Left(s, x) &&
        !(f.xid in s.sent && (Left(s, x) == [] || EndsAbove(Kept(Left(s, x), s.sent[f.xid]), f.xid)));
      y := f.xid;
      DroppedIsForgotten(s, x, f);
      DropExposes(s, x, f);
    } else {
      var w := Left(s, x);
      y :| y in s.news && y in s.sent && x < y && !Remembers(w, y) && Kept(w[Place(w, x)..], s.sent[y]) == [];
      InsertExposes(s, x, y);
    }
  }

  /** Exactly when a step leaves a state in which one more delivery executes a request
      twice. */
  lemma StepExact(s: Sys, e: Event)
    requires Inv(s) && Enabled(s, e)
    ensures Harmless(s, e) <==> !CanRepeat(Next(s, e))
  {
    if Harmless(s, e) {
      StepKeepsInv(s, e);
      InvCannotRepeat(Next(s, e));
    } else {
      var y := HarmExposes(s, e.x);
    }
  }

  /** No state of the run is one delivery away from a second execution. */
  ghost predicate NeverCanRepeat(s: Sys, es: seq<Event>)
    requires IsRun(s, es)
    decreases es
  {
    !CanRepeat(s) && (es == [] || NeverCanRepeat(Next(s, es[0]), es[1..]))
  }

  lemma {:induction false} RunExact(s: Sys, es: seq<Event>)
    requires Inv(s) && IsRun(s, es)
    ensures HarmlessRun(s, es) <==> NeverCanRepeat(s, es)
    decreases es
  {
    InvCannotRepeat(s);
    if es != [] {
      StepExact(s, es[0]);
      if Harmless(s, es[0]) {
        StepKeepsInv(s, es[0]);
        RunExact(Next(s, es[0]), es[1..]);
      } else {
        assert es[1..] == [] || IsRun(Next(s, es[0]), es[1..]);
      }
    }
  }

  /** Over every run: its deliveries are harmless exactly when it never comes within one
      delivery of executing a request twice. */
  lemma AtMostOnceExact(es: seq<Event>)
    requires IsRun(InitSys(), es)
    ensures HarmlessRun(InitSys(), es) <==> NeverCanRepeat(InitSys(), es)
    ensures HarmlessRun(InitSys(), es) ==> AtMostOnce(After(InitSys(), es))
  {
    InitInv();
    RunExact(InitSys(), es);
    if HarmlessRun(InitSys(), es) { AtMostOnceIfHarmless(es); }
  }

  /** A reply that was lost is sent again: after every harmless run, a repeat of a request
      that is finished and still remembered is answered with its one result. */
  lemma LostReplyIsSentAgain(es: seq<Event>, x: nat, b: Bytes)
    requires IsRun(InitSys(), es) && HarmlessRun(InitSys(), es)
    requires var s := After(InitSys(), es); Result(x, b) in s.finished && Remembers(s.win, x)
    ensures var s := After(InitSys(), es);
      x in s.sent && Next(s, DeliverRequest(x)).replies == s.replies + {Answer(x, b)}
  {
    InitInv();
    RunKeepsInv(InitSys(), es);
    var s := After(InitSys(), es);
    assert x in s.news && GuardedAt(s, x);
    DeliveryExact(s, x);
    FinishedOnce(s, x, b);
  }

  lemma FinishedOnce(s: Sys, x: nat, b: Bytes)
    requires Inv(s) && Result(x, b) in s.finished
    ensures x !in s.running && forall c :: Result(x, c) in s.finished ==> c == b
  {
    if x in s.running { PendingIsNew(s, x); }
    var j :| 0 <= j < |s.finished| && s.finished[j] == Result(x, b);
    forall c | Result(x, c) in s.finished
      ensures c == b
    {
      var k :| 0 <= k < |s.finished| && s.finished[k] == Result(x, c);
    }
  }

  lemma {:induction false} RunSnoc(s: Sys, es: seq<Event>, e: Event)
    requires IsRun(s, es) && Enabled(After(s, es), e)
    ensures IsRun(s, es + [e]) && After(s, es + [e]) == Next(After(s, es), e)
    decreases es
  {
    var fs := es + [e];
    if es == [] {
      assert fs == [e] && fs[1..] == [];
    } else {
      assert fs[0] == es[0] && fs[1..] == es[1..] + [e];
      RunSnoc(Next(s, es[0]), es[1..], e);
    }
  }

  lemma RepeatSeen(s: Sys, y: nat)
    requires y in s.news && y in s.sent
    requires Next(s, DeliverRequest(y)).news == s.news + [y]
    ensures !AtMostOnce(Next(s, DeliverRequest(y)))
  {
    var k :| 0 <= k < |s.news| && s.news[k] == y;
    assert (s.news + [y])[k] == (s.news + [y])[|s.news|];
  }

  /** The first delivery of a run that is not harmless has a one-event continuation in
      which a request is executed twice. */
  lemma HarmRepeats(es: seq<Event>, e: Event) returns (y: nat)
    requires IsRun(InitSys(), es) && HarmlessRun(InitSys(), es)
    requires Enabled(After(InitSys(), es), e) && !Harmless(After(InitSys(), es), e)
    ensures IsRun(InitSys(), es + [e] + [DeliverRequest(y)])
    ensures !AtMostOnce(After(InitSys(), es + [e] + [DeliverRequest(y)]))
  {
    InitInv();
    RunKeepsInv(InitSys(), es);
    y := HarmExposes(After(InitSys(), es), e.x);
    RunSnoc(InitSys(), es, e);
    RunSnoc(InitSys(), es + [e], DeliverRequest(y));
    RepeatSeen(After(InitSys(), es + [e]), y);
  }
}
