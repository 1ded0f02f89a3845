/** At-most-once RPC over a network that duplicates, reorders and loses requests
    and replies: one client (with a non-zero nonce), its window, and the server's
    window for it. */
module RpcSystem {
  import opened RpcClient
  import opened RpcServer
  import opened RpcWindow

  /** A reply on the wire: the result of an execution, or the at-most-once failure. */
  datatype Reply = Answer(xid: nat, buf: Bytes) | Failure(xid: nat)

  datatype Result = Result(xid: nat, buf: Bytes)

  datatype Sys = Sys(
    nextXid: nat,
    reported: set<nat>,         // ids the client has acknowledged
    sent: map<nat, nat>,        // each request's id, with the prefix its header acknowledges
    win: seq<Entry>,            // the server's window
    news: seq<nat>,             // ids given to the handler, in order
    running: multiset<nat>,     // executions in progress
    finished: seq<Result>,      // executions completed
    replies: set<Reply>)        // everything the server sent back

  datatype Event =
    | Call(rep: nat)
    | DeliverRequest(x: nat)
    | Finish(x: nat, buf: Bytes)
    | DeliverReply(x: nat)
    | Timeout(x: nat)

  function InitSys(): (s: Sys) {
    Sys(1, {}, map[], [], [], multiset{}, [], {})
  }

  ghost predicate Replied(s: Sys, x: nat) {
    Failure(x) in s.replies || exists b :: Answer(x, b) in s.replies
  }

  ghost predicate Enabled(s: Sys, e: Event) {
    match e
    case Call(rep) => IsFront(s.reported, rep)
    case DeliverRequest(x) => x in s.sent
    case Finish(x, buf) => x in s.running
    case DeliverReply(x) => Replied(s, x)
    case Timeout(x) => x in s.sent
  }

  function Next(s: Sys, e: Event): (t: Sys)
    requires e.DeliverRequest? ==> e.x in s.sent
  {
    match e
    case Call(rep) => s.(nextXid := s.nextXid + 1, sent := s.sent[s.nextXid := rep])
    case DeliverRequest(x) =>
      var r := Check(s.win, x, s.sent[x]);
      var t := s.(win := r.0);
      match r.1 {
        case New => t.(news := s.news + [x], running := s.running + multiset{x})
        case InProgress => t
        case Done(buf) => t.(replies := s.replies + {Answer(x, buf)})
        case Forgotten => t.(replies := s.replies + {Failure(x)})
      }
    case Finish(x, buf) =>
      s.(win := AddReply(s.win, x, buf), running := s.running - multiset{x},
         finished := s.finished + [Result(x, buf)], replies := s.replies + {Answer(x, buf)})
    case DeliverReply(x) => s.(reported := s.reported + {x})
    case Timeout(x) => s.(reported := s.reported + {x})
  }

  /** What the delivery of request `x` leaves of the window, before `x` is added. */
  function Left(s: Sys, x: nat): (w: seq<Entry>)
    requires x in s.sent
  {
    Walk(s.win, x, s.sent[x]).win
  }

  /** Every reply that the delivery of `x` drops lies below the last entry that a late copy
      of its request would leave, unless nothing is left. */
  ghost predicate DropsHarmlessly(s: Sys, x: nat)
    requires x in s.sent
  {
    forall f :: f in s.win && f !in Left(s, x) ==>
      f.xid in s.sent && (Left(s, x) == [] || EndsAbove(Kept(Left(s, x), s.sent[f.xid]), f.xid))
  }

  /** If `x` is let through, it is not put behind everything that a late copy of a larger,
      forgotten request would leave. */
  ghost predicate InsertsHarmlessly(s: Sys, x: nat)
    requires x in s.sent
  {
    var w := Left(s, x);
    !Guarded(s.win, x, s.sent[x]) ==>
      forall y :: y in s.news && y in s.sent && x < y && !Remembers(w, y) ==>
        Kept(w[Place(w, x)..], s.sent[y]) != []
  }

  ghost predicate Harmless(s: Sys, e: Event) {
    e.DeliverRequest? && e.x in s.sent ==> DropsHarmlessly(s, e.x) && InsertsHarmlessly(s, e.x)
  }

  ghost predicate IsRun(s: Sys, es: seq<Event>)
    decreases es
  {
    es == [] || (Enabled(s, es[0]) && IsRun(Next(s, es[0]), es[1..]))
  }

  ghost predicate HarmlessRun(s: Sys, es: seq<Event>)
    requires IsRun(s, es)
    decreases es
  {
    es == [] || (Harmless(s, es[0]) && HarmlessRun(Next(s, es[0]), es[1..]))
  }

  ghost function After(s: Sys, es: seq<Event>): (t: Sys)
    requires IsRun(s, es)
    decreases es
  {
    if es == [] then s else After(Next(s, es[0]), es[1..])
  }

  // ---------------------------------------------------------------------- invariant

  /** Headers acknowledge earlier requests only. */
  ghost predicate ClientOk(s: Sys) {
    && s.nextXid >= 1
    && (forall x :: x in s.sent ==> 1 <= x < s.nextXid && s.sent[x] < x)
    && (forall x :: x in s.reported ==> x in s.sent)
    && (forall x, y :: x in s.sent && 1 <= y <= s.sent[x] ==> y in s.reported)
  }

  ghost predicate NoRepeats(xs: seq<nat>) {
    forall j, k :: 0 <= j < k < |xs| ==> xs[j] != xs[k]
  }

  /** No late copy of an executed request is let through. */
  ghost predicate GuardedAt(s: Sys, x: nat) {
    x in s.news ==> x in s.sent && Guarded(s.win, x, s.sent[x])
  }

  ghost predicate WindowOk(s: Sys) {
    && Distinct(s.win)
    && (forall e :: e in s.win ==> e.xid in s.news)
    && (forall x :: GuardedAt(s, x))
    && NoRepeats(s.news)
  }

  ghost predicate EntryOk(s: Sys, e: Entry) {
    if e.present then Result(e.xid, e.buf) in s.finished
    else e.xid in s.running && forall b :: Result(e.xid, b) !in s.finished
  }

  predicate Pending(win: seq<Entry>, x: nat) {
    exists e :: e in win && e.xid == x && !e.present
  }

  /** The executions in progress are the entries without a reply. */
  ghost predicate RunningOk(s: Sys) {
    && (forall x :: s.running[x] <= 1)
    && (forall x :: x in s.running ==> Pending(s.win, x))
    && (forall e :: e in s.win ==> EntryOk(s, e))
  }

  /** A request has at most one result, and every answer sent is that result. */
  ghost predicate FinishedOk(s: Sys) {
    && (forall r :: r in s.finished ==> r.xid in s.news)
    && (forall j, k :: 0 <= j < k < |s.finished| ==> s.finished[j].xid != s.finished[k].xid)
    && (forall x, b :: Answer(x, b) in s.replies ==> Result(x, b) in s.finished)
    && (forall x :: Failure(x) in s.replies ==> x in s.sent)
  }

  ghost predicate Inv(s: Sys) {
    ClientOk(s) && WindowOk(s) && RunningOk(s) && FinishedOk(s)
  }

  lemma InitInv()
    ensures Inv(InitSys())
  {
  }

  // ---------------------------------------------------- delivery of a request: the guards

  /** A forgotten request that was dropped just now. */
  lemma DroppedIsGuarded(s: Sys, x: nat, y: nat)
    requires Distinct(s.win) && x in s.sent && y in s.sent && DropsHarmlessly(s, x)
    requires Remembers(s.win, y) && !Remembers(Left(s, x), y)
    ensures y <= s.sent[x]
    ensures Left(s, x) == [] || EndsAbove(Kept(Left(s, x), s.sent[y]), y)
  {
    var k :| 0 <= k < |s.win| && s.win[k].xid == y;
    var f := s.win[k];
    WalkLeaves(s.win, x, s.sent[x]);
    if f in Left(s, x) { RemembersEntry(Left(s, x), f); }
    assert f in s.win && f !in Left(s, x);
  }

  /** A request forgotten earlier: the entry that guards it stays, or drops harmlessly. */
  lemma ForgottenIsGuarded(s: Sys, x: nat, y: nat)
    requires ClientOk(s) && Distinct(s.win) && x in s.sent && y in s.sent && DropsHarmlessly(s, x)
    requires Guarded(s.win, y, s.sent[y]) && !Remembers(s.win, y)
    ensures Left(s, x) == [] ==> y <= s.sent[x]
    ensures Left(s, x) == [] || EndsAbove(Kept(Left(s, x), s.sent[y]), y)
  {
    var rep, own := s.sent[x], s.sent[y];
    if rep <= own {
      KeptAfterWalk(s.win, x, rep, own);
    } else if Remembers(s.win, x) {
      KeptAfterHit(s.win, x, rep, own);
    } else {
      GuardOfForgotten(s, x, y);
    }
  }

  /** The same when `x` is not remembered and acknowledges more than `y` did. */
  lemma GuardOfForgotten(s: Sys, x: nat, y: nat)
    requires ClientOk(s) && Distinct(s.win) && x in s.sent && y in s.sent && DropsHarmlessly(s, x)
    requires EndsAbove(Kept(s.win, s.sent[y]), y) && !Remembers(s.win, x) && s.sent[y] < s.sent[x]
    ensures Left(s, x) == [] ==> y <= s.sent[x]
    ensures Left(s, x) == [] || EndsAbove(Kept(Left(s, x), s.sent[y]), y)
  {
    var rep, own := s.sent[x], s.sent[y];
    var kept := Kept(s.win, own);
    var last := kept[|kept| - 1];
    WalkMissIsKept(s.win, x, rep);
    KeptTwice(s.win, own, rep);
    KeptIsNotDropped(s.win, own, last);
    if Dropped(last, rep) {
      if last in Left(s, x) { KeptIsNotDropped(s.win, rep, last); }
      AboveLast(s, x, last);
    } else {
      KeptLast(kept, rep);
    }
  }

  /** What drops harmlessly in a walk that misses is below the last entry left. */
  lemma AboveLast(s: Sys, x: nat, f: Entry)
    requires ClientOk(s) && x in s.sent && DropsHarmlessly(s, x) && !Remembers(s.win, x)
    requires f in s.win && f !in Left(s, x) && f.xid <= s.sent[x]
    ensures Left(s, x) == [] || EndsAbove(Left(s, x), f.xid)
  {
    WalkMissIsKept(s.win, x, s.sent[x]);
    KeptTwice(s.win, s.sent[f.xid], s.sent[x]);
  }

  /** Whatever was executed is remembered, or guarded by what the delivery leaves; if
      nothing is left, it is below the request delivered. */
  lemma LeftGuards(s: Sys, x: nat, y: nat)
    requires ClientOk(s) && WindowOk(s) && x in s.sent && y in s.news && DropsHarmlessly(s, x)
    ensures y in s.sent
    ensures if Left(s, x) == [] then y < x else Guarded(Left(s, x), y, s.sent[y])
  {
    assert GuardedAt(s, y);
    if Remembers(s.win, y) {
      if !Remembers(Left(s, x), y) { DroppedIsGuarded(s, x, y); }
    } else {
      ForgottenIsGuarded(s, x, y);
    }
  }

  /** A new entry that is put in harmlessly leaves a guarded request guarded. */
  lemma InsertGuards(w: seq<Entry>, x: nat, y: nat, rep: nat)
    requires Distinct(w) && !Remembers(w, x) && !EndsAbove(w, x) && y != x
    requires if w == [] then y < x else Guarded(w, y, rep)
    requires x < y && !Remembers(w, y) ==> Kept(w[Place(w, x)..], rep) != []
    ensures Guarded(Insert(w, x), y, rep)
  {
    InsertRemembers(w, x, y);
    InsertKept(w, x, rep);
  }

  /** A request that is let through leaves a miss behind, and was not executed before. */
  lemma NewIsNew(s: Sys, x: nat)
    requires WindowOk(s) && x in s.sent && !Guarded(s.win, x, s.sent[x])
    ensures x !in s.news && !Remembers(Left(s, x), x) && !EndsAbove(Left(s, x), x)
    ensures Check(s.win, x, s.sent[x]) == (Insert(Left(s, x), x), New)
  {
    assert GuardedAt(s, x);
    WalkMissIsKept(s.win, x, s.sent[x]);
    WalkLeaves(s.win, x, s.sent[x]);
  }

  lemma NewGuards(s: Sys, x: nat, y: nat)
    requires ClientOk(s) && WindowOk(s) && x in s.sent && !Guarded(s.win, x, s.sent[x])
    requires Harmless(s, DeliverRequest(x)) && (y in s.news || y == x)
    ensures y in s.sent && Guarded(Insert(Left(s, x), x), y, s.sent[y])
  {
    NewIsNew(s, x);
    WalkLeaves(s.win, x, s.sent[x]);
    if y == x {
      InsertRemembers(Left(s, x), x, x);
    } else {
      LeftGuards(s, x, y);
      InsertGuards(Left(s, x), x, y, s.sent[y]);
    }
  }

  // ---------------------------------------------------- delivery of a request: the steps

  /** The state after the walk. */
  function Swept(s: Sys, x: nat): (t: Sys)
    requires x in s.sent
  {
    s.(win := Left(s, x))
  }

  lemma SweptWindow(s: Sys, x: nat)
    requires ClientOk(s) && WindowOk(s) && x in s.sent && Guarded(s.win, x, s.sent[x]) && Harmless(s, DeliverRequest(x))
    ensures WindowOk(Swept(s, x))
  {
    WalkLeaves(s.win, x, s.sent[x]);
    LeftSomething(s, x);
    forall y
      ensures GuardedAt(Swept(s, x), y)
    {
      if y in s.news { LeftGuards(s, x, y); }
    }
  }

  lemma LeftSomething(s: Sys, x: nat)
    requires Distinct(s.win) && x in s.sent && Guarded(s.win, x, s.sent[x])
    ensures Left(s, x) != []
  {
    WalkHits(s.win, x, s.sent[x]);
    WalkKeepsLast(s.win, x, s.sent[x]);
    if !Remembers(s.win, x) { WalkMissIsKept(s.win, x, s.sent[x]); }
  }

  /** Only recorded replies are dropped. */
  lemma SweptRunning(s: Sys, x: nat)
    requires Distinct(s.win) && RunningOk(s) && x in s.sent
    ensures RunningOk(Swept(s, x))
  {
    var t := Swept(s, x);
    WalkLeaves(s.win, x, s.sent[x]);
    forall y | y in s.running
      ensures Pending(t.win, y)
    {
      var e :| e in s.win && e.xid == y && !e.present;
      assert e in t.win;
    }
    forall e | e in t.win
      ensures EntryOk(t, e)
    {
      assert EntryOk(s, e);
    }
  }

  lemma SweptKeepsInv(s: Sys, x: nat)
    requires Inv(s) && x in s.sent && Guarded(s.win, x, s.sent[x]) && Harmless(s, DeliverRequest(x))
    ensures Inv(Swept(s, x))
  {
    SweptWindow(s, x);
    SweptRunning(s, x);
  }

  lemma ReplyKeepsInv(s: Sys, r: Reply)
    requires Inv(s) && (if r.Answer? then Result(r.xid, r.buf) in s.finished else r.xid in s.sent)
    ensures Inv(s.(replies := s.replies + {r}))
  {
    var t := s.(replies := s.replies + {r});
    SameWindow(s, t);
    SameEntries(s, t);
    assert FinishedOk(t);
  }

  lemma SameEntries(s: Sys, t: Sys)
    requires RunningOk(s) && t.win == s.win && t.running == s.running && t.finished == s.finished
    ensures RunningOk(t)
  {
    forall e | e in s.win
      ensures EntryOk(t, e)
    {
      assert EntryOk(s, e);
    }
  }

  /** A repeated request gets the recorded reply, or none while it is being executed. */
  lemma HitAnswers(s: Sys, x: nat)
    requires WindowOk(s) && RunningOk(s) && x in s.sent && Remembers(s.win, x)
    ensures var r := Check(s.win, x, s.sent[x]);
      && r.0 == Left(s, x) && r.1 != New && r.1 != Forgotten
      && (r.1.Done? ==> Result(x, r.1.buf) in s.finished)
  {
    WalkHits(s.win, x, s.sent[x]);
    assert EntryOk(s, Walk(s.win, x, s.sent[x]).e);
  }

  /** Exactly what the delivery of a request does. A repeat of a finished request that is
      still remembered is answered with its result; a repeat of one in execution gets no
      answer; any other is refused if the last entry that its header leaves is above it,
      and executed otherwise. */
  lemma DeliveryExact(s: Sys, x: nat)
    requires Inv(s) && x in s.sent
    ensures var t := Next(s, DeliverRequest(x));
      if Remembers(s.win, x) then
        && t.news == s.news && t.running == s.running
        && (x in s.running ==> t.replies == s.replies)
        && (x !in s.running ==> exists b :: Result(x, b) in s.finished && t.replies == s.replies + {Answer(x, b)})
      else if EndsAbove(Kept(s.win, s.sent[x]), x) then
        t.news == s.news && t.running == s.running && t.replies == s.replies + {Failure(x)}
      else
        t.news == s.news + [x] && t.running == s.running + multiset{x} && t.replies == s.replies
  {
    var win, rep := s.win, s.sent[x];
    AnswerExact(win, x, rep);
    if Remembers(win, x) {
      var k :| 0 <= k < |win| && win[k].xid == x;
      RememberedEntry(s, x, win[k]);
    }
  }

  /** An entry has a reply exactly if its request is not being executed any more. */
  lemma RememberedEntry(s: Sys, x: nat, e: Entry)
    requires WindowOk(s) && RunningOk(s) && e in s.win && e.xid == x
    ensures e.present <==> x !in s.running
    ensures e.present ==> e == Entry(x, true, e.buf) && Result(x, e.buf) in s.finished
  {
    assert EntryOk(s, e);
    if x in s.running {
      var f :| f in s.win && f.xid == x && !f.present;
      OnlyEntry(s.win, e, f);
    }
  }

  lemma HitKeepsInv(s: Sys, x: nat)
    requires x in s.sent && Inv(s) && Inv(Swept(s, x)) && Remembers(s.win, x)
    ensures Inv(Next(s, DeliverRequest(x)))
  {
    HitAnswers(s, x);
    var r := Check(s.win, x, s.sent[x]);
    if r.1.Done? { ReplyKeepsInv(Swept(s, x), Answer(x, r.1.buf)); }
  }

  lemma ForgottenAnswers(s: Sys, x: nat)
    requires x in s.sent && Guarded(s.win, x, s.sent[x]) && !Remembers(s.win, x)
    ensures Next(s, DeliverRequest(x)) == s.(win := Left(s, x), replies := s.replies + {Failure(x)})
  {
    WalkMissIsKept(s.win, x, s.sent[x]);
  }

  lemma OldKeepsInv(s: Sys, x: nat)
    requires Inv(s) && x in s.sent && Guarded(s.win, x, s.sent[x]) && Harmless(s, DeliverRequest(x))
    ensures Inv(Next(s, DeliverRequest(x)))
  {
    SweptKeepsInv(s, x);
    if Remembers(s.win, x) {
      HitKeepsInv(s, x);
    } else {
      ForgottenAnswers(s, x);
      ReplyKeepsInv(Swept(s, x), Failure(x));
    }
  }

  lemma NewWindow(s: Sys, x: nat)
    requires ClientOk(s) && WindowOk(s) && x in s.sent && !Guarded(s.win, x, s.sent[x])
    requires Harmless(s, DeliverRequest(x))
    ensures WindowOk(s.(win := Insert(Left(s, x), x), news := s.news + [x]))
  {
    var t := s.(win := Insert(Left(s, x), x), news := s.news + [x]);
    NewIsNew(s, x);
    WalkLeaves(s.win, x, s.sent[x]);
    InsertAdds(Left(s, x), x);
    forall y
      ensures GuardedAt(t, y)
    {
      if y in t.news { NewGuards(s, x, y); }
    }
  }

  lemma OneMoreRunning(s: Sys, t: Sys, x: nat)
    requires RunningOk(s) && x !in s.running && forall b :: Result(x, b) !in s.finished
    requires forall e :: e in t.win <==> e in s.win || e == Entry(x, false, "")
    requires t.running == s.running + multiset{x} && t.finished == s.finished
    ensures RunningOk(t)
  {
    assert Entry(x, false, "") in t.win;
    forall y | y in t.running
      ensures Pending(t.win, y)
    {
      if y != x {
        var e :| e in s.win && e.xid == y && !e.present;
        assert e in t.win;
      }
    }
    forall e | e in t.win
      ensures EntryOk(t, e)
    {
      if e in s.win { assert EntryOk(s, e); }
    }
  }

  lemma NewRunning(s: Sys, t: Sys, x: nat)
    requires Inv(s) && x in s.sent && !Guarded(s.win, x, s.sent[x])
    requires t == s.(win := Insert(Left(s, x), x), news := s.news + [x], running := s.running + multiset{x})
    ensures RunningOk(t)
  {
    NewIsNew(s, x);
    WalkLeaves(s.win, x, s.sent[x]);
    SweptRunning(s, x);
    InsertAdds(Left(s, x), x);
    NewNotRunning(s, x);
    OneMoreRunning(Swept(s, x), t, x);
  }

  lemma NewNotRunning(s: Sys, x: nat)
    requires WindowOk(s) && RunningOk(s) && FinishedOk(s) && x !in s.news
    ensures x !in s.running && forall b :: Result(x, b) !in s.finished
  {
  }

  lemma NewKeepsInv(s: Sys, x: nat)
    requires Inv(s) && x in s.sent && !Guarded(s.win, x, s.sent[x]) && Harmless(s, DeliverRequest(x))
    ensures Inv(Next(s, DeliverRequest(x)))
  {
    var t := s.(win := Insert(Left(s, x), x), news := s.news + [x], running := s.running + multiset{x});
    NewIsNew(s, x);
    NewWindow(s, x);
    NewRunning(s, t, x);
    SameWindow(s.(win := t.win, news := t.news), t);
    assert FinishedOk(t);
  }

  lemma DeliverKeepsInv(s: Sys, x: nat)
    requires Inv(s) && x in s.sent && Harmless(s, DeliverRequest(x))
    ensures Inv(Next(s, DeliverRequest(x)))
  {
    if Guarded(s.win, x, s.sent[x]) {
      OldKeepsInv(s, x);
    } else {
      NewKeepsInv(s, x);
    }
  }

  // -------------------------------------------------------------------- other steps

  lemma CallKeepsInv(s: Sys, rep: nat)
    requires Inv(s) && IsFront(s.reported, rep)
    ensures Inv(Next(s, Call(rep)))
  {
    var t := Next(s, Call(rep));
    if rep >= 1 { assert rep in s.reported; }
    assert ClientOk(t);
    SameEntries(s, t);
    forall x
      ensures GuardedAt(t, x)
    {
      assert GuardedAt(s, x);
    }
    assert WindowOk(t) && FinishedOk(t);
  }

  lemma SameWindow(s: Sys, t: Sys)
    requires WindowOk(s) && t.win == s.win && t.news == s.news && t.sent == s.sent
    ensures WindowOk(t)
  {
    forall x
      ensures GuardedAt(t, x)
    {
      assert GuardedAt(s, x);
    }
  }

  lemma FinishWindow(s: Sys, t: Sys, x: nat, buf: Bytes)
    requires ClientOk(s) && WindowOk(s) && t == Next(s, Finish(x, buf))
    ensures WindowOk(t)
  {
    AddReplySets(s.win, x, buf);
    forall e | e in t.win
      ensures e.xid in t.news
    {
      var k :| 0 <= k < |t.win| && t.win[k] == e;
      assert s.win[k] in s.win;
    }
    forall y
      ensures GuardedAt(t, y)
    {
      assert GuardedAt(s, y);
      if y in s.news { AddReplyGuards(s.win, x, buf, y, s.sent[y]); }
    }
  }

  lemma FinishPending(s: Sys, x: nat, buf: Bytes, y: nat)
    requires Distinct(s.win) && Pending(s.win, y) && y != x
    ensures Pending(AddReply(s.win, x, buf), y)
  {
    AddReplySets(s.win, x, buf);
    var e :| e in s.win && e.xid == y && !e.present;
    var k :| 0 <= k < |s.win| && s.win[k] == e;
    assert AddReply(s.win, x, buf)[k] == e;
  }

  lemma FinishEntry(s: Sys, t: Sys, x: nat, buf: Bytes, k: nat)
    requires Distinct(s.win) && t == Next(s, Finish(x, buf)) && k < |s.win| && EntryOk(s, s.win[k])
    ensures k < |t.win| && EntryOk(t, t.win[k])
  {
    AddReplySets(s.win, x, buf);
    assert t.finished[|s.finished|] == Result(x, buf);
  }

  lemma FinishRunning(s: Sys, t: Sys, x: nat, buf: Bytes)
    requires Distinct(s.win) && RunningOk(s) && x in s.running && t == Next(s, Finish(x, buf))
    ensures RunningOk(t)
  {
    AddReplySets(s.win, x, buf);
    forall y | y in t.running
      ensures Pending(t.win, y)
    {
      assert y in s.running && y != x;
      FinishPending(s, x, buf, y);
    }
    forall e | e in t.win
      ensures EntryOk(t, e)
    {
      var k :| 0 <= k < |t.win| && t.win[k] == e;
      assert s.win[k] in s.win;
      FinishEntry(s, t, x, buf, k);
    }
  }

  lemma FinishResults(s: Sys, t: Sys, x: nat, buf: Bytes)
    requires WindowOk(s) && RunningOk(s) && FinishedOk(s) && x in s.running && t == Next(s, Finish(x, buf))
    ensures FinishedOk(t)
  {
    PendingIsNew(s, x);
    assert forall k :: 0 <= k < |s.finished| ==> t.finished[k] == s.finished[k] && s.finished[k] in s.finished;
    assert t.finished[|s.finished|] == Result(x, buf);
    assert forall k :: 0 <= k < |s.finished| ==> s.finished[k] == Result(s.finished[k].xid, s.finished[k].buf);
  }

  lemma FinishKeepsInv(s: Sys, x: nat, buf: Bytes)
    requires Inv(s) && x in s.running
    ensures Inv(Next(s, Finish(x, buf)))
  {
    var t := Next(s, Finish(x, buf));
    FinishWindow(s, t, x, buf);
    FinishRunning(s, t, x, buf);
    FinishResults(s, t, x, buf);
  }

  lemma PendingIsNew(s: Sys, x: nat)
    requires WindowOk(s) && RunningOk(s) && x in s.running
    ensures x in s.news && forall b :: Result(x, b) !in s.finished
  {
    var e :| e in s.win && e.xid == x && !e.present;
    assert EntryOk(s, e);
  }

  lemma ReportKeepsInv(s: Sys, x: nat)
    requires Inv(s) && x in s.sent
    ensures Inv(s.(reported := s.reported + {x}))
  {
    var t := s.(reported := s.reported + {x});
    assert ClientOk(t) && FinishedOk(t);
    SameEntries(s, t);
    SameWindow(s, t);
  }

  lemma RepliedWasSent(s: Sys, x: nat)
    requires Inv(s) && Replied(s, x)
    ensures x in s.sent
  {
    if Failure(x) !in s.replies {
      var b :| Answer(x, b) in s.replies;
      assert Result(x, b) in s.finished && GuardedAt(s, x);
    }
  }

  lemma StepKeepsInv(s: Sys, e: Event)
    requires Inv(s) && Enabled(s, e) && Harmless(s, e)
    ensures Inv(Next(s, e))
  {
    match e
    case Call(rep) => CallKeepsInv(s, rep);
    case DeliverRequest(x) => DeliverKeepsInv(s, x);
    case Finish(x, buf) => FinishKeepsInv(s, x, buf);
    case DeliverReply(x) => RepliedWasSent(s, x); ReportKeepsInv(s, x);
    case Timeout(x) => ReportKeepsInv(s, x);
  }

  // ------------------------------------------------------------------------ theorems

  lemma {:induction false} RunKeepsInv(s: Sys, es: seq<Event>)
    requires Inv(s) && IsRun(s, es) && HarmlessRun(s, es)
    ensures Inv(After(s, es))
    decreases es
  {
    if es != [] {
      StepKeepsInv(s, es[0]);
      RunKeepsInv(Next(s, es[0]), es[1..]);
    }
  }

  /** What at-most-once means for the client: no request is executed twice, and all
      answers to a request are the result of its one execution. */
  ghost predicate AtMostOnce(s: Sys) {
    && NoRepeats(s.news)
    && (forall r :: r in s.finished ==> r.xid in s.news)
    && (forall x, b :: Answer(x, b) in s.replies ==> Result(x, b) in s.finished)
    && (forall x, b, c :: Answer(x, b) in s.replies && Answer(x, c) in s.replies ==> b == c)
  }

  /** At-most-once over every run, time-outs included, whose deliveries are harmless. */
  lemma AtMostOnceIfHarmless(es: seq<Event>)
    requires IsRun(InitSys(), es) && HarmlessRun(InitSys(), es)
    ensures AtMostOnce(After(InitSys(), es))
  {
    InitInv();
    RunKeepsInv(InitSys(), es);
    InvMeansAtMostOnce(After(InitSys(), es));
  }

  lemma InvMeansAtMostOnce(s: Sys)
    requires WindowOk(s) && FinishedOk(s)
    ensures AtMostOnce(s)
  {
    forall x, b, c | Answer(x, b) in s.replies && Answer(x, c) in s.replies
      ensures b == c
    {
      var j :| 0 <= j < |s.finished| && s.finished[j] == Result(x, b);
      var k :| 0 <= k < |s.finished| && s.finished[k] == Result(x, c);
    }
  }
}
