/** `client_invoke` and the step system: what the method computes is what the steps of a
    multicast do to the replica, however they interleave with those of the others. */
module RsmRefine {
  import opened Views
  import opened Rsm
  import opened RsmSystem
  import opened RsmSafety
  import opened RsmTheorems

  // ------------------------------------------------------------- steps of one multicast

  /** What happens to a multicasting replica: a view is committed while a call is under
      way, the call is answered, the loop goes on, the request is executed. */
  datatype Local = CommitL(v: nat, p: Node) | AnswerL(ok: bool) | ProceedL | ExecuteL

  predicate LocalOk(r: Replica, l: Local) {
    match l
    case CommitL(v, p) => Calling(r) && v > r.vidCommit
    case AnswerL(ok) => Calling(r) && r.job.answer.Waiting?
    case ProceedL => Calling(r) && !r.job.answer.Waiting?
    case ExecuteL => r.job.Job? && r.job.i >= |r.job.view|
  }

  function Do(r: Replica, l: Local): (q: Replica)
    requires LocalOk(r, l)
  {
    match l
    case CommitL(v, p) => Commit(r, v, p)
    case AnswerL(ok) => r.(job := r.job.(answer := if ok then Good else Refused))
    case ProceedL => Advance(r)
    case ExecuteL => Execute(r)
  }

  predicate IsLocal(r: Replica, ls: seq<Local>)
    decreases ls
  {
    ls == [] || (LocalOk(r, ls[0]) && IsLocal(Do(r, ls[0]), ls[1..]))
  }

  function LocalRun(r: Replica, ls: seq<Local>): (q: Replica)
    requires IsLocal(r, ls)
    decreases ls
  {
    if ls == [] then r else LocalRun(Do(r, ls[0]), ls[1..])
  }

  // ------------------------------------------------------------ steps make a multicast

  lemma {:induction false} CommitsAppend(r: Replica, cs: seq<(nat, Node)>, c: (nat, Node))
    ensures Commits(r, cs + [c]) == Commit(Commits(r, cs), c.0, c.1)
    decreases cs
  {
    if cs == [] {
      assert cs + [c] == [c] && [c][1..] == [];
    } else {
      assert (cs + [c])[0] == cs[0] && (cs + [c])[1..] == cs[1..] + [c];
      CommitsAppend(Commit(r, cs[0].0, cs[0].1), cs[1..], c);
    }
  }

  /** The replica in the middle of a call that started in state `r`: the views committed
      since, and the answer. */
  function MidCall(r: Replica, cs: seq<(nat, Node)>, a: Answer): (q: Replica)
    requires r.job.Job?
  {
    Commits(r, cs).(job := r.job.(answer := a))
  }

  lemma MidCommit(r: Replica, cs: seq<(nat, Node)>, a: Answer, v: nat, p: Node)
    requires r.job.Job?
    ensures Commit(MidCall(r, cs, a), v, p) == MidCall(r, cs + [(v, p)], a)
  {
    CommitsAppend(r, cs, (v, p));
  }

  function Pad(n: nat): (l: seq<During>)
    ensures |l| == n
  {
    seq(n, _ => During([], false))
  }

  lemma ProceedIsCall(r: Replica, cs: seq<(nat, Node)>, a: Answer, rest: seq<During>)
    requires Calling(r) && !a.Waiting? && |rest| >= |r.job.view|
    ensures Calling(MidCall(r, cs, a)) && MidCall(r, cs, a).job.answer == a
    ensures var t := Advance(MidCall(r, cs, a));
      RunJob(r, [During(cs, a.Good?)] + rest) == if t.job.NoJob? then (t, BUSY) else RunJob(t, rest)
  {
    var calls := [During(cs, a.Good?)] + rest;
    assert calls[0] == During(cs, a.Good?) && calls[1..] == rest;
    assert a == if a.Good? then Good else Refused;
  }

  /** From any point of a call on, the steps of a multicast that comes to an end make up
      what `RunJob` computes from the start of that call; it ends with the execution
      exactly if the client is answered with OK. */
  lemma {:induction false} StepsAreRunJob(r: Replica, cs: seq<(nat, Node)>, a: Answer, ls: seq<Local>)
    returns (calls: seq<During>)
    requires r.job.Job? && r.job.i <= |r.job.view| && r.job.answer.Waiting?
    requires Calling(r) || (cs == [] && a.Waiting?)
    requires IsLocal(MidCall(r, cs, a), ls) && LocalRun(MidCall(r, cs, a), ls).job.NoJob?
    ensures |calls| >= |r.job.view| && ls != []
    ensures RunJob(r, calls) == (LocalRun(MidCall(r, cs, a), ls), if ls[|ls| - 1].ExecuteL? then OK else BUSY)
    decreases ls
  {
    var q := MidCall(r, cs, a);
    var next, more := Do(q, ls[0]), ls[1..];
    match ls[0]
    case CommitL(v, p) =>
      MidCommit(r, cs, a, v, p);
      calls := StepsAreRunJob(r, cs + [(v, p)], a, more);
    case AnswerL(ok) =>
      calls := StepsAreRunJob(r, cs, if ok then Good else Refused, more);
    case ProceedL =>
      calls := ProceedSteps(r, cs, a, ls);
    case ExecuteL =>
      calls := Pad(|r.job.view|);
      assert q == r && more == [];
  }

  lemma {:induction false} ProceedSteps(r: Replica, cs: seq<(nat, Node)>, a: Answer, ls: seq<Local>)
    returns (calls: seq<During>)
    requires Calling(r) && r.job.answer.Waiting? && !a.Waiting? && ls != [] && ls[0].ProceedL?
    requires IsLocal(MidCall(r, cs, a), ls) && LocalRun(MidCall(r, cs, a), ls).job.NoJob?
    ensures |calls| >= |r.job.view|
    ensures RunJob(r, calls) == (LocalRun(MidCall(r, cs, a), ls), if ls[|ls| - 1].ExecuteL? then OK else BUSY)
    decreases ls, 0
  {
    var next, more := Advance(MidCall(r, cs, a)), ls[1..];
    var rest := Pad(|r.job.view|);
    if next.job.Job? {
      assert MidCall(next, [], Waiting) == next;
      rest := StepsAreRunJob(next, [], Waiting, more);
      assert ls[|ls| - 1] == more[|more| - 1];
    } else {
      assert more == [];
    }
    calls := [During(cs, a.Good?)] + rest;
    ProceedIsCall(r, cs, a, rest);
  }

  // ----------------------------------------------------------- the step system's events

  /** An event of a multicast of `b`; the mutex is held between the last call and the
      execution, so that views are committed only during calls. */
  ghost predicate IsJobEvent(s: Sys, e: Event, b: Node)
    requires b in s.node
  {
    && e.b == b && (e.CallArrives? || e.CallLost? || e.Proceed? || e.ExecuteIt? || e.CommitView?)
    && (e.CommitView? ==> Calling(s.node[b]))
  }

  ghost function LocalOf(s: Sys, e: Event): (l: Local)
    requires Enabled(s, e) && IsJobEvent(s, e, e.b)
  {
    var r := s.node[e.b];
    match e
    case CommitView(b, v) => CommitL(v, Pick(r.primary, s.views[v - 1], s.views[v]).value)
    case CallArrives(b) => var x := r.job.view[r.job.i]; AnswerL(Invoke(s.node[x], x, r.last, r.job.req).1)
    case CallLost(b) => AnswerL(false)
    case Proceed(b) => ProceedL
    case _ => ExecuteL
  }

  /** An event of the multicast does to the replica what its local step says. */
  lemma EventIsLocal(s: Sys, e: Event)
    requires Inv(s) && Enabled(s, e) && IsJobEvent(s, e, e.b) && s.node[e.b].job.Job?
    ensures var r := s.node[e.b];
      LocalOk(r, LocalOf(s, e)) && e.b in Next(s, e).node && Next(s, e).node[e.b] == Do(r, LocalOf(s, e))
  {
    if e.CallArrives? {
      var r := s.node[e.b];
      assert NodeAt(s, e.b) && HeadOk(s.first, s.views, r.upto);
      assert r.job.view[0] == e.b && r.job.view[r.job.i] != r.job.view[0];
    }
  }

  /** Nobody else touches a replica while it multicasts. */
  lemma OthersLeaveIt(s: Sys, e: Event, b: Node)
    requires Inv(s) && Enabled(s, e) && b in s.node && s.node[b].job.Job? && e.b != b
    ensures b in Next(s, e).node && Next(s, e).node[b] == s.node[b]
  {
    assert NodeAt(s, b);
  }

  /** All along the run `b` multicasts, and does nothing else; `ls` is what it does. */
  ghost predicate TakesOn(s: Sys, es: seq<Event>, b: Node, ls: seq<Local>)
    requires IsRun(s, es)
    decreases es
  {
    if es == [] then ls == []
    else
      && b in s.node && s.node[b].job.Job?
      && if es[0].b != b then TakesOn(Next(s, es[0]), es[1..], b, ls)
         else
           && IsJobEvent(s, es[0], b) && ls != [] && ls[0] == LocalOf(s, es[0])
           && TakesOn(Next(s, es[0]), es[1..], b, ls[1..])
  }

  predicate Executes(ls: seq<Local>) { ls != [] && ls[|ls| - 1].ExecuteL? }

  lemma {:induction false} RunIsLocal(s: Sys, es: seq<Event>, b: Node, ls: seq<Local>)
    requires Inv(s) && IsRun(s, es) && OrderlyRun(s, es) && b in s.node && TakesOn(s, es, b, ls)
    ensures b in After(s, es).node && IsLocal(s.node[b], ls) && LocalRun(s.node[b], ls) == After(s, es).node[b]
    ensures Executes(ls) ==>
      Ack(s.node[b].last.vid, s.node[b].last.seqno, After(s, es).node[b].hist) in After(s, es).acks
    decreases es
  {
    if es != [] {
      var e, t := es[0], Next(s, es[0]);
      StepKeepsInv(s, e);
      if e.b != b {
        OthersLeaveIt(s, e, b);
        RunIsLocal(t, es[1..], b, ls);
      } else {
        EventIsLocal(s, e);
        RunIsLocal(t, es[1..], b, ls[1..]);
        if Executes(ls) { LastOrLater(s, es, b, ls); }
      }
    }
  }

  /** The acknowledgement is the last event of a multicast, or still to come. */
  lemma LastOrLater(s: Sys, es: seq<Event>, b: Node, ls: seq<Local>)
    requires IsRun(s, es) && es != [] && TakesOn(s, es, b, ls) && es[0].b == b && Executes(ls)
    requires LocalOk(s.node[b], ls[0]) && b in Next(s, es[0]).node && Next(s, es[0]).node[b] == Do(s.node[b], ls[0])
    ensures if es[0].ExecuteIt? then es[1..] == [] && ls[1..] == [] else Executes(ls[1..])
    ensures Next(s, es[0]).node[b].last == s.node[b].last
  {
    if !es[0].ExecuteIt? {
      assert |ls| > 1;
      assert ls[1..][|ls| - 2] == ls[|ls| - 1];
    }
  }

  /** Over every orderly run, whatever the other replicas do meanwhile: from the request of
      a client to the end of its multicast, the steps of the replica make up what
      `client_invoke` computes for some course of its calls. The client is answered with OK
      exactly if the request was executed, and then the acknowledgement is recorded with
      the stamp that the request was given. */
  lemma StepsAreClientInvoke(s: Sys, b: Node, req: Req, es: seq<Event>, ls: seq<Local>) returns (calls: seq<During>)
    requires Reachable(s) && Enabled(s, StartInvoke(b, req))
    requires var t := Next(s, StartInvoke(b, req));
      && IsRun(t, es) && OrderlyRun(t, es) && TakesOn(t, es, b, ls)
      && b in After(t, es).node && After(t, es).node[b].job.NoJob?
    ensures var r, u := s.node[b], After(Next(s, StartInvoke(b, req)), es);
      var view := s.views[r.vidCommit];
      && |calls| >= |view|
      && RunJob(StartJob(r, req, view), calls) == (u.node[b], if Executes(ls) then OK else BUSY)
      && (Executes(ls) ==> Ack(r.myvs.vid, r.myvs.seqno, u.node[b].hist) in u.acks)
  {
    ReachableInv(s);
    var e := StartInvoke(b, req);
    var t := Next(s, e);
    StepKeepsInv(s, e);
    RunIsLocal(t, es, b, ls);
    var q := t.node[b];
    assert q == StartJob(s.node[b], req, s.views[s.node[b].vidCommit]);
    assert MidCall(q, [], Waiting) == q;
    calls := StepsAreRunJob(q, [], Waiting, ls);
  }
}
