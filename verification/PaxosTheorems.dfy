/** What the Paxos system guarantees over whole runs. */
module PaxosTheorems {
  import opened Views
  import opened Proposals
  import opened AcceptorModel
  import opened ProposerModel
  import opened PaxosSystem
  import opened PaxosSafety
  import opened PaxosSteps

  /** A state that some orderly run reaches. */
  ghost predicate Reachable(s: Sys) {
    exists s0, es :: Init(s0) && IsRun(s0, es) && OrderlyRun(s0, es) && After(s0, es) == s
  }

  lemma ReachableInv(s: Sys)
    requires Reachable(s)
    ensures Inv(s) && LogsOk(s)
  {
    var s0, es :| Init(s0) && IsRun(s0, es) && OrderlyRun(s0, es) && After(s0, es) == s;
    InitInv(s0);
    RunKeepsInv(s0, es);
  }

  /** Agreement: over every orderly run, nodes commit the same value for an
      instance, and no two values are chosen in one instance. */
  lemma PaxosAgreement(s: Sys)
    requires Reachable(s)
    ensures Agreement(s) && OneChosen(s)
  {
    ReachableInv(s);
    forall a, b, i: nat | a in s.acc && b in s.acc && i in s.acc[a].values && i in s.acc[b].values
      ensures s.acc[a].values[i] == s.acc[b].values[i]
    {
      CommittedAgree(s, a, b, i);
    }
    forall i: nat, v, w | Chosen(s, i, v) && Chosen(s, i, w)
      ensures v == w
    {
      var n :| ChosenAt(s, i, n, v);
      assert BallotAt(s, n);
      ChosenUnique(s, i, v, w);
    }
  }

  /** Once a majority voted for number `n`, every vote that any acceptor casts under
      a higher number of the instance is for the same value. */
  lemma LaterVotesAgree(s: Sys, i: nat, n: Prop, v: Text, b: Node, m: Prop, w: Text)
    requires Reachable(s)
    requires ChosenAt(s, i, n, v) && AcceptOk(b, i, m, w) in s.net && Ge(m, n)
    ensures w == v
  {
    ReachableInv(s);
    assert VoteOk(s, b, i, m, w);
    assert BallotAt(s, n);
    ListsAgree(s, i);
    ChosenPersists(s, i, n, v, m, w);
  }

  /** The assertions in the decide handler never fail, and whatever a node learns,
      from a decision or from a node that is ahead, is what was chosen. */
  lemma LearnedIsChosen(s: Sys, b: Node, i: nat, n: Prop, v: Text, r: PrepareRes)
    requires Reachable(s) && b in s.acc
    ensures DecideMsg(b, i, n, v) in s.net ==> DecideAsserts(s.acc[b], i, v) && Chosen(s, i, v)
    ensures PrepareReply(b, i, n, r) in s.net && r.oldinstance ==> Chosen(s, i, r.vA)
    ensures forall j :: j in s.acc[b].values && j != 1 ==> Chosen(s, j, s.acc[b].values[j])
  {
    ReachableInv(s);
    if DecideMsg(b, i, n, v) in s.net {
      DecideNeverFails(s, b, i, n, v);
    }
    if PrepareReply(b, i, n, r) in s.net && r.oldinstance {
      assert ReplyOk(s, b, i, n, r) && BallotAt(s, n);
      assert CommittedAt(s, s.acc[b], i);
    }
    forall j | j in s.acc[b].values && j != 1
      ensures Chosen(s, j, s.acc[b].values[j])
    {
      assert CommittedAt(s, s.acc[b], j);
    }
  }

  /** Only a value that some run was started for is ever chosen. */
  lemma ChosenWasStarted(s: Sys, i: nat, v: Text)
    requires Reachable(s) && Chosen(s, i, v)
    ensures Started(s, i, v)
  {
    ReachableInv(s);
    var n :| ChosenAt(s, i, n, v);
    ChosenIsProposed(s, i, n, v);
    assert ProposalOk(s, n, s.props[n]);
  }

  // -------------------------------------------------------------------- acceptors

  /** `b` is at or above `a`, where a number 0 means none. */
  predicate AtLeast(b: Prop, a: Prop) {
    a.n == 0 || Ge(b, a)
  }

  /** Acceptor discipline: a vote is never above the promise, and a granted accept
      has exactly the promised number of the open instance. */
  lemma VoteIsPromised(s: Sys, b: Node, i: nat, n: Prop, v: Text)
    requires Reachable(s) && b in s.acc
    ensures AtLeast(s.acc[b].nH, s.acc[b].nA)
    ensures AcceptMsg(b, i, n, v) in s.net && Orderly(s, DeliverAccept(b, i, n, v)) && Accept(s.acc[b], n, v).1 ==>
      n == s.acc[b].nH && i == s.acc[b].instanceH + 1
  {
    ReachableInv(s);
    assert AcceptorOk(s, s.acc[b]);
    if AcceptMsg(b, i, n, v) in s.net && Orderly(s, DeliverAccept(b, i, n, v)) && Ge(n, s.acc[b].nH) {
      GrantedAcceptIsPromised(s, b, i, n, v);
    }
  }

  /** A later state of the same acceptor: further on, or in the same instance with
      promise and vote at least as high. */
  predicate Onward(a: Acceptor, a': Acceptor) {
    || a'.instanceH > a.instanceH
    || (a'.instanceH == a.instanceH && AtLeast(a'.nH, a.nH) && AtLeast(a'.nA, a.nA))
  }

  lemma HandlersOnward(a: Acceptor, i: nat, n: Prop, v: Text)
    ensures Onward(a, Prepare(a, i, n).0) && Onward(a, Commit(a, i, v))
    ensures DecideAsserts(a, i, v) ==> Onward(a, Decide(a, i, v))
    ensures n == a.nH && AtLeast(a.nH, a.nA) ==> Onward(a, Accept(a, n, v).0)
    ensures Onward(a, a)
  {
    GeIsGtOrEqual(a.nH, a.nH);
    GeIsGtOrEqual(a.nA, a.nA);
    GeIsGtOrEqual(n, a.nH);
  }

  ghost predicate OnwardAt(s: Sys, t: Sys, b: Node) {
    b in s.acc && b in t.acc && Onward(s.acc[b], t.acc[b])
  }

  /** While an instance is open, promise and vote only grow, whatever happens. */
  lemma PromisesGrow(s: Sys, e: Event, b: Node)
    requires Reachable(s) && Enabled(s, e) && Orderly(s, e) && b in s.acc
    ensures OnwardAt(s, Next(s, e), b)
  {
    ReachableInv(s);
    if e.Start? || e.FinishPrepare? || e.FinishAccept? {
      ProposerOnward(s, e, b);
    } else if e.b == b {
      AcceptorOnward(s, e);
    } else {
      OtherOnward(s, e, b);
    }
  }

  lemma OtherOnward(s: Sys, e: Event, b: Node)
    requires b in s.acc && Enabled(s, e) && !(e.Start? || e.FinishPrepare? || e.FinishAccept?) && e.b != b
    ensures OnwardAt(s, Next(s, e), b)
  {
    HandlersOnward(s.acc[b], 0, s.acc[b].nH, "");
  }

  lemma ProposerOnward(s: Sys, e: Event, b: Node)
    requires b in s.acc && Enabled(s, e) && (e.Start? || e.FinishPrepare? || e.FinishAccept?)
    ensures OnwardAt(s, Next(s, e), b)
  {
    var a := s.acc[b];
    HandlersOnward(a, 0, a.nH, "");
    if e.FinishPrepare? {
      HandlersOnward(a, s.pro[e.p].phase.i, a.nH, Collect(s.pro[e.p].phase.nodes, e.outcomes).v);
    }
  }

  lemma AcceptorOnward(s: Sys, e: Event)
    requires Inv(s) && LogsOk(s) && Enabled(s, e) && Orderly(s, e)
    requires !(e.Start? || e.FinishPrepare? || e.FinishAccept?)
    ensures OnwardAt(s, Next(s, e), e.b)
  {
    match e
    case DeliverPrepare(b, i, n) => HandlersOnward(s.acc[b], i, n, "");
    case DeliverAccept(b, i, n, v) => AcceptGrows(s, b, i, n, v);
    case DeliverDecide(b, i, n, v) => DecideGrows(s, b, i, n, v);
    case Restart(b) => RestartGrows(s, b);
    case Dump(b) => HandlersOnward(s.acc[b], 0, s.acc[b].nH, "");
    case Rejoin(b, dumped) =>
      assert DumpOk(s, dumped);
      RejoinGrows(s, b, dumped);
  }

  lemma RestartGrows(s: Sys, b: Node)
    requires Inv(s) && Enabled(s, Restart(b))
    ensures Onward(s.acc[b], Next(s, Restart(b)).acc[b])
  {
    HandlersOnward(s.acc[b], 0, s.acc[b].nH, "");
    RestartKeepsInv(s, b);
  }

  lemma AcceptGrows(s: Sys, b: Node, i: nat, n: Prop, v: Text)
    requires Inv(s) && Enabled(s, DeliverAccept(b, i, n, v)) && Orderly(s, DeliverAccept(b, i, n, v))
    ensures Onward(s.acc[b], Accept(s.acc[b], n, v).0)
  {
    assert AcceptorOk(s, s.acc[b]);
    HandlersOnward(s.acc[b], i, n, v);
    if Ge(n, s.acc[b].nH) { GrantedAcceptIsPromised(s, b, i, n, v); }
  }

  lemma DecideGrows(s: Sys, b: Node, i: nat, n: Prop, v: Text)
    requires Inv(s) && Enabled(s, DeliverDecide(b, i, n, v))
    ensures DecideAsserts(s.acc[b], i, v) && Onward(s.acc[b], Decide(s.acc[b], i, v))
  {
    DecideNeverFails(s, b, i, n, v);
    HandlersOnward(s.acc[b], i, n, v);
  }

  lemma RejoinGrows(s: Sys, b: Node, y: Acceptor)
    requires Inv(s) && DumpOk(s, y) && Enabled(s, Rejoin(b, y)) && Orderly(s, Rejoin(b, y))
    ensures var a, a' := s.acc[b], Next(s, Rejoin(b, y)).acc[b];
      || a'.instanceH > a.instanceH
      || (a'.instanceH == a.instanceH && a.nH.n == 0 && a.nA.n == 0)
  {
    assert AcceptorOk(s, s.acc[b]) && AcceptorOk(s, y);
    RestoreIs(s.acc[b], y);
  }

  /** Exactly when a delivered request leaves the invariant intact: a prepare that
      would be granted must not be for an instance the acceptor has not reached, an
      accept that would be granted must be for the instance it has open. */
  lemma InvariantExact(s: Sys, e: Event)
    requires Inv(s) && Enabled(s, e) && (e.DeliverPrepare? || e.DeliverAccept?)
    ensures Inv(Next(s, e)) <==> Orderly(s, e)
  {
    if Orderly(s, e) {
      StepKeepsInv(s, e);
    } else if e.DeliverPrepare? {
      EarlyPrepareBreaks(s, e.b, e.i, e.n);
    } else {
      StaleAcceptBreaks(s, e.b, e.i, e.n, e.v);
    }
  }

  lemma EarlyPrepareBreaks(s: Sys, b: Node, i: nat, n: Prop)
    requires Enabled(s, DeliverPrepare(b, i, n))
    requires i > s.acc[b].instanceH + 1 && Gt(n, s.acc[b].nH)
    ensures !Inv(Next(s, DeliverPrepare(b, i, n)))
  {
    var t := Next(s, DeliverPrepare(b, i, n));
    var r := Prepare(s.acc[b], i, n).1;
    assert PrepareReply(b, i, n, r) in t.net;
    assert !ReplyOk(t, b, i, n, r);
    assert !RepliesOk(t);
  }

  lemma StaleAcceptBreaks(s: Sys, b: Node, i: nat, n: Prop, v: Text)
    requires Inv(s) && Enabled(s, DeliverAccept(b, i, n, v))
    requires i != s.acc[b].instanceH + 1 && Ge(n, s.acc[b].nH)
    ensures !Inv(Next(s, DeliverAccept(b, i, n, v)))
  {
    var t := Next(s, DeliverAccept(b, i, n, v));
    assert Proposed(s, i, n, v) && BallotAt(s, n);
    assert !AcceptorOk(t, t.acc[b]);
    assert !AcceptorsOk(t);
  }

  // ------------------------------------------------------------------- view history

  /** Consecutive committed views are non-empty and share a member. */
  lemma ViewsShare(s: Sys, b: Node, j: nat)
    requires Reachable(s) && TextStream.IsToken(s.first)
    requires b in s.acc && j + 1 in s.acc[b].values && j >= 1
    ensures j in s.acc[b].values
    ensures var old_, new_ := Members(s.acc[b].values[j]), Members(s.acc[b].values[j + 1]);
      old_ != [] && new_ != [] && Share(old_, new_)
  {
    ReachableInv(s);
    InvViewsShare(s, b, j);
  }

  lemma InvViewsShare(s: Sys, b: Node, j: nat)
    requires Inv(s) && TextStream.IsToken(s.first)
    requires b in s.acc && j + 1 in s.acc[b].values && j >= 1
    ensures j in s.acc[b].values
    ensures var old_, new_ := Members(s.acc[b].values[j]), Members(s.acc[b].values[j + 1]);
      old_ != [] && new_ != [] && Share(old_, new_)
  {
    var n := StartOf(s, b, j + 1);
    ViewNotEmpty(s, b, j);
    ChangeShares(s.acc[b].values[j], s.acc[b].values[j + 1], s.ballots[n]);
  }

  lemma ChangeShares(v: Text, w: Text, q: Ballot)
    requires q.nodes == Members(v) && q.nodes != [] && q.NewValue() == w
    requires Changed(q.nodes, q.change) != [] && (q.change.Add? ==> TextStream.IsToken(q.change.m))
    ensures Members(w) != [] && Share(Members(v), Members(w))
  {
    MembersProper(v);
    ChangedShares(q.nodes, q.change);
    MembersOfValue(Changed(q.nodes, q.change));
  }

  lemma StartedFor(s: Sys, b: Node, j: nat) returns (n: Prop)
    requires ValuesOk(s) && VotesOk(s) && ProposalsOk(s) && BallotsOk(s)
    requires b in s.acc && j in s.acc[b].values && j >= 2
    ensures n in s.ballots && s.ballots[n].i == j && s.ballots[n].NewValue() == s.acc[b].values[j]
    ensures BallotOk(s, n, s.ballots[n])
  {
    assert CommittedAt(s, s.acc[b], j);
    var m :| ChosenAt(s, j, m, s.acc[b].values[j]);
    ChosenIsProposed(s, j, m, s.acc[b].values[j]);
    assert ProposalOk(s, m, s.props[m]);
    n :| n in s.ballots && s.ballots[n].i == j && s.ballots[n].NewValue() == s.acc[b].values[j];
    assert BallotAt(s, n);
  }

  /** The run that a committed view was proposed in started from the view before it. */
  lemma StartOf(s: Sys, b: Node, j: nat) returns (n: Prop)
    requires Inv(s) && b in s.acc && j in s.acc[b].values && j >= 2
    ensures n in s.ballots && s.ballots[n].i == j && s.ballots[n].NewValue() == s.acc[b].values[j]
    ensures j - 1 in s.acc[b].values && s.ballots[n].nodes == Members(s.acc[b].values[j - 1])
    ensures Changed(s.ballots[n].nodes, s.ballots[n].change) != []
    ensures s.ballots[n].change.Add? ==>
      TextStream.IsToken(s.ballots[n].change.m) && s.ballots[n].change.m !in s.ballots[n].nodes
  {
    n := StartedFor(s, b, j);
    assert AcceptorOk(s, s.acc[b]);
    CommittedAgree(s, b, n.m, j - 1);
  }

  lemma ViewNotEmpty(s: Sys, b: Node, j: nat)
    requires Inv(s) && TextStream.IsToken(s.first) && b in s.acc && j in s.acc[b].values
    ensures Members(s.acc[b].values[j]) != []
  {
    assert AcceptorOk(s, s.acc[b]);
    assert CommittedAt(s, s.acc[b], j);
    if j == 1 {
      TextStream.ReadTokenOf(s.first, "");
      assert s.first + "" == s.first;
    } else {
      var n := StartOf(s, b, j);
      var q := s.ballots[n];
      MembersProper(s.acc[b].values[j - 1]);
      ChangedProper(q.nodes, q.change);
      MembersOfValue(Changed(q.nodes, q.change));
    }
  }

  lemma ChangedProper(view: seq<Node>, c: Change)
    requires ProperNames(view) && (c.Add? ==> TextStream.IsToken(c.m))
    ensures ProperNames(Changed(view, c))
  {
    if view != [] {
      ChangedShares(view, c);
    }
  }
}
