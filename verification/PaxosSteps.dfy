/** Every orderly step of the Paxos system keeps its invariant. */
module PaxosSteps {
  import opened Views
  import opened Proposals
  import opened AcceptorModel
  import opened Quorum
  import opened ProposerModel
  import opened PaxosSystem
  import opened PaxosSafety

  /** History only grows. */
  ghost predicate Grows(s: Sys, t: Sys) {
    && s.first == t.first && s.acc.Keys == t.acc.Keys && s.net <= t.net
    && (forall n :: n in s.ballots ==> n in t.ballots && t.ballots[n] == s.ballots[n])
    && (forall n :: n in s.props ==> n in t.props && t.props[n] == s.props[n])
  }

  lemma ChosenGrows(s: Sys, t: Sys, i: nat, v: Text)
    requires Grows(s, t) && Chosen(s, i, v)
    ensures Chosen(t, i, v)
  {
    var n :| ChosenAt(s, i, n, v);
    ChosenAtGrows(s, t, i, n, v);
  }

  lemma ChosenAtGrows(s: Sys, t: Sys, i: nat, n: Prop, v: Text)
    requires Grows(s, t) && ChosenAt(s, i, n, v)
    ensures ChosenAt(t, i, n, v)
  {
    assert Voters(s, i, n, v) <= Voters(t, i, n, v);
    CountMonotone(s.ballots[n].nodes, Voters(s, i, n, v), Voters(t, i, n, v));
  }

  lemma StartedGrows(s: Sys, t: Sys, i: nat, v: Text)
    requires Grows(s, t) && Started(s, i, v)
    ensures Started(t, i, v)
  {
    var n :| n in s.ballots && s.ballots[n].i == i && s.ballots[n].NewValue() == v;
    assert n in t.ballots;
  }

  lemma ProposalGrows(s: Sys, t: Sys, n: Prop, q: Proposal)
    requires Grows(s, t) && ProposalOk(s, n, q)
    ensures ProposalOk(t, n, q)
  {
    StartedGrows(s, t, s.ballots[n].i, q.v);
    forall p | p in q.promises
      ensures PromiseSent(t, t.ballots[n].i, n, p)
    {
      assert PromiseSent(s, s.ballots[n].i, n, p);
    }
  }

  /** Proposals, requests and decisions already in the history stay in order. */
  lemma HistoryGrows(s: Sys, t: Sys)
    requires Grows(s, t) && t.props == s.props
    requires ProposalsOk(s) && RequestsOk(s) && DecidesOk(s)
    requires forall m :: m in t.net && m !in s.net ==> m.PrepareReply? || m.AcceptOk? || m.LogMsg?
    ensures ProposalsOk(t) && RequestsOk(t) && DecidesOk(t)
  {
    forall n | n in t.props
      ensures ProposalOk(t, n, t.props[n])
    {
      ProposalGrows(s, t, n, s.props[n]);
    }
    forall x, i, n, v | DecideMsg(x, i, n, v) in t.net
      ensures AcceptOk(x, i, n, v) in t.net && ChosenAt(t, i, n, v)
    {
      assert DecideMsg(x, i, n, v) in s.net;
      ChosenAtGrows(s, t, i, n, v);
    }
  }

  lemma CommittedGrows(s: Sys, t: Sys, a: Acceptor)
    requires Grows(s, t) && forall j :: CommittedAt(s, a, j)
    ensures forall j :: CommittedAt(t, a, j)
  {
    forall j
      ensures CommittedAt(t, a, j)
    {
      assert CommittedAt(s, a, j);
      if j in a.values && j != 1 { ChosenGrows(s, t, j, a.values[j]); }
    }
  }

  lemma ValuesGrow(s: Sys, t: Sys)
    requires Grows(s, t) && ValuesOk(s)
    requires forall b :: b in s.acc ==> t.acc[b].values == s.acc[b].values
    ensures ValuesOk(t)
  {
    forall b, j | b in t.acc
      ensures CommittedAt(t, t.acc[b], j)
    {
      forall k ensures CommittedAt(s, s.acc[b], k) { }
      CommittedGrows(s, t, s.acc[b]);
      assert CommittedAt(t, s.acc[b], j);
    }
  }

  // -------------------------------------------- steps that change one acceptor only

  /** An acceptor state that may take the place of `s.acc[b]`: nothing committed is
      lost, and no promise or vote of the open instance is forgotten. */
  ghost predicate MayReplace(s: Sys, b: Node, a: Acceptor)
    requires b in s.acc
  {
    && a.me == b && Durable(a) && AcceptorOk(s, a)
    && a.instanceH >= s.acc[b].instanceH
    && (forall j :: j in s.acc[b].values ==> j in a.values && a.values[j] == s.acc[b].values[j])
    && (forall j :: CommittedAt(s, a, j))
    && (forall i, n, r :: PrepareReply(b, i, n, r) in s.net && r.accept && a.instanceH + 1 == i ==> Ge(a.nH, n))
    && (forall i, n, v :: AcceptOk(b, i, n, v) in s.net && a.instanceH + 1 == i ==> a.nA.n > 0 && Ge(a.nA, n))
  }

  lemma ReplaceBallots(s: Sys, b: Node, a: Acceptor)
    requires BallotsOk(s) && b in s.acc && MayReplace(s, b, a)
    ensures BallotsOk(s.(acc := s.acc[b := a]))
  {
    var t := s.(acc := s.acc[b := a]);
    forall n
      ensures BallotAt(t, n)
    {
      assert BallotAt(s, n);
    }
  }

  lemma ReplaceMessages(s: Sys, b: Node, a: Acceptor)
    requires RepliesOk(s) && VotesOk(s) && b in s.acc && MayReplace(s, b, a)
    ensures RepliesOk(s.(acc := s.acc[b := a])) && VotesOk(s.(acc := s.acc[b := a]))
  {
    var t := s.(acc := s.acc[b := a]);
    forall x, i, n, v | AcceptOk(x, i, n, v) in t.net
      ensures VoteOk(t, x, i, n, v)
    {
      assert VoteOk(s, x, i, n, v);
    }
    forall x, i, n, r | PrepareReply(x, i, n, r) in t.net
      ensures ReplyOk(t, x, i, n, r)
    {
      assert ReplyOk(s, x, i, n, r);
      if r.accept { assert PromiseOk(s, x, i, n, r); }
    }
  }

  lemma ReplaceAcceptors(s: Sys, b: Node, a: Acceptor)
    requires NodesOk(s) && AcceptorsOk(s) && b in s.acc && MayReplace(s, b, a)
    ensures var t := s.(acc := s.acc[b := a]); NodesOk(t) && AcceptorsOk(t)
  {
    var t := s.(acc := s.acc[b := a]);
    assert t.acc.Keys == s.acc.Keys;
    forall x | x in t.acc
      ensures AcceptorOk(t, t.acc[x])
    {
      assert AcceptorOk(s, t.acc[x]);
    }
  }

  lemma ReplaceValues(s: Sys, b: Node, a: Acceptor)
    requires ValuesOk(s) && b in s.acc && forall j :: CommittedAt(s, a, j)
    ensures ValuesOk(s.(acc := s.acc[b := a]))
  {
    var t := s.(acc := s.acc[b := a]);
    assert Grows(s, t) by { assert t.acc.Keys == s.acc.Keys; }
    forall x, j | x in t.acc
      ensures CommittedAt(t, t.acc[x], j)
    {
      forall k ensures CommittedAt(s, t.acc[x], k) { }
      CommittedGrows(s, t, t.acc[x]);
    }
  }

  lemma ReplaceKeepsInv(s: Sys, b: Node, a: Acceptor)
    requires Inv(s) && b in s.acc && MayReplace(s, b, a)
    ensures Inv(s.(acc := s.acc[b := a]))
  {
    var t := s.(acc := s.acc[b := a]);
    ReplaceBallots(s, b, a);
    ReplaceMessages(s, b, a);
    ReplaceAcceptors(s, b, a);
    ReplaceValues(s, b, a);
    assert Grows(s, t);
    HistoryGrows(s, t);
    forall p | p in t.pro
      ensures PhaseOk(t, t.pro[p])
    {
      assert PhaseOk(s, s.pro[p]);
    }
  }

  /** Committing a chosen value of the next instance. */
  lemma CommitMayReplace(s: Sys, b: Node, i: nat, v: Text)
    requires Inv(s) && b in s.acc
    requires 2 <= i <= s.acc[b].instanceH + 1 && Chosen(s, i, v)
    ensures MayReplace(s, b, Commit(s.acc[b], i, v))
  {
    var a := Commit(s.acc[b], i, v);
    assert Durable(s.acc[b]);
    HandlersAreDurable(s.acc[b], i, s.acc[b].nH, v);
    assert AcceptorOk(s, s.acc[b]);
    assert AcceptorOk(s, a);
    forall j
      ensures CommittedAt(s, a, j)
    {
      assert CommittedAt(s, s.acc[b], j);
    }
    forall j, n, r | PrepareReply(b, j, n, r) in s.net && r.accept && a.instanceH + 1 == j
      ensures Ge(a.nH, n)
    {
      assert ReplyOk(s, b, j, n, r) && PromiseOk(s, b, j, n, r);
    }
    forall j, n, w | AcceptOk(b, j, n, w) in s.net && a.instanceH + 1 == j
      ensures a.nA.n > 0 && Ge(a.nA, n)
    {
      assert VoteOk(s, b, j, n, w);
    }
  }

  lemma CommitKeepsInv(s: Sys, b: Node, i: nat, v: Text)
    requires Inv(s) && b in s.acc
    requires 2 <= i <= s.acc[b].instanceH + 1 && Chosen(s, i, v)
    ensures Inv(s.(acc := s.acc[b := Commit(s.acc[b], i, v)]))
  {
    CommitMayReplace(s, b, i, v);
    ReplaceKeepsInv(s, b, Commit(s.acc[b], i, v));
  }

  // ---------------------------------------------------- restart, rejoin, decide

  /** A state that differs only in the name of a proposal numbered 0. */
  lemma SameMayReplace(s: Sys, b: Node, a: Acceptor)
    requires Inv(s) && b in s.acc && Same(a, s.acc[b]) && Durable(a)
    ensures MayReplace(s, b, a)
  {
    var o := s.acc[b];
    assert AcceptorOk(s, o);
    forall j
      ensures CommittedAt(s, a, j)
    {
      assert CommittedAt(s, o, j);
    }
    forall i, n, r | PrepareReply(b, i, n, r) in s.net && r.accept && a.instanceH + 1 == i
      ensures Ge(a.nH, n)
    {
      assert ReplyOk(s, b, i, n, r) && PromiseOk(s, b, i, n, r) && BallotAt(s, n);
    }
    forall i, n, v | AcceptOk(b, i, n, v) in s.net && a.instanceH + 1 == i
      ensures a.nA.n > 0 && Ge(a.nA, n)
    {
      assert VoteOk(s, b, i, n, v);
    }
  }

  /** A node that restarts from its own log is the node it was. */
  lemma RestartKeepsInv(s: Sys, b: Node)
    requires Inv(s) && b in s.acc
    ensures Same(Boot(b, b == s.first, s.first, s.acc[b].log), s.acc[b])
    ensures Inv(s.(acc := s.acc[b := Boot(b, b == s.first, s.first, s.acc[b].log)]))
  {
    var a := Boot(b, b == s.first, s.first, s.acc[b].log);
    assert Durable(s.acc[b]);
    SameMayReplace(s, b, a);
    ReplaceKeepsInv(s, b, a);
  }

  /** What a node becomes by reading another node's log into its own fields. */
  lemma RestoreIs(x: Acceptor, y: Acceptor)
    requires Durable(y) && y.instanceH >= 1 && x.instanceH <= y.instanceH
    requires forall j :: j in x.values ==> 1 <= j <= x.instanceH
    requires forall j :: j in y.values <==> 1 <= j <= y.instanceH
    ensures Same(Restore(x, y.log), y.(me := x.me)) && Durable(Restore(x, y.log))
  {
    ReplayOver(x, y.log);
    ReplayOver(Initial(x.me), y.log);
    ReplayMe(Initial(x.me), Initial(y.me), y.log);
    var r := Replay(x, y.log);
    assert r.values == y.values;
  }

  /** The node's own name only shows in proposals numbered 0. */
  lemma {:induction false} ReplayMe(x: Acceptor, y: Acceptor, log: seq<Record>)
    requires Same(x.(me := y.me), y)
    ensures Same(Replay(x, log).(me := y.me), Replay(y, log))
  {
    if log != [] { ReplayMe(x, y, log[..|log| - 1]); }
  }

  lemma RejoinCommitted(s: Sys, b: Node, y: Acceptor, a: Acceptor)
    requires Inv(s) && b in s.acc && s.acc[b].instanceH <= y.instanceH && DumpOk(s, y) && a.values == y.values
    ensures forall j :: CommittedAt(s, a, j)
    ensures forall j :: j in s.acc[b].values ==> j in a.values && a.values[j] == s.acc[b].values[j]
  {
    forall j
      ensures CommittedAt(s, a, j)
    {
      assert CommittedAt(s, y, j);
    }
    forall j | j in s.acc[b].values
      ensures j in a.values && a.values[j] == s.acc[b].values[j]
    {
      assert AcceptorOk(s, s.acc[b]) && CommittedAt(s, s.acc[b], j) && CommittedAt(s, y, j);
      if j > 1 { ChosenUnique(s, j, s.acc[b].values[j], y.values[j]); }
    }
  }

  lemma RejoinMayReplace(s: Sys, b: Node, y: Acceptor, a: Acceptor)
    requires Inv(s) && DumpOk(s, y) && Enabled(s, Rejoin(b, y)) && Orderly(s, Rejoin(b, y))
    requires Same(a, y.(me := b)) && Durable(a)
    ensures MayReplace(s, b, a)
  {
    RejoinCommitted(s, b, y, a);
    assert AcceptorOk(s, a);
    RejoinHasNoVotes(s, b, y);
  }

  /** Under the rejoin rule the node has neither promised nor voted in the instance
      that the received log leaves open. */
  lemma RejoinHasNoVotes(s: Sys, b: Node, y: Acceptor)
    requires Inv(s) && Enabled(s, Rejoin(b, y)) && Orderly(s, Rejoin(b, y))
    ensures forall i: nat, n, r :: PrepareReply(b, i, n, r) in s.net && r.accept ==> i <= y.instanceH
    ensures forall i: nat, n, v :: AcceptOk(b, i, n, v) in s.net ==> i <= y.instanceH
  {
    forall i: nat, n, r | PrepareReply(b, i, n, r) in s.net && r.accept
      ensures i <= y.instanceH
    {
      assert ReplyOk(s, b, i, n, r) && BallotAt(s, n);
    }
    assert AcceptorOk(s, s.acc[b]);
    forall i: nat, n, v | AcceptOk(b, i, n, v) in s.net
      ensures i <= y.instanceH
    {
      assert VoteOk(s, b, i, n, v);
    }
  }

  lemma RejoinKeepsInv(s: Sys, b: Node, y: Acceptor)
    requires Inv(s) && DumpOk(s, y) && Enabled(s, Rejoin(b, y)) && Orderly(s, Rejoin(b, y))
    ensures Inv(Next(s, Rejoin(b, y)))
  {
    assert AcceptorOk(s, s.acc[b]) && AcceptorOk(s, y);
    RestoreIs(s.acc[b], y);
    var a := Restore(s.acc[b], y.log);
    RejoinMayReplace(s, b, y, a);
    ReplaceKeepsInv(s, b, a);
  }

  /** The assertions of the decide handler never fail. */
  lemma DecideNeverFails(s: Sys, b: Node, i: nat, n: Prop, v: Text)
    requires Inv(s) && b in s.acc && DecideMsg(b, i, n, v) in s.net
    ensures i >= 2 && DecideAsserts(s.acc[b], i, v) && Chosen(s, i, v)
  {
    assert AcceptOk(b, i, n, v) in s.net && ChosenAt(s, i, n, v);
    assert VoteOk(s, b, i, n, v) && BallotAt(s, n);
    var a := s.acc[b];
    assert AcceptorOk(s, a);
    if i == a.instanceH + 1 {
      ListsAgree(s, i);
      ChosenPersists(s, i, n, v, a.nA, a.vA);
    }
  }

  lemma DecideKeepsInv(s: Sys, b: Node, i: nat, n: Prop, v: Text)
    requires Inv(s) && Enabled(s, DeliverDecide(b, i, n, v))
    ensures Inv(Next(s, DeliverDecide(b, i, n, v)))
  {
    DecideNeverFails(s, b, i, n, v);
    if i == s.acc[b].instanceH + 1 {
      CommitKeepsInv(s, b, i, v);
    } else {
      assert s.(acc := s.acc[b := s.acc[b]]) == s by { assert s.acc[b := s.acc[b]] == s.acc; }
    }
  }

  // ------------------------------------------------------------ prepare and accept

  /** A reply stays good while its sender's promise does not fall and every new
      vote of the sender is at or above the promise. */
  lemma ReplyKept(s: Sys, t: Sys, b: Node, i: nat, n: Prop, r: PrepareRes)
    requires Grows(s, t) && ReplyOk(s, b, i, n, r)
    requires t.acc[b].instanceH == s.acc[b].instanceH && t.acc[b].values == s.acc[b].values
    requires Ge(t.acc[b].nH, s.acc[b].nH)
    requires r.accept ==> forall m, v :: AcceptOk(b, i, m, v) in t.net && AcceptOk(b, i, m, v) !in s.net ==> Ge(m, n)
    ensures ReplyOk(t, b, i, n, r)
  {
    if r.accept {
      GtTrans(t.acc[b].nH, s.acc[b].nH, n);
      forall m, v | AcceptOk(b, i, m, v) in t.net && Gt(n, m)
        ensures Ge(r.nA, m)
      {
        GeIsGtOrEqual(m, n);
      }
    }
  }

  lemma VoteKept(s: Sys, t: Sys, b: Node, i: nat, n: Prop, v: Text)
    requires Grows(s, t) && VoteOk(s, b, i, n, v)
    requires t.acc[b].instanceH == s.acc[b].instanceH
    requires t.acc[b].nA == s.acc[b].nA || (t.acc[b].nA.n > 0 && Ge(t.acc[b].nA, s.acc[b].nA))
    ensures VoteOk(t, b, i, n, v)
  {
    GtTrans(t.acc[b].nA, s.acc[b].nA, n);
  }

  /** The reply to a prepare that arrives in order. */
  lemma NewReplyOk(s: Sys, t: Sys, b: Node, i: nat, n: Prop)
    requires Inv(s) && Enabled(s, DeliverPrepare(b, i, n)) && Orderly(s, DeliverPrepare(b, i, n))
    requires t == Next(s, DeliverPrepare(b, i, n)) && Grows(s, t)
    ensures ReplyOk(t, b, i, n, Prepare(s.acc[b], i, n).1)
  {
    var a, r := s.acc[b], Prepare(s.acc[b], i, n).1;
    assert AcceptorOk(s, a) && BallotAt(s, n);
    if r.accept {
      GeIsGtOrEqual(n, n);
      GtTrans(n, a.nH, a.nA);
      forall k, v | AcceptOk(b, i, k, v) in t.net
        ensures Ge(r.nA, k)
      {
        assert AcceptOk(b, i, k, v) in s.net && VoteOk(s, b, i, k, v);
      }
    }
  }

  lemma PrepareKeepsReplies(s: Sys, b: Node, i: nat, n: Prop)
    requires Inv(s) && Enabled(s, DeliverPrepare(b, i, n)) && Orderly(s, DeliverPrepare(b, i, n))
    ensures var t := Next(s, DeliverPrepare(b, i, n)); RepliesOk(t) && VotesOk(t)
  {
    var t := Next(s, DeliverPrepare(b, i, n));
    assert Grows(s, t) by { assert t.acc.Keys == s.acc.Keys; }
    NewReplyOk(s, t, b, i, n);
    forall x, j, m, r | PrepareReply(x, j, m, r) in t.net
      ensures ReplyOk(t, x, j, m, r)
    {
      if PrepareReply(x, j, m, r) in s.net {
        assert ReplyOk(s, x, j, m, r);
        GeIsGtOrEqual(t.acc[x].nH, s.acc[x].nH);
        ReplyKept(s, t, x, j, m, r);
      }
    }
    forall x, j, m, v | AcceptOk(x, j, m, v) in t.net
      ensures VoteOk(t, x, j, m, v)
    {
      assert VoteOk(s, x, j, m, v);
      VoteKept(s, t, x, j, m, v);
    }
  }

  lemma PrepareIsVoteStep(s: Sys, t: Sys, b: Node, i: nat, n: Prop)
    requires NodesOk(s) && Enabled(s, DeliverPrepare(b, i, n)) && t == Next(s, DeliverPrepare(b, i, n))
    requires Grows(s, t)
    ensures VoteStep(s, t, b, n)
  {
    assert Durable(s.acc[b]);
    HandlersAreDurable(s.acc[b], i, n, "");
  }

  lemma PrepareKeepsInv(s: Sys, b: Node, i: nat, n: Prop)
    requires Inv(s) && Enabled(s, DeliverPrepare(b, i, n)) && Orderly(s, DeliverPrepare(b, i, n))
    ensures Inv(Next(s, DeliverPrepare(b, i, n)))
  {
    var t := Next(s, DeliverPrepare(b, i, n));
    PrepareKeepsReplies(s, b, i, n);
    assert t.acc.Keys == s.acc.Keys;
    assert Grows(s, t);
    HistoryGrows(s, t);
    ValuesGrow(s, t);
    PrepareIsVoteStep(s, t, b, i, n);
    VoteStepRest(s, t, b, n);
    VoteStepAcceptors(s, t, b, n);
  }

  /** One acceptor promised or voted: the others, and what proposers know, are the same. */
  ghost predicate VoteStep(s: Sys, t: Sys, b: Node, n: Prop) {
    && Grows(s, t) && b in s.acc
    && t.pro == s.pro && t.ballots == s.ballots && t.props == s.props
    && (forall x :: x in s.acc && x != b ==> t.acc[x] == s.acc[x])
    && t.acc[b].me == b && Durable(t.acc[b]) && t.acc[b].instanceH == s.acc[b].instanceH
    && t.acc[b].values == s.acc[b].values
    && var a, a' := s.acc[b], t.acc[b];
       || (a'.(log := a.log) == a.(nH := n) && Gt(n, a.nH))
       || a'.(log := a.log) == a
       || (a'.nA == n == a.nH == a'.nH && n.n > 0 && Proposed(s, a.instanceH + 1, n, a'.vA))
  }

  lemma VoteStepAcceptors(s: Sys, t: Sys, b: Node, n: Prop)
    requires AcceptorsOk(s) && VoteStep(s, t, b, n)
    ensures AcceptorsOk(t)
  {
    forall x | x in t.acc
      ensures AcceptorOk(t, t.acc[x])
    {
      assert AcceptorOk(s, s.acc[x]);
      GeIsGtOrEqual(n, s.acc[b].nH);
      GeIsGtOrEqual(n, n);
      GtTrans(n, s.acc[b].nH, s.acc[b].nA);
    }
  }

  /** The parts of the invariant that a promise or a vote of one acceptor leaves alone. */
  lemma VoteStepRest(s: Sys, t: Sys, b: Node, n: Prop)
    requires NodesOk(s) && BallotsOk(s) && PhasesOk(s) && VoteStep(s, t, b, n)
    ensures NodesOk(t) && BallotsOk(t) && PhasesOk(t)
  {
    forall m
      ensures BallotAt(t, m)
    {
      assert BallotAt(s, m);
    }
    forall p | p in t.pro
      ensures PhaseOk(t, t.pro[p])
    {
      assert PhaseOk(s, s.pro[p]);
    }
    forall x | x in t.acc
      ensures Durable(t.acc[x])
    {
      assert Durable(s.acc[x]);
    }
  }

  /** An acceptor that grants an accept in its open instance has promised exactly
      that number, although the handler only tests `>=`. */
  lemma GrantedAcceptIsPromised(s: Sys, b: Node, i: nat, n: Prop, v: Text)
    requires Inv(s) && Enabled(s, DeliverAccept(b, i, n, v)) && Orderly(s, DeliverAccept(b, i, n, v))
    requires Ge(n, s.acc[b].nH)
    ensures n == s.acc[b].nH && i == s.acc[b].instanceH + 1 && n.n >= 1 && Proposed(s, i, n, v)
  {
    assert Proposed(s, i, n, v) && b in Promisers(s.props[n].promises);
    assert ProposalOk(s, n, s.props[n]) && BallotAt(s, n);
    var ps := s.props[n].promises;
    var k :| 0 <= k < |ps| && ps[k].from == b;
    assert ps[k] in ps && PromiseSent(s, i, n, ps[k]);
    var r := PrepareRes(false, true, ps[k].nA, ps[k].vA);
    assert ReplyOk(s, b, i, n, r) && PromiseOk(s, b, i, n, r);
    GeIsGtOrEqual(n, s.acc[b].nH);
    GeIsGtOrEqual(s.acc[b].nH, n);
  }

  lemma AcceptKeepsReplies(s: Sys, t: Sys, b: Node, i: nat, n: Prop, v: Text)
    requires RepliesOk(s) && Grows(s, t) && b in s.acc && t.acc == s.acc[b := Accept(s.acc[b], n, v).0]
    requires n == s.acc[b].nH && i == s.acc[b].instanceH + 1
    requires t.net == s.net + {AcceptOk(b, i, n, v)}
    ensures RepliesOk(t)
  {
    forall x, j, m, r | PrepareReply(x, j, m, r) in t.net
      ensures ReplyOk(t, x, j, m, r)
    {
      assert ReplyOk(s, x, j, m, r);
      GeIsGtOrEqual(s.acc[x].nH, s.acc[x].nH);
      ReplyKept(s, t, x, j, m, r);
    }
  }

  lemma AcceptKeepsVotes(s: Sys, t: Sys, b: Node, i: nat, n: Prop, v: Text)
    requires VotesOk(s) && Grows(s, t) && b in s.acc && t.acc == s.acc[b := Accept(s.acc[b], n, v).0]
    requires n == s.acc[b].nH && i == s.acc[b].instanceH + 1 && n.n >= 1 && Proposed(s, i, n, v)
    requires AcceptorOk(s, s.acc[b])
    requires t.net == s.net + {AcceptOk(b, i, n, v)}
    ensures VotesOk(t)
  {
    GeIsGtOrEqual(n, n);
    forall x, j, m, w | AcceptOk(x, j, m, w) in t.net
      ensures VoteOk(t, x, j, m, w)
    {
      if AcceptOk(x, j, m, w) in s.net {
        assert VoteOk(s, x, j, m, w);
        VoteKept(s, t, x, j, m, w);
      }
    }
  }

  /** The state after a granted accept. */
  ghost function Granted(s: Sys, b: Node, i: nat, n: Prop, v: Text): (t: Sys)
    requires b in s.acc
  {
    s.(acc := s.acc[b := Accept(s.acc[b], n, v).0], net := s.net + {AcceptOk(b, i, n, v)})
  }

  ghost predicate MayGrant(s: Sys, b: Node, i: nat, n: Prop, v: Text) {
    && b in s.acc && n == s.acc[b].nH && Ge(n, n) && n.n >= 1
    && i == s.acc[b].instanceH + 1 && Proposed(s, i, n, v)
  }

  lemma GrantedGrows(s: Sys, b: Node, i: nat, n: Prop, v: Text)
    requires MayGrant(s, b, i, n, v)
    ensures Grows(s, Granted(s, b, i, n, v))
  {
    assert Granted(s, b, i, n, v).acc.Keys == s.acc.Keys;
  }

  lemma GrantedMessages(s: Sys, b: Node, i: nat, n: Prop, v: Text)
    requires Inv(s) && MayGrant(s, b, i, n, v)
    ensures RepliesOk(Granted(s, b, i, n, v)) && VotesOk(Granted(s, b, i, n, v))
  {
    GrantedGrows(s, b, i, n, v);
    AcceptKeepsVotes(s, Granted(s, b, i, n, v), b, i, n, v);
    AcceptKeepsReplies(s, Granted(s, b, i, n, v), b, i, n, v);
  }

  lemma GrantedHistory(s: Sys, b: Node, i: nat, n: Prop, v: Text)
    requires Inv(s) && MayGrant(s, b, i, n, v)
    ensures var t := Granted(s, b, i, n, v); ProposalsOk(t) && RequestsOk(t) && DecidesOk(t) && ValuesOk(t)
  {
    GrantedGrows(s, b, i, n, v);
    HistoryGrows(s, Granted(s, b, i, n, v));
    ValuesGrow(s, Granted(s, b, i, n, v));
  }

  lemma GrantedRest(s: Sys, b: Node, i: nat, n: Prop, v: Text)
    requires Inv(s) && MayGrant(s, b, i, n, v)
    ensures var t := Granted(s, b, i, n, v); NodesOk(t) && AcceptorsOk(t) && BallotsOk(t) && PhasesOk(t)
  {
    GrantedGrows(s, b, i, n, v);
    HandlersAreDurable(s.acc[b], i, n, v);
    VoteStepRest(s, Granted(s, b, i, n, v), b, n);
    VoteStepAcceptors(s, Granted(s, b, i, n, v), b, n);
  }

  lemma GrantedKeepsInv(s: Sys, b: Node, i: nat, n: Prop, v: Text)
    requires Inv(s) && MayGrant(s, b, i, n, v)
    ensures Inv(Granted(s, b, i, n, v))
  {
    GrantedMessages(s, b, i, n, v);
    GrantedHistory(s, b, i, n, v);
    GrantedRest(s, b, i, n, v);
  }

  /** A delivered accept either leads to the granted state or changes nothing. */
  lemma AcceptLeadsTo(s: Sys, b: Node, i: nat, n: Prop, v: Text)
    requires Enabled(s, DeliverAccept(b, i, n, v))
    ensures Next(s, DeliverAccept(b, i, n, v)) == if Ge(n, s.acc[b].nH) then Granted(s, b, i, n, v) else s
  {
    assert s.acc[b := s.acc[b]] == s.acc && s.net + {} == s.net;
  }

  lemma AcceptKeepsInv(s: Sys, b: Node, i: nat, n: Prop, v: Text)
    requires Inv(s) && Enabled(s, DeliverAccept(b, i, n, v)) && Orderly(s, DeliverAccept(b, i, n, v))
    ensures Inv(Next(s, DeliverAccept(b, i, n, v)))
  {
    AcceptLeadsTo(s, b, i, n, v);
    if Ge(n, s.acc[b].nH) {
      GrantedAcceptIsPromised(s, b, i, n, v);
      GrantedKeepsInv(s, b, i, n, v);
    }
  }

  // -------------------------------------------------------------------- proposers

  lemma StartGrows(s: Sys, p: Node, i: nat, change: Change)
    requires Inv(s) && Enabled(s, Start(p, i, change))
    ensures Grows(s, Next(s, Start(p, i, change)))
    ensures NextNumber(s.pro[p].myN, s.acc[p].nH) !in s.ballots
  {
    var n := NextNumber(s.pro[p].myN, s.acc[p].nH);
    assert BallotAt(s, n);
    assert n !in s.ballots;
    assert forall m :: m in s.props ==> ProposalOk(s, m, s.props[m]);
  }

  lemma StartBallots(s: Sys, p: Node, i: nat, change: Change)
    requires Inv(s) && Enabled(s, Start(p, i, change)) && Orderly(s, Start(p, i, change))
    ensures BallotsOk(Next(s, Start(p, i, change)))
  {
    var t := Next(s, Start(p, i, change));
    assert AcceptorOk(s, s.acc[p]);
    forall m
      ensures BallotAt(t, m)
    {
      assert BallotAt(s, m);
    }
  }

  lemma StartPhases(s: Sys, p: Node, i: nat, change: Change)
    requires Inv(s) && Enabled(s, Start(p, i, change))
    ensures PhasesOk(Next(s, Start(p, i, change)))
  {
    var t := Next(s, Start(p, i, change));
    StartGrows(s, p, i, change);
    var n := NextNumber(s.pro[p].myN, s.acc[p].nH);
    assert n in s.props ==> ProposalOk(s, n, s.props[n]);
    forall q | q in t.pro
      ensures PhaseOk(t, t.pro[q])
    {
      assert PhaseOk(s, s.pro[q]);
    }
  }

  lemma StartMessages(s: Sys, p: Node, i: nat, change: Change)
    requires Inv(s) && Enabled(s, Start(p, i, change))
    ensures var t := Next(s, Start(p, i, change)); RequestsOk(t) && RepliesOk(t) && VotesOk(t)
  {
    var t := Next(s, Start(p, i, change));
    StartGrows(s, p, i, change);
    forall x, j, m, r | PrepareReply(x, j, m, r) in t.net
      ensures ReplyOk(t, x, j, m, r)
    {
      assert ReplyOk(s, x, j, m, r);
      GeIsGtOrEqual(s.acc[x].nH, s.acc[x].nH);
      ReplyKept(s, t, x, j, m, r);
    }
    forall x, j, m, w | AcceptOk(x, j, m, w) in t.net
      ensures VoteOk(t, x, j, m, w)
    {
      assert VoteOk(s, x, j, m, w);
      VoteKept(s, t, x, j, m, w);
    }
  }

  lemma StartRest(s: Sys, p: Node, i: nat, change: Change)
    requires Inv(s) && Enabled(s, Start(p, i, change))
    ensures var t := Next(s, Start(p, i, change));
      NodesOk(t) && AcceptorsOk(t) && ProposalsOk(t) && DecidesOk(t) && ValuesOk(t)
  {
    var t := Next(s, Start(p, i, change));
    StartGrows(s, p, i, change);
    ValuesGrow(s, t);
    forall m | m in t.props
      ensures ProposalOk(t, m, t.props[m])
    {
      ProposalGrows(s, t, m, s.props[m]);
    }
    forall x, j, m, v | DecideMsg(x, j, m, v) in t.net
      ensures AcceptOk(x, j, m, v) in t.net && ChosenAt(t, j, m, v)
    {
      ChosenAtGrows(s, t, j, m, v);
    }
    forall x | x in t.acc
      ensures AcceptorOk(t, t.acc[x])
    {
      assert AcceptorOk(s, s.acc[x]);
    }
  }

  lemma StartKeepsInv(s: Sys, p: Node, i: nat, change: Change)
    requires Inv(s) && Enabled(s, Start(p, i, change)) && Orderly(s, Start(p, i, change))
    ensures Inv(Next(s, Start(p, i, change)))
  {
    StartBallots(s, p, i, change);
    StartPhases(s, p, i, change);
    StartMessages(s, p, i, change);
    StartRest(s, p, i, change);
  }

  /** A proposer may always give up its run. */
  lemma IdleKeepsInv(s: Sys, p: Node)
    requires Inv(s) && p in s.pro
    ensures Inv(s.(pro := s.pro[p := Proposer(s.pro[p].myN, Idle)]))
  {
    var t := s.(pro := s.pro[p := Proposer(s.pro[p].myN, Idle)]);
    assert Grows(s, t);
    HistoryGrows(s, t);
    ValuesGrow(s, t);
    IdleRest(s, t, p);
  }

  lemma IdleRest(s: Sys, t: Sys, p: Node)
    requires Inv(s) && p in s.pro && t == s.(pro := s.pro[p := Proposer(s.pro[p].myN, Idle)])
    ensures NodesOk(t) && AcceptorsOk(t) && BallotsOk(t) && PhasesOk(t) && RepliesOk(t) && VotesOk(t)
  {
    forall m
      ensures BallotAt(t, m)
    {
      assert BallotAt(s, m);
    }
    forall q | q in t.pro
      ensures PhaseOk(t, t.pro[q])
    {
      assert PhaseOk(s, s.pro[q]);
    }
    forall x, j, m, r | PrepareReply(x, j, m, r) in t.net
      ensures ReplyOk(t, x, j, m, r)
    {
      assert ReplyOk(s, x, j, m, r);
    }
    forall x, j, m, w | AcceptOk(x, j, m, w) in t.net
      ensures VoteOk(t, x, j, m, w)
    {
      assert VoteOk(s, x, j, m, w);
    }
    forall x | x in t.acc
      ensures AcceptorOk(t, t.acc[x])
    {
      assert AcceptorOk(s, s.acc[x]);
    }
  }

  /** What a node that is ahead reports was chosen. */
  lemma RejectedValueIsChosen(s: Sys, p: Node, outcomes: seq<Outcome>)
    requires NodesOk(s) && AcceptorsOk(s) && BallotsOk(s) && PhasesOk(s) && RepliesOk(s) && ValuesOk(s)
    requires Enabled(s, FinishPrepare(p, outcomes))
    requires Collect(s.pro[p].phase.nodes, outcomes).Rejected?
    ensures var i := s.pro[p].phase.i;
      2 <= i <= s.acc[p].instanceH + 1 && Chosen(s, i, Collect(s.pro[p].phase.nodes, outcomes).v)
  {
    var ph, n := s.pro[p].phase, s.pro[p].myN;
    CollectOrigin(ph.nodes, outcomes);
    var k: nat :| AheadAt(outcomes, Collect(ph.nodes, outcomes).v, k);
    assert PhaseOk(s, s.pro[p]) && BallotAt(s, n);
    assert AcceptorOk(s, s.acc[p]);
    var x, r := ph.nodes[k], outcomes[k].r;
    assert PrepareReply(x, ph.i, n, r) in s.net && ReplyOk(s, x, ph.i, n, r);
    assert CommittedAt(s, s.acc[x], ph.i);
  }

  lemma RejectedKeepsInv(s: Sys, p: Node, outcomes: seq<Outcome>)
    requires Inv(s) && Enabled(s, FinishPrepare(p, outcomes))
    requires Collect(s.pro[p].phase.nodes, outcomes).Rejected?
    ensures Inv(Next(s, FinishPrepare(p, outcomes)))
  {
    RejectedValueIsChosen(s, p, outcomes);
    IdleKeepsInv(s, p);
    var t := s.(pro := s.pro[p := Proposer(s.pro[p].myN, Idle)]);
    var i, v := s.pro[p].phase.i, Collect(s.pro[p].phase.nodes, outcomes).v;
    assert Grows(s, t);
    ChosenGrows(s, t, i, v);
    CommitKeepsInv(t, p, i, v);
  }

  /** The state after a majority of promises. */
  ghost function Proposing(s: Sys, p: Node, v: Text, promises: seq<Promise>): (t: Sys)
    requires p in s.pro && s.pro[p].phase.Preparing?
  {
    var ph, n := s.pro[p].phase, s.pro[p].myN;
    s.(pro := s.pro[p := Proposer(n, Accepting(ph.i, ph.nodes, v, Promisers(promises)))],
       net := s.net + (set x | x in Promisers(promises) :: AcceptMsg(x, ph.i, n, v)),
       props := s.props[n := Proposal(v, promises)])
  }

  /** The value to propose is the highest vote behind the promises, and some run of
      the instance was started for it. */
  lemma ProposalIsSafe(s: Sys, p: Node, outcomes: seq<Outcome>)
    requires Inv(s) && Enabled(s, FinishPrepare(p, outcomes))
    requires var c := Collect(s.pro[p].phase.nodes, outcomes);
      c.Promised? && IsMajority(s.pro[p].phase.nodes, Elements(Promisers(c.promises)))
    ensures var c, ph := Collect(s.pro[p].phase.nodes, outcomes), s.pro[p].phase;
      ProposalOk(s, s.pro[p].myN, Proposal(ToPropose(c.v, ph.newv), c.promises))
  {
    var ph, n := s.pro[p].phase, s.pro[p].myN;
    var c := Collect(ph.nodes, outcomes);
    assert PhaseOk(s, s.pro[p]) && BallotAt(s, n);
    ValueEmpty(Changed(s.ballots[n].nodes, s.ballots[n].change));
    PromisesSent(s, p, outcomes);
    OutcomesHonest(s, p, outcomes);
    CollectHighest(ph.nodes, outcomes);
    if exists k :: 0 <= k < |c.promises| && c.promises[k].nA.n > 0 {
      var h :| 0 <= h < |c.promises| && c.promises[h].nA.n > 0 && c.promises[h].vA == c.v;
      var q := c.promises[h];
      assert q in c.promises && PromiseSent(s, ph.i, n, q);
      var r := PrepareRes(false, true, q.nA, q.vA);
      assert ReplyOk(s, q.from, ph.i, n, r) && PromiseOk(s, q.from, ph.i, n, r);
      assert ProposalOk(s, q.nA, s.props[q.nA]);
    } else {
      assert Started(s, ph.i, ph.newv);
    }
  }

  lemma PromisesSent(s: Sys, p: Node, outcomes: seq<Outcome>)
    requires Enabled(s, FinishPrepare(p, outcomes))
    requires Collect(s.pro[p].phase.nodes, outcomes).Promised?
    ensures forall q :: q in Collect(s.pro[p].phase.nodes, outcomes).promises ==>
      PromiseSent(s, s.pro[p].phase.i, s.pro[p].myN, q)
  {
    var ph := s.pro[p].phase;
    CollectOrigin(ph.nodes, outcomes);
    forall q | q in Collect(ph.nodes, outcomes).promises
      ensures PromiseSent(s, ph.i, s.pro[p].myN, q)
    {
      var k: nat :| GrantedAt(ph.nodes, outcomes, q, k);
      assert outcomes[k].Reply?;
    }
  }

  lemma OutcomesHonest(s: Sys, p: Node, outcomes: seq<Outcome>)
    requires RepliesOk(s) && Enabled(s, FinishPrepare(p, outcomes))
    ensures forall k :: 0 <= k < |outcomes| ==> HonestReply(outcomes[k])
  {
    var ph, n := s.pro[p].phase, s.pro[p].myN;
    forall k | 0 <= k < |outcomes|
      ensures HonestReply(outcomes[k])
    {
      if outcomes[k].Reply? {
        assert ReplyOk(s, ph.nodes[k], ph.i, n, outcomes[k].r);
      }
    }
  }

  lemma ProposingGrows(s: Sys, p: Node, v: Text, promises: seq<Promise>)
    requires Inv(s) && p in s.pro && s.pro[p].phase.Preparing?
    requires ProposalOk(s, s.pro[p].myN, Proposal(v, promises))
    ensures Grows(s, Proposing(s, p, v, promises))
  {
    assert PhaseOk(s, s.pro[p]);
  }

  lemma ProposingRequests(s: Sys, p: Node, v: Text, promises: seq<Promise>)
    requires Inv(s) && p in s.pro && s.pro[p].phase.Preparing?
    requires ProposalOk(s, s.pro[p].myN, Proposal(v, promises))
    ensures RequestsOk(Proposing(s, p, v, promises))
  {
    assert PhaseOk(s, s.pro[p]);
  }

  lemma ProposingReplies(s: Sys, p: Node, v: Text, promises: seq<Promise>)
    requires Inv(s) && p in s.pro && s.pro[p].phase.Preparing?
    requires ProposalOk(s, s.pro[p].myN, Proposal(v, promises))
    ensures RepliesOk(Proposing(s, p, v, promises))
  {
    var t := Proposing(s, p, v, promises);
    ProposingGrows(s, p, v, promises);
    forall x, j, m, r | PrepareReply(x, j, m, r) in t.net
      ensures ReplyOk(t, x, j, m, r)
    {
      assert ReplyOk(s, x, j, m, r);
      GeIsGtOrEqual(s.acc[x].nH, s.acc[x].nH);
      ReplyKept(s, t, x, j, m, r);
    }
  }

  lemma ProposingVotes(s: Sys, p: Node, v: Text, promises: seq<Promise>)
    requires Inv(s) && p in s.pro && s.pro[p].phase.Preparing?
    requires ProposalOk(s, s.pro[p].myN, Proposal(v, promises))
    ensures VotesOk(Proposing(s, p, v, promises))
  {
    var t := Proposing(s, p, v, promises);
    ProposingGrows(s, p, v, promises);
    forall x, j, m, w | AcceptOk(x, j, m, w) in t.net
      ensures VoteOk(t, x, j, m, w)
    {
      assert VoteOk(s, x, j, m, w);
      VoteKept(s, t, x, j, m, w);
    }
  }

  lemma ProposingRest(s: Sys, p: Node, v: Text, promises: seq<Promise>)
    requires Inv(s) && p in s.pro && s.pro[p].phase.Preparing?
    requires ProposalOk(s, s.pro[p].myN, Proposal(v, promises))
    ensures var t := Proposing(s, p, v, promises);
      NodesOk(t) && AcceptorsOk(t) && BallotsOk(t) && PhasesOk(t) && DecidesOk(t)
  {
    var t := Proposing(s, p, v, promises);
    ProposingGrows(s, p, v, promises);
    forall m
      ensures BallotAt(t, m)
    {
      assert BallotAt(s, m);
    }
    forall q | q in t.pro
      ensures PhaseOk(t, t.pro[q])
    {
      assert PhaseOk(s, s.pro[q]);
    }
    forall x, j, m, w | DecideMsg(x, j, m, w) in t.net
      ensures AcceptOk(x, j, m, w) in t.net && ChosenAt(t, j, m, w)
    {
      ChosenAtGrows(s, t, j, m, w);
    }
    forall x | x in t.acc
      ensures AcceptorOk(t, t.acc[x])
    {
      assert AcceptorOk(s, s.acc[x]);
    }
  }

  lemma ProposingKeepsInv(s: Sys, p: Node, v: Text, promises: seq<Promise>)
    requires Inv(s) && p in s.pro && s.pro[p].phase.Preparing?
    requires ProposalOk(s, s.pro[p].myN, Proposal(v, promises))
    ensures Inv(Proposing(s, p, v, promises))
  {
    var t := Proposing(s, p, v, promises);
    ProposingGrows(s, p, v, promises);
    ProposingRequests(s, p, v, promises);
    ProposingReplies(s, p, v, promises);
    ProposingVotes(s, p, v, promises);
    ProposingRest(s, p, v, promises);
    ValuesGrow(s, t);
    forall m | m in t.props
      ensures ProposalOk(t, m, t.props[m])
    {
      ProposalGrows(s, t, m, t.props[m]);
    }
  }

  lemma FinishPrepareKeepsInv(s: Sys, p: Node, outcomes: seq<Outcome>)
    requires Inv(s) && Enabled(s, FinishPrepare(p, outcomes))
    ensures Inv(Next(s, FinishPrepare(p, outcomes)))
  {
    var ph := s.pro[p].phase;
    var c := Collect(ph.nodes, outcomes);
    if c.Rejected? {
      RejectedKeepsInv(s, p, outcomes);
    } else if IsMajority(ph.nodes, Elements(Promisers(c.promises))) {
      ProposalIsSafe(s, p, outcomes);
      ProposingKeepsInv(s, p, ToPropose(c.v, ph.newv), c.promises);
    } else {
      IdleKeepsInv(s, p);
    }
  }

  /** The nodes told about a decision voted for it, and are a majority. */
  lemma DecidedIsChosen(s: Sys, p: Node, oks: seq<bool>)
    requires Inv(s) && Enabled(s, FinishAccept(p, oks))
    requires IsMajority(s.pro[p].phase.nodes, Elements(Accepters(s.pro[p].phase.targets, oks)))
    ensures var ph, n := s.pro[p].phase, s.pro[p].myN;
      && ChosenAt(s, ph.i, n, ph.v)
      && forall x :: x in Accepters(ph.targets, oks) ==> AcceptOk(x, ph.i, n, ph.v) in s.net
  {
    var ph, n := s.pro[p].phase, s.pro[p].myN;
    AcceptersOrigin(ph.targets, oks);
    var yes := Elements(Accepters(ph.targets, oks));
    forall x | x in yes
      ensures x in Voters(s, ph.i, n, ph.v)
    {
      assert AcceptOk(x, ph.i, n, ph.v) in s.net && VoteOk(s, x, ph.i, n, ph.v);
    }
    assert PhaseOk(s, s.pro[p]);
    CountMonotone(ph.nodes, yes, Voters(s, ph.i, n, ph.v));
  }

  lemma AnnounceKeepsInv(s: Sys, i: nat, n: Prop, v: Text, told: seq<Node>)
    requires Inv(s) && ChosenAt(s, i, n, v)
    requires forall x :: x in told ==> AcceptOk(x, i, n, v) in s.net
    ensures Inv(s.(net := s.net + (set x | x in told :: DecideMsg(x, i, n, v))))
  {
    var t := s.(net := s.net + (set x | x in told :: DecideMsg(x, i, n, v)));
    assert Grows(s, t);
    ValuesGrow(s, t);
    AnnounceHistory(s, t, i, n, v);
    AnnounceRest(s, t);
  }

  lemma AnnounceHistory(s: Sys, t: Sys, i: nat, n: Prop, v: Text)
    requires ProposalsOk(s) && RequestsOk(s) && DecidesOk(s) && Grows(s, t) && t.props == s.props
    requires ChosenAt(s, i, n, v)
    requires forall m :: m in t.net && m !in s.net ==>
      m.DecideMsg? && m.i == i && m.n == n && m.v == v && AcceptOk(m.to, i, n, v) in s.net
    ensures ProposalsOk(t) && RequestsOk(t) && DecidesOk(t)
  {
    forall m | m in t.props
      ensures ProposalOk(t, m, t.props[m])
    {
      ProposalGrows(s, t, m, s.props[m]);
    }
    forall x, j, m, w | DecideMsg(x, j, m, w) in t.net
      ensures AcceptOk(x, j, m, w) in t.net && ChosenAt(t, j, m, w)
    {
      if DecideMsg(x, j, m, w) !in s.net { assert j == i && m == n && w == v; }
      ChosenAtGrows(s, t, j, m, w);
    }
  }

  lemma AnnounceRest(s: Sys, t: Sys)
    requires Inv(s) && Grows(s, t) && t == s.(net := t.net)
    requires forall m :: m in t.net && m !in s.net ==> m.DecideMsg? || m.LogMsg?
    ensures NodesOk(t) && AcceptorsOk(t) && BallotsOk(t) && PhasesOk(t) && RepliesOk(t) && VotesOk(t)
  {
    forall m
      ensures BallotAt(t, m)
    {
      assert BallotAt(s, m);
    }
    forall q | q in t.pro
      ensures PhaseOk(t, t.pro[q])
    {
      assert PhaseOk(s, s.pro[q]);
    }
    forall x, j, m, r | PrepareReply(x, j, m, r) in t.net
      ensures ReplyOk(t, x, j, m, r)
    {
      assert ReplyOk(s, x, j, m, r);
    }
    forall x, j, m, w | AcceptOk(x, j, m, w) in t.net
      ensures VoteOk(t, x, j, m, w)
    {
      assert VoteOk(s, x, j, m, w);
    }
    forall x | x in t.acc
      ensures AcceptorOk(t, t.acc[x])
    {
      assert AcceptorOk(s, s.acc[x]);
    }
  }

  lemma FinishAcceptKeepsInv(s: Sys, p: Node, oks: seq<bool>)
    requires Inv(s) && Enabled(s, FinishAccept(p, oks))
    ensures Inv(Next(s, FinishAccept(p, oks)))
  {
    var ph, n := s.pro[p].phase, s.pro[p].myN;
    var yes := Accepters(ph.targets, oks);
    IdleKeepsInv(s, p);
    if IsMajority(ph.nodes, Elements(yes)) {
      DecidedIsChosen(s, p, oks);
      var t := s.(pro := s.pro[p := Proposer(n, Idle)]);
      assert Grows(s, t);
      ChosenAtGrows(s, t, ph.i, n, ph.v);
      AnnounceKeepsInv(t, ph.i, n, ph.v, yes);
    }
  }

  // ------------------------------------------------------------------- dumped logs

  lemma DumpKeepsInv(s: Sys, b: Node)
    requires Inv(s) && Enabled(s, Dump(b))
    ensures Inv(Next(s, Dump(b)))
  {
    var t := Next(s, Dump(b));
    assert Grows(s, t);
    ValuesGrow(s, t);
    HistoryGrows(s, t);
    AnnounceRest(s, t);
  }

  lemma FinishPrepareGrows(s: Sys, p: Node, outcomes: seq<Outcome>)
    requires Inv(s) && Enabled(s, FinishPrepare(p, outcomes))
    ensures Grows(s, Next(s, FinishPrepare(p, outcomes)))
  {
    assert PhaseOk(s, s.pro[p]);
  }

  /** What was ever sent, started or proposed stays. */
  lemma StepGrows(s: Sys, e: Event)
    requires Inv(s) && Enabled(s, e)
    ensures Grows(s, Next(s, e))
    ensures forall y :: LogMsg(y) in Next(s, e).net && LogMsg(y) !in s.net ==> e.Dump? && y == s.acc[e.b]
  {
    if e.Start? {
      StartGrows(s, e.p, e.i, e.change);
    } else if e.FinishPrepare? {
      FinishPrepareGrows(s, e.p, e.outcomes);
    } else if e.FinishAccept? {
      assert Grows(s, Next(s, e));
    } else {
      AcceptorGrows(s, e);
    }
  }

  lemma AcceptorGrows(s: Sys, e: Event)
    requires Enabled(s, e) && !(e.Start? || e.FinishPrepare? || e.FinishAccept?)
    ensures Grows(s, Next(s, e))
    ensures forall y :: LogMsg(y) in Next(s, e).net && LogMsg(y) !in s.net ==> e.Dump? && y == s.acc[e.b]
  {
    assert Next(s, e).acc.Keys == s.acc.Keys;
  }

  lemma DumpGrows(s: Sys, t: Sys, y: Acceptor)
    requires Grows(s, t) && DumpOk(s, y)
    ensures DumpOk(t, y)
  {
    CommittedGrows(s, t, y);
  }

  lemma StepKeepsLogs(s: Sys, e: Event)
    requires Inv(s) && LogsOk(s) && Enabled(s, e)
    ensures LogsOk(Next(s, e))
  {
    var t := Next(s, e);
    StepGrows(s, e);
    forall y | LogMsg(y) in t.net
      ensures DumpOk(t, y)
    {
      if LogMsg(y) !in s.net { LiveIsDumpable(s, e.b); }
      assert DumpOk(s, y);
      DumpGrows(s, t, y);
    }
  }

  lemma LiveIsDumpable(s: Sys, b: Node)
    requires Inv(s) && b in s.acc && s.acc[b].instanceH >= 1
    ensures DumpOk(s, s.acc[b])
  {
    assert Durable(s.acc[b]) && AcceptorOk(s, s.acc[b]);
    forall j ensures CommittedAt(s, s.acc[b], j) { }
  }

  // --------------------------------------------------------------------- whole runs

  lemma InitNodes(s: Sys)
    requires Init(s)
    ensures NodesOk(s)
  {
    forall b | b in s.acc
      ensures Durable(s.acc[b])
    {
      BootIsDurable(b, b == s.first, s.first, []);
    }
  }

  lemma InitAcceptors(s: Sys)
    requires Init(s)
    ensures AcceptorsOk(s) && ValuesOk(s)
  {
    forall b | b in s.acc
      ensures AcceptorOk(s, s.acc[b])
    {
    }
    forall b, j | b in s.acc
      ensures CommittedAt(s, s.acc[b], j)
    {
    }
  }

  lemma InitInv(s: Sys)
    requires Init(s)
    ensures Inv(s) && LogsOk(s)
  {
    InitNodes(s);
    InitAcceptors(s);
    InitQuiet(s);
  }

  lemma InitQuiet(s: Sys)
    requires s.net == {} && s.ballots == map[] && s.props == map[]
    requires forall p :: p in s.pro ==> s.pro[p].phase == Idle
    ensures BallotsOk(s) && PhasesOk(s) && ProposalsOk(s) && RequestsOk(s) && RepliesOk(s) && VotesOk(s) && DecidesOk(s)
  {
    forall n
      ensures BallotAt(s, n)
    {
    }
  }

  lemma StepKeepsInv(s: Sys, e: Event)
    requires Inv(s) && Enabled(s, e) && Orderly(s, e) && (e.Rejoin? ==> DumpOk(s, e.dumped))
    ensures Inv(Next(s, e))
  {
    match e
    case Start(p, i, change) => StartKeepsInv(s, p, i, change);
    case FinishPrepare(p, outcomes) => FinishPrepareKeepsInv(s, p, outcomes);
    case FinishAccept(p, oks) => FinishAcceptKeepsInv(s, p, oks);
    case DeliverPrepare(b, i, n) => PrepareKeepsInv(s, b, i, n);
    case DeliverAccept(b, i, n, v) => AcceptKeepsInv(s, b, i, n, v);
    case DeliverDecide(b, i, n, v) => DecideKeepsInv(s, b, i, n, v);
    case Restart(b) => RestartKeepsInv(s, b);
    case Dump(b) => DumpKeepsInv(s, b);
    case Rejoin(b, dumped) => RejoinKeepsInv(s, b, dumped);
  }

  lemma {:induction false} RunKeepsInv(s: Sys, es: seq<Event>)
    requires Inv(s) && LogsOk(s) && IsRun(s, es) && OrderlyRun(s, es)
    ensures Inv(After(s, es)) && LogsOk(After(s, es))
    decreases es
  {
    if es != [] {
      if es[0].Rejoin? { assert DumpOk(s, es[0].dumped); }
      StepKeepsInv(s, es[0]);
      StepKeepsLogs(s, es[0]);
      RunKeepsInv(Next(s, es[0]), es[1..]);
    }
  }
}
