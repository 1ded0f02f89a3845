/** Safety of the Paxos step system over every orderly run. */
module PaxosSafety {
  import opened Views
  import opened Proposals
  import opened AcceptorModel
  import opened Quorum
  import opened ProposerModel
  import opened PaxosSystem

  // ---------------------------------------------------------------- invariant

  /** Value `v` was proposed under number `n` in instance `i`. */
  ghost predicate Proposed(s: Sys, i: nat, n: Prop, v: Text) {
    n in s.props && s.props[n].v == v && n in s.ballots && s.ballots[n].i == i
  }

  /** Some run of instance `i` was started to make `v` the next view. */
  ghost predicate Started(s: Sys, i: nat, v: Text) {
    exists n :: n in s.ballots && s.ballots[n].i == i && s.ballots[n].NewValue() == v
  }

  ghost predicate NodesOk(s: Sys) {
    && s.first in s.acc && s.acc.Keys == s.pro.Keys
    && (forall b :: b in s.acc ==> s.acc[b].me == b)
    && (forall b {:trigger Durable(s.acc[b])} :: b in s.acc ==> Durable(s.acc[b]))
    && (forall p :: p in s.pro ==> s.pro[p].myN.m == p)
    && s.acc[s.first].instanceH >= 1
  }

  /** Committed instances are contiguous; a vote is a proposal of the open instance
      and not above the promise. */
  ghost predicate AcceptorOk(s: Sys, a: Acceptor) {
    && (forall j :: j in a.values <==> 1 <= j <= a.instanceH)
    && (a.nA.n == 0 ==> a.vA == "")
    && (a.nA.n > 0 ==> Proposed(s, a.instanceH + 1, a.nA, a.vA) && Ge(a.nH, a.nA))
  }

  ghost predicate AcceptorsOk(s: Sys) {
    forall b {:trigger AcceptorOk(s, s.acc[b])} :: b in s.acc ==> AcceptorOk(s, s.acc[b])
  }

  ghost predicate BallotOk(s: Sys, n: Prop, b: Ballot) {
    && n.m in s.acc && n.m in s.pro && 1 <= n.n <= s.pro[n.m].myN.n
    && 2 <= b.i && b.i - 1 in s.acc[n.m].values
    && b.nodes == Members(s.acc[n.m].values[b.i - 1])
    && Changed(b.nodes, b.change) != []
    && (b.change.Add? ==> TextStream.IsToken(b.change.m) && b.change.m !in b.nodes)
  }

  ghost predicate BallotAt(s: Sys, n: Prop) {
    n in s.ballots ==> BallotOk(s, n, s.ballots[n])
  }

  ghost predicate BallotsOk(s: Sys) {
    forall n :: BallotAt(s, n)
  }

  ghost predicate PhaseOk(s: Sys, q: Proposer) {
    match q.phase
    case Idle => true
    case Preparing(i, nodes, newv) =>
      && q.myN in s.ballots && q.myN !in s.props
      && s.ballots[q.myN].i == i && s.ballots[q.myN].nodes == nodes && s.ballots[q.myN].NewValue() == newv
    case Accepting(i, nodes, v, targets) =>
      && Proposed(s, i, q.myN, v) && s.ballots[q.myN].nodes == nodes
      && targets == Promisers(s.props[q.myN].promises)
  }

  ghost predicate PhasesOk(s: Sys) {
    forall p {:trigger PhaseOk(s, s.pro[p])} :: p in s.pro ==> PhaseOk(s, s.pro[p])
  }

  ghost predicate PromiseSent(s: Sys, i: nat, n: Prop, p: Promise) {
    PrepareReply(p.from, i, n, PrepareRes(false, true, p.nA, p.vA)) in s.net
  }

  /** A proposal rests on a majority of promises and carries their highest vote, if any. */
  ghost predicate ProposalOk(s: Sys, n: Prop, q: Proposal) {
    && n in s.ballots
    && IsMajority(s.ballots[n].nodes, Elements(Promisers(q.promises)))
    && (forall p :: p in q.promises ==> PromiseSent(s, s.ballots[n].i, n, p))
    && ((exists k :: 0 <= k < |q.promises| && q.promises[k].nA.n > 0) ==> HighestVote(q.promises, q.v))
    && q.v != "" && Started(s, s.ballots[n].i, q.v)
  }

  ghost predicate ProposalsOk(s: Sys) {
    forall n {:trigger ProposalOk(s, n, s.props[n])} :: n in s.props ==> ProposalOk(s, n, s.props[n])
  }

  ghost predicate RequestsOk(s: Sys) {
    && (forall b, i, n :: PrepareMsg(b, i, n) in s.net ==> n in s.ballots && s.ballots[n].i == i)
    && (forall b, i, n, v :: AcceptMsg(b, i, n, v) in s.net ==>
          Proposed(s, i, n, v) && b in Promisers(s.props[n].promises))
  }

  /** What a granted promise says about the acceptor, then and ever after. */
  ghost predicate PromiseOk(s: Sys, b: Node, i: nat, n: Prop, r: PrepareRes) {
    && b in s.acc && !r.oldinstance
    && s.acc[b].instanceH + 1 >= i
    && (s.acc[b].instanceH + 1 == i ==> Ge(s.acc[b].nH, n))
    && (r.nA.n == 0 ==> r.vA == "")
    && (r.nA.n > 0 ==> Proposed(s, i, r.nA, r.vA) && Gt(n, r.nA))
    && (forall m, v :: AcceptOk(b, i, m, v) in s.net && Gt(n, m) ==> Ge(r.nA, m))
  }

  ghost predicate ReplyOk(s: Sys, b: Node, i: nat, n: Prop, r: PrepareRes) {
    && n in s.ballots && s.ballots[n].i == i && b in s.acc
    && (r.oldinstance ==> i in s.acc[b].values && s.acc[b].values[i] == r.vA)
    && (r.accept ==> PromiseOk(s, b, i, n, r))
  }

  ghost predicate RepliesOk(s: Sys) {
    forall b, i, n, r {:trigger ReplyOk(s, b, i, n, r)} :: PrepareReply(b, i, n, r) in s.net ==> ReplyOk(s, b, i, n, r)
  }

  ghost predicate VoteOk(s: Sys, b: Node, i: nat, n: Prop, v: Text) {
    && b in s.acc && Proposed(s, i, n, v) && n.n > 0
    && s.acc[b].instanceH + 1 >= i
    && (s.acc[b].instanceH + 1 == i ==> s.acc[b].nA.n > 0 && Ge(s.acc[b].nA, n))
  }

  ghost predicate VotesOk(s: Sys) {
    forall b, i, n, v {:trigger VoteOk(s, b, i, n, v)} :: AcceptOk(b, i, n, v) in s.net ==> VoteOk(s, b, i, n, v)
  }

  ghost predicate DecidesOk(s: Sys) {
    forall b, i, n, v :: DecideMsg(b, i, n, v) in s.net ==>
      AcceptOk(b, i, n, v) in s.net && ChosenAt(s, i, n, v)
  }

  /** A committed value was chosen; the first view is the first node alone. */
  ghost predicate CommittedAt(s: Sys, a: Acceptor, j: nat) {
    j in a.values ==> if j == 1 then a.values[j] == s.first else Chosen(s, j, a.values[j])
  }

  ghost predicate ValuesOk(s: Sys) {
    forall b, j :: b in s.acc ==> CommittedAt(s, s.acc[b], j)
  }

  /** A dumped log is the log of a state that an acceptor once had. */
  ghost predicate DumpOk(s: Sys, y: Acceptor) {
    Durable(y) && y.instanceH >= 1 && AcceptorOk(s, y) && forall j :: CommittedAt(s, y, j)
  }

  ghost predicate LogsOk(s: Sys) {
    forall y {:trigger DumpOk(s, y)} :: LogMsg(y) in s.net ==> DumpOk(s, y)
  }

  ghost predicate Inv(s: Sys) {
    && NodesOk(s) && AcceptorsOk(s) && BallotsOk(s) && PhasesOk(s) && ProposalsOk(s)
    && RequestsOk(s) && RepliesOk(s) && VotesOk(s) && DecidesOk(s) && ValuesOk(s)
  }

  // ------------------------------------------------- consequences of the invariant

  /** Proposals of the instance numbered below `n`. */
  ghost function Below(s: Sys, n: Prop): (r: set<Prop>) {
    set m | m in s.props && Gt(n, m)
  }

  ghost predicate OneList(s: Sys, i: nat) {
    forall a, b :: a in s.ballots && b in s.ballots && s.ballots[a].i == i && s.ballots[b].i == i ==>
      s.ballots[a].nodes == s.ballots[b].nodes
  }

  /** Some promise behind a later proposal reports a vote at least as high as one
      that a majority cast. */
  lemma PromiseReports(s: Sys, i: nat, n: Prop, v: Text, m: Prop, w: Text) returns (p: Promise)
    requires ProposalsOk(s) && RepliesOk(s) && VotesOk(s) && OneList(s, i)
    requires ChosenAt(s, i, n, v) && Proposed(s, i, m, w) && Gt(m, n)
    ensures p in s.props[m].promises && p.nA.n > 0 && Ge(p.nA, n)
  {
    var promises := s.props[m].promises;
    assert ProposalOk(s, m, s.props[m]);
    MajoritiesMeet(s.ballots[n].nodes, Voters(s, i, n, v), Elements(Promisers(promises)));
    var b :| b in Voters(s, i, n, v) && b in Elements(Promisers(promises));
    assert AcceptOk(b, i, n, v) in s.net && VoteOk(s, b, i, n, v);
    var k :| 0 <= k < |promises| && promises[k].from == b;
    p := promises[k];
    assert p in promises && PromiseSent(s, i, m, p);
    assert ReplyOk(s, b, i, m, PrepareRes(false, true, p.nA, p.vA));
    assert PromiseOk(s, b, i, m, PrepareRes(false, true, p.nA, p.vA));
  }

  /** A proposal that rests on a reported vote repeats the value of an earlier
      proposal, numbered between that vote and itself. */
  lemma ProposalRepeats(s: Sys, i: nat, m: Prop, w: Text, p: Promise) returns (x: Prop)
    requires ProposalsOk(s) && RepliesOk(s)
    requires Proposed(s, i, m, w) && p in s.props[m].promises && p.nA.n > 0
    ensures Proposed(s, i, x, w) && Gt(m, x) && Ge(x, p.nA)
  {
    var promises := s.props[m].promises;
    assert ProposalOk(s, m, s.props[m]);
    var k :| 0 <= k < |promises| && promises[k] == p;
    assert HighestVote(promises, w);
    var h :| 0 <= h < |promises| && promises[h].nA.n > 0 && promises[h].vA == w
      && forall j :: 0 <= j < |promises| ==> Ge(promises[h].nA, promises[j].nA);
    var q := promises[h];
    assert q in promises && PromiseSent(s, i, m, q);
    assert ReplyOk(s, q.from, i, m, PrepareRes(false, true, q.nA, q.vA));
    assert PromiseOk(s, q.from, i, m, PrepareRes(false, true, q.nA, q.vA));
    x := q.nA;
  }

  /** Once a majority voted for a proposal, every proposal with a higher number in
      the instance carries the same value. */
  lemma {:induction false} ChosenPersists(s: Sys, i: nat, n: Prop, v: Text, m: Prop, w: Text)
    requires ProposalsOk(s) && RepliesOk(s) && VotesOk(s) && OneList(s, i)
    requires ChosenAt(s, i, n, v) && Proposed(s, i, m, w) && Ge(m, n)
    ensures w == v
    decreases |Below(s, m)|
  {
    GeIsGtOrEqual(m, n);
    if m == n {
      ChosenIsProposed(s, i, n, v);
    } else {
      var p := PromiseReports(s, i, n, v, m, w);
      var x := ProposalRepeats(s, i, m, w, p);
      GtTrans(x, p.nA, n);
      BelowShrinks(s, m, x);
      ChosenPersists(s, i, n, v, x, w);
    }
  }

  lemma ChosenIsProposed(s: Sys, i: nat, n: Prop, v: Text)
    requires VotesOk(s) && ChosenAt(s, i, n, v)
    ensures Proposed(s, i, n, v)
  {
    MajoritiesMeet(s.ballots[n].nodes, Voters(s, i, n, v), Voters(s, i, n, v));
    var b :| b in Voters(s, i, n, v);
    assert VoteOk(s, b, i, n, v);
  }

  lemma BelowShrinks(s: Sys, m: Prop, x: Prop)
    requires x in s.props && Gt(m, x)
    ensures |Below(s, x)| < |Below(s, m)|
  {
    forall y | y in Below(s, x)
      ensures y in Below(s, m)
    {
      GeIsGtOrEqual(x, y);
      GtTrans(m, x, y);
    }
    GeIsGtOrEqual(x, x);
    SubsetSmaller(Below(s, x), Below(s, m), x);
  }

  lemma SubsetSmaller<T>(a: set<T>, b: set<T>, x: T)
    requires a <= b && x in b && x !in a
    ensures |a| < |b|
  {
    assert a <= b - {x};
    SubsetCard(a, b - {x});
  }

  lemma {:induction false} SubsetCard<T>(a: set<T>, b: set<T>)
    requires a <= b
    ensures |a| <= |b|
  {
    if a != {} {
      var x :| x in a;
      SubsetCard(a - {x}, b - {x});
    }
  }

  /** Committed values agree instance by instance, and with them the node lists. */
  lemma {:induction false} CommittedAgree(s: Sys, a: Node, b: Node, j: nat)
    requires Inv(s)
    requires a in s.acc && b in s.acc && j in s.acc[a].values && j in s.acc[b].values
    ensures s.acc[a].values[j] == s.acc[b].values[j]
    decreases j, 0
  {
    assert AcceptorOk(s, s.acc[a]);
    assert CommittedAt(s, s.acc[a], j) && CommittedAt(s, s.acc[b], j);
    if j > 1 {
      ChosenUnique(s, j, s.acc[a].values[j], s.acc[b].values[j]);
    }
  }

  lemma {:induction false} BallotListsAgree(s: Sys, a: Prop, b: Prop)
    requires Inv(s)
    requires a in s.ballots && b in s.ballots && s.ballots[a].i == s.ballots[b].i
    ensures s.ballots[a].i >= 1 && s.ballots[a].nodes == s.ballots[b].nodes
    decreases s.ballots[a].i - 1, 1
  {
    assert BallotAt(s, a) && BallotAt(s, b);
    CommittedAgree(s, a.m, b.m, s.ballots[a].i - 1);
  }

  lemma {:induction false} ListsAgree(s: Sys, i: nat)
    requires Inv(s) && i >= 1
    ensures OneList(s, i)
    decreases i - 1, 2
  {
    forall a, b | a in s.ballots && b in s.ballots && s.ballots[a].i == i && s.ballots[b].i == i
      ensures s.ballots[a].nodes == s.ballots[b].nodes
    {
      BallotListsAgree(s, a, b);
    }
  }

  lemma {:induction false} ChosenUnique(s: Sys, i: nat, v: Text, w: Text)
    requires Inv(s) && i >= 1
    requires Chosen(s, i, v) && Chosen(s, i, w)
    ensures v == w
    decreases i - 1, 3
  {
    ListsAgree(s, i);
    var n :| ChosenAt(s, i, n, v);
    var m :| ChosenAt(s, i, m, w);
    ChosenIsProposed(s, i, n, v);
    ChosenIsProposed(s, i, m, w);
    GeIsGtOrEqual(m, n);
    GeIsGtOrEqual(n, m);
    if Ge(m, n) {
      ChosenPersists(s, i, n, v, m, w);
    } else {
      ChosenPersists(s, i, m, w, n, v);
    }
  }
}
