/** Single steps of the Paxos system, as they are put together to concrete runs. */
module PaxosRuns {
  import opened Views
  import opened Proposals
  import opened AcceptorModel
  import opened Quorum
  import opened ProposerModel
  import opened PaxosSystem

  /** An orderly run from `s0` to `s`. */
  ghost predicate Run(s0: Sys, es: seq<Event>, s: Sys) {
    IsRun(s0, es) && OrderlyRun(s0, es) && After(s0, es) == s
  }

  ghost predicate Leads(s0: Sys, s: Sys) {
    exists es :: Run(s0, es, s)
  }

  lemma {:induction false} RunSnoc(s0: Sys, es: seq<Event>, s: Sys, e: Event)
    requires Run(s0, es, s) && Enabled(s, e) && Orderly(s, e)
    ensures Run(s0, es + [e], Next(s, e))
    decreases es
  {
    var fs := es + [e];
    if es == [] {
      assert fs == [e] && fs[1..] == [];
    } else {
      assert fs[0] == es[0] && fs[1..] == es[1..] + [e];
      RunSnoc(Next(s0, es[0]), es[1..], s, e);
    }
  }

  lemma Go(s0: Sys, s: Sys, e: Event) returns (t: Sys)
    requires Leads(s0, s) && Enabled(s, e) && Orderly(s, e)
    ensures t == Next(s, e) && Leads(s0, t)
  {
    var es :| Run(s0, es, s);
    RunSnoc(s0, es, s, e);
    t := Next(s, e);
  }

  lemma Still(s: Sys)
    ensures Leads(s, s)
  {
    assert Run(s, [], s);
  }

  lemma LeadsOn(s: Sys, t: Sys, u: Sys)
    requires Leads(s, t) && Leads(t, u)
    ensures Leads(s, u)
  {
    var es :| Run(s, es, t);
    var fs :| Run(t, fs, u);
    RunJoin(s, es, t, fs, u);
  }

  lemma {:induction false} RunJoin(s: Sys, es: seq<Event>, t: Sys, fs: seq<Event>, u: Sys)
    requires Run(s, es, t) && Run(t, fs, u)
    ensures Run(s, es + fs, u)
    decreases es
  {
    if es == [] {
      assert es + fs == fs;
    } else {
      assert (es + fs)[0] == es[0] && (es + fs)[1..] == es[1..] + fs;
      RunJoin(Next(s, es[0]), es[1..], t, fs, u);
    }
  }

  // ------------------------------------------------------------------------ one event

  lemma StartIs(s: Sys, p: Node, i: nat, c: Change, nodes: seq<Node>, n: Prop)
    requires Enabled(s, Start(p, i, c))
    requires nodes == Members(ValueOf(s.acc[p], i - 1)) && n == NextNumber(s.pro[p].myN, s.acc[p].nH)
    ensures var t := Next(s, Start(p, i, c));
      && t.first == s.first && t.acc == s.acc && s.net <= t.net
      && t.pro == s.pro[p := Proposer(n, Preparing(i, nodes, Value(Changed(nodes, c))))]
      && t.ballots == s.ballots[n := Ballot(i, nodes, c)]
      && forall x :: x in nodes ==> PrepareMsg(x, i, n) in t.net
  {
  }

  lemma DoStart(s0: Sys, s: Sys, p: Node, i: nat, c: Change, nodes: seq<Node>, n: Prop) returns (t: Sys)
    requires Leads(s0, s) && Enabled(s, Start(p, i, c))
    requires nodes == Members(ValueOf(s.acc[p], i - 1)) && n == NextNumber(s.pro[p].myN, s.acc[p].nH)
    ensures Leads(s0, t) && t.first == s.first && t.acc == s.acc && s.net <= t.net
    ensures t.pro == s.pro[p := Proposer(n, Preparing(i, nodes, Value(Changed(nodes, c))))]
    ensures t.ballots == s.ballots[n := Ballot(i, nodes, c)]
    ensures forall x :: x in nodes ==> PrepareMsg(x, i, n) in t.net
  {
    StartIs(s, p, i, c, nodes, n);
    t := Go(s0, s, Start(p, i, c));
  }

  /** An idle node, last with number `k`, proposes to add `m` to its last view. */
  lemma StartAdd(s0: Sys, s: Sys, p: Node, i: nat, m: Node, nodes: seq<Node>, k: nat) returns (t: Sys)
    requires Leads(s0, s) && p in s.acc && p in s.pro && s.pro[p] == Proposer(Prop(k, p), Idle) && i >= 2
    requires s.acc[p].instanceH + 1 == i && i - 1 in s.acc[p].values && Members(s.acc[p].values[i - 1]) == nodes
    requires s.acc[p].nH.n <= k && m !in nodes && TextStream.IsToken(m)
    ensures Leads(s0, t) && t.first == s.first && t.acc == s.acc && s.net <= t.net
    ensures t.pro == s.pro[p := Proposer(Prop(k + 1, p), Preparing(i, nodes, Value(nodes + [m])))]
    ensures t.ballots == s.ballots[Prop(k + 1, p) := Ballot(i, nodes, Add(m))]
    ensures forall x :: x in nodes ==> PrepareMsg(x, i, Prop(k + 1, p)) in t.net
  {
    t := DoStart(s0, s, p, i, Add(m), nodes, Prop(k + 1, p));
  }

  lemma DoPromise(s0: Sys, s: Sys, x: Node, i: nat, n: Prop) returns (t: Sys)
    requires Leads(s0, s) && x in s.acc && PrepareMsg(x, i, n) in s.net
    requires s.acc[x].instanceH + 1 == i && Gt(n, s.acc[x].nH)
    ensures Leads(s0, t) && t.first == s.first && t.pro == s.pro && t.ballots == s.ballots && s.net <= t.net
    ensures var a := s.acc[x];
      && t.acc == s.acc[x := a.(nH := n, log := a.log + [PropSeen(n)])]
      && PrepareReply(x, i, n, PrepareRes(false, true, a.nA, a.vA)) in t.net
  {
    t := Go(s0, s, DeliverPrepare(x, i, n));
  }

  /** A run that is started, and promised by its own node. */
  lemma StartOwn(s0: Sys, s: Sys, p: Node, i: nat, m: Node, nodes: seq<Node>, k: nat, v: Text) returns (t: Sys)
    requires v == Value(nodes + [m])
    requires Leads(s0, s) && p in s.acc && p in s.pro && s.pro[p] == Proposer(Prop(k, p), Idle) && i >= 2
    requires s.acc[p].instanceH + 1 == i && i - 1 in s.acc[p].values && Members(s.acc[p].values[i - 1]) == nodes
    requires s.acc[p].nH.n <= k && m !in nodes && TextStream.IsToken(m) && p in nodes
    ensures Leads(s0, t) && t.first == s.first && s.net <= t.net
    ensures t.pro == s.pro[p := Proposer(Prop(k + 1, p), Preparing(i, nodes, v))]
    ensures t.ballots == s.ballots[Prop(k + 1, p) := Ballot(i, nodes, Add(m))]
    ensures forall x :: x in nodes ==> PrepareMsg(x, i, Prop(k + 1, p)) in t.net
    ensures var n, a := Prop(k + 1, p), s.acc[p];
      && t.acc == s.acc[p := a.(nH := n, log := a.log + [PropSeen(n)])]
      && PrepareReply(p, i, n, PrepareRes(false, true, a.nA, a.vA)) in t.net
  {
    t := StartAdd(s0, s, p, i, m, nodes, k);
    t := DoPromise(s0, t, p, i, Prop(k + 1, p));
  }

  lemma DoVote(s0: Sys, s: Sys, x: Node, i: nat, n: Prop, v: Text) returns (t: Sys)
    requires Leads(s0, s) && x in s.acc && AcceptMsg(x, i, n, v) in s.net
    requires s.acc[x].instanceH + 1 == i && Ge(n, s.acc[x].nH)
    ensures Leads(s0, t) && t.first == s.first && t.pro == s.pro && t.ballots == s.ballots && s.net <= t.net
    ensures var a := s.acc[x]; t.acc == s.acc[x := a.(nA := n, vA := v, log := a.log + [Accepted(n, v)])]
    ensures AcceptOk(x, i, n, v) in t.net
  {
    t := Go(s0, s, DeliverAccept(x, i, n, v));
  }

  lemma DoDecide(s0: Sys, s: Sys, x: Node, i: nat, n: Prop, v: Text) returns (t: Sys)
    requires Leads(s0, s) && x in s.acc && DecideMsg(x, i, n, v) in s.net
    requires s.acc[x].instanceH + 1 == i && s.acc[x].vA == v
    ensures Leads(s0, t) && t.first == s.first && t.pro == s.pro && t.ballots == s.ballots && t.net == s.net
    ensures t.acc == s.acc[x := Commit(s.acc[x], i, v)]
  {
    t := Go(s0, s, DeliverDecide(x, i, n, v));
  }

  /** The nodes that a phase has heard from. */
  function Answering(nodes: seq<Node>, outcomes: seq<Outcome>): (l: seq<Node>)
    requires |nodes| == |outcomes|
  {
    if nodes == [] then []
    else
      var k := |nodes| - 1;
      Answering(nodes[..k], outcomes[..k]) + (if outcomes[k].Reply? then [nodes[k]] else [])
  }

  /** A promise of a node that has not voted, or no answer. */
  predicate Plain(o: Outcome) {
    o.Reply? ==> o.r.accept && !o.r.oldinstance && o.r.vA == ""
  }

  lemma {:induction false} CollectPlain(nodes: seq<Node>, outcomes: seq<Outcome>)
    requires |nodes| == |outcomes| && forall k :: 0 <= k < |outcomes| ==> Plain(outcomes[k])
    ensures var c := Collect(nodes, outcomes);
      c.Promised? && c.v == "" && Promisers(c.promises) == Answering(nodes, outcomes)
  {
    if nodes != [] {
      var k := |nodes| - 1;
      CollectPlain(nodes[..k], outcomes[..k]);
      var b, o := Collect(nodes[..k], outcomes[..k]), outcomes[k];
      assert Plain(o);
      if o.Reply? {
        var ps := b.promises + [Promise(nodes[k], o.r.nA, o.r.vA)];
        assert Promisers(ps) == Promisers(b.promises) + [nodes[k]];
      }
    }
  }

  lemma DoCollect(s0: Sys, s: Sys, p: Node, outcomes: seq<Outcome>) returns (t: Sys)
    requires Leads(s0, s) && Enabled(s, FinishPrepare(p, outcomes))
    requires forall k :: 0 <= k < |outcomes| ==> Plain(outcomes[k])
    requires IsMajority(s.pro[p].phase.nodes, Elements(Answering(s.pro[p].phase.nodes, outcomes)))
    ensures Leads(s0, t) && t.first == s.first && t.acc == s.acc && t.ballots == s.ballots && s.net <= t.net
    ensures var ph, n := s.pro[p].phase, s.pro[p].myN;
      var l := Answering(ph.nodes, outcomes);
      && t.pro == s.pro[p := Proposer(n, Accepting(ph.i, ph.nodes, ph.newv, l))]
      && forall x :: x in l ==> AcceptMsg(x, ph.i, n, ph.newv) in t.net
  {
    CollectPlain(s.pro[p].phase.nodes, outcomes);
    t := Go(s0, s, FinishPrepare(p, outcomes));
  }

  lemma {:induction false} AcceptersAll(targets: seq<Node>, ok: bool)
    ensures Accepters(targets, seq(|targets|, _ => ok)) == if ok then targets else []
  {
    if targets != [] {
      var k, oks := |targets| - 1, seq(|targets|, _ => ok);
      assert oks[..k] == seq(k, _ => ok);
      AcceptersAll(targets[..k], ok);
      assert targets[..k] + [targets[k]] == targets;
    }
  }

  /** The accept phase ends with all targets' votes counted, or with none of them. */
  lemma DoFinish(s0: Sys, s: Sys, p: Node, ok: bool) returns (t: Sys)
    requires Leads(s0, s) && p in s.pro && s.pro[p].phase.Accepting?
    requires var ph := s.pro[p].phase;
      && (ok ==> forall x :: x in ph.targets ==> AcceptOk(x, ph.i, s.pro[p].myN, ph.v) in s.net)
      && IsMajority(ph.nodes, Elements(ph.targets))
    ensures Leads(s0, t) && t.first == s.first && t.acc == s.acc && t.ballots == s.ballots && s.net <= t.net
    ensures var ph, n := s.pro[p].phase, s.pro[p].myN;
      && t.pro == s.pro[p := Proposer(n, Idle)]
      && (ok ==> forall x :: x in ph.targets ==> DecideMsg(x, ph.i, n, ph.v) in t.net)
  {
    var ph := s.pro[p].phase;
    var oks := seq(|ph.targets|, _ => ok);
    AcceptersAll(ph.targets, ok);
    if !ok { NoMajority(ph.nodes); }
    t := Go(s0, s, FinishAccept(p, oks));
  }

  lemma {:induction false} CountNone(l: seq<Node>)
    ensures CountIn(l, {}) == 0
  {
    if l != [] { CountNone(l[1..]); }
  }

  lemma NoMajority(l: seq<Node>)
    ensures !IsMajority(l, Elements([]))
  {
    CountNone(l);
    assert Elements([]) == {};
  }

  /** A run with two promises goes through its accept phase: both promisers vote. */
  lemma TwoVotes(s0: Sys, s: Sys, p: Node, x: Node, y: Node, ph: Phase, n: Prop, outcomes: seq<Outcome>)
    returns (t: Sys)
    requires Leads(s0, s) && x in s.acc && y in s.acc && x != y && ph.Preparing?
    requires p in s.pro && s.pro[p] == Proposer(n, ph) && Enabled(s, FinishPrepare(p, outcomes))
    requires forall k :: 0 <= k < |outcomes| ==> Plain(outcomes[k])
    requires Answering(ph.nodes, outcomes) == [x, y] && IsMajority(ph.nodes, Elements([x, y]))
    requires s.acc[x].instanceH + 1 == ph.i == s.acc[y].instanceH + 1 && Ge(n, s.acc[x].nH) && Ge(n, s.acc[y].nH)
    ensures Leads(s0, t) && t.first == s.first && t.ballots == s.ballots && s.net <= t.net
    ensures t.pro == s.pro[p := Proposer(n, Accepting(ph.i, ph.nodes, ph.newv, [x, y]))]
    ensures var a, b := s.acc[x], s.acc[y];
      t.acc == s.acc[x := a.(nA := n, vA := ph.newv, log := a.log + [Accepted(n, ph.newv)])]
                    [y := b.(nA := n, vA := ph.newv, log := b.log + [Accepted(n, ph.newv)])]
    ensures AcceptOk(x, ph.i, n, ph.newv) in t.net && AcceptOk(y, ph.i, n, ph.newv) in t.net
  {
    t := DoCollect(s0, s, p, outcomes);
    assert x in [x, y] && y in [x, y];
    t := DoVote(s0, t, x, ph.i, n, ph.newv);
    t := DoVote(s0, t, y, ph.i, n, ph.newv);
  }

  // --------------------------------------------------------------- majorities and views

  lemma MajorityOfOne(x: Node, s: set<Node>)
    requires x in s
    ensures IsMajority([x], s)
  {
    assert CountIn([x], s) == 1 + CountIn([x][1..], s);
  }

  /** Two of at most three. */
  lemma MajorityOfTwo(l: seq<Node>, i: nat, j: nat, s: set<Node>)
    requires i < j < |l| <= 3 && l[i] in s && l[j] in s
    ensures IsMajority(l, s)
  {
    var m := l[1..];
    assert CountIn(l, s) == (if l[0] in s then 1 else 0) + CountIn(m, s);
    assert m[0] == l[1] && CountIn(m, s) == (if l[1] in s then 1 else 0) + CountIn(m[1..], s);
    if |l| == 3 {
      assert m[1..][0] == l[2] && CountIn(m[1..], s) == (if l[2] in s then 1 else 0) + CountIn(m[1..][1..], s);
    }
  }

  /** Values of views that differ in their last name are different. */
  lemma DifferentViews(l: seq<Node>, b: Node, c: Node)
    requires ProperNames(l) && TextStream.IsToken(b) && TextStream.IsToken(c) && b != c
    ensures Value(l + [b]) != Value(l + [c])
  {
    MembersOfValue(l + [b]);
    MembersOfValue(l + [c]);
    assert (l + [b])[|l|] != (l + [c])[|l|];
  }

  ghost predicate HasBallot(s: Sys, n: Prop, i: nat, nodes: seq<Node>) {
    n in s.ballots && s.ballots[n].i == i && s.ballots[n].nodes == nodes
  }

  lemma TwoChosen(s: Sys, i: nat, v: Text, w: Text)
    requires Chosen(s, i, v) && Chosen(s, i, w) && v != w
    ensures !OneChosen(s)
  {
  }

  lemma ChosenByOne(s: Sys, n: Prop, i: nat, x: Node, v: Text)
    requires HasBallot(s, n, i, [x]) && x in s.acc && AcceptOk(x, i, n, v) in s.net
    ensures Chosen(s, i, v)
  {
    MajorityOfOne(x, Voters(s, i, n, v));
    assert ChosenAt(s, i, n, v);
  }

  lemma ChosenByTwo(s: Sys, n: Prop, i: nat, l: seq<Node>, j: nat, k: nat, v: Text)
    requires HasBallot(s, n, i, l) && j < k < |l| <= 3 && l[j] in s.acc && l[k] in s.acc
    requires AcceptOk(l[j], i, n, v) in s.net && AcceptOk(l[k], i, n, v) in s.net
    ensures Chosen(s, i, v)
  {
    MajorityOfTwo(l, j, k, Voters(s, i, n, v));
    assert ChosenAt(s, i, n, v);
  }
}
