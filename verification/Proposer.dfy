/** The Paxos proposer: what one run makes of the replies it gets. A remote call
    that fails (no binding, time-out, error status) is an outcome of its own. */
module ProposerModel {
  import opened Views
  import opened Proposals
  import opened AcceptorModel
  import opened Quorum

  datatype Outcome = Failed | Reply(r: PrepareRes)

  /** A promise as the proposer keeps it. */
  datatype Promise = Promise(from: Node, nA: Prop, vA: Text)

  /** What the prepare loop ends with: a committed value reported by a node that is
      ahead, or the promises with the value to propose ("" for none). */
  datatype Collected =
    | Rejected(v: Text)
    | Promised(promises: seq<Promise>, v: Text, maxN: Prop)

  function Promisers(ps: seq<Promise>): (l: seq<Node>)
    ensures |l| == |ps| && forall k :: 0 <= k < |l| ==> l[k] == ps[k].from
  {
    seq(|ps|, k requires 0 <= k < |ps| => ps[k].from)
  }

  /** One turn of the prepare loop. */
  function CollectOne(c: Collected, node: Node, o: Outcome): (r: Collected) {
    if c.Rejected? || o.Failed? then c
    else if o.r.oldinstance then Rejected(o.r.vA)
    else if !o.r.accept then c
    else
      var ps := c.promises + [Promise(node, o.r.nA, o.r.vA)];
      if Gt(o.r.nA, c.maxN) then Promised(ps, o.r.vA, o.r.nA) else c.(promises := ps)
  }

  function Collect(nodes: seq<Node>, outcomes: seq<Outcome>): (c: Collected)
    requires |nodes| == |outcomes|
  {
    if nodes == [] then Promised([], "", Prop(0, ""))
    else
      var k := |nodes| - 1;
      CollectOne(Collect(nodes[..k], outcomes[..k]), nodes[k], outcomes[k])
  }

  /** `v` is the value of the highest vote among the promises, or empty if none of
      the promisers had voted. */
  predicate HighestVote(ps: seq<Promise>, v: Text) {
    if exists k :: 0 <= k < |ps| && ps[k].nA.n > 0 then
      exists k :: 0 <= k < |ps| && ps[k].nA.n > 0 && ps[k].vA == v
        && forall j :: 0 <= j < |ps| ==> Ge(ps[k].nA, ps[j].nA)
    else v == ""
  }

  /** An acceptor that has not voted reports the empty value. */
  predicate HonestReply(o: Outcome) {
    o.Reply? && o.r.accept && o.r.nA.n == 0 ==> o.r.vA == ""
  }

  /** The loop's invariant: `maxN` is the highest reported number so far and `v` its value. */
  predicate Tracks(c: Collected) {
    c.Promised? ==>
      && (forall j :: 0 <= j < |c.promises| ==> Ge(c.maxN, c.promises[j].nA))
      && (c.maxN.n == 0 ==> c.v == "")
      && (c.maxN.n > 0 ==> exists k :: 0 <= k < |c.promises| && c.promises[k].nA == c.maxN && c.promises[k].vA == c.v)
  }

  lemma TracksOne(c: Collected, node: Node, o: Outcome)
    requires Tracks(c) && HonestReply(o)
    ensures Tracks(CollectOne(c, node, o))
  {
    OrderLaws();
    var d := CollectOne(c, node, o);
    if c.Promised? && d.Promised? && d != c {
      var last := |d.promises| - 1;
      assert d.promises[last] == Promise(node, o.r.nA, o.r.vA);
      forall j | 0 <= j < |d.promises|
        ensures Ge(d.maxN, d.promises[j].nA)
      {
        if j < last { assert d.promises[j] == c.promises[j]; }
      }
      if d.maxN == c.maxN && c.maxN.n > 0 {
        var k :| 0 <= k < |c.promises| && c.promises[k].nA == c.maxN && c.promises[k].vA == c.v;
        assert d.promises[k] == c.promises[k];
      }
    }
  }

  lemma {:induction false} CollectTracks(nodes: seq<Node>, outcomes: seq<Outcome>)
    requires |nodes| == |outcomes|
    requires forall k :: 0 <= k < |outcomes| ==> HonestReply(outcomes[k])
    ensures Tracks(Collect(nodes, outcomes))
  {
    OrderLaws();
    if nodes != [] {
      var k := |nodes| - 1;
      CollectTracks(nodes[..k], outcomes[..k]);
      TracksOne(Collect(nodes[..k], outcomes[..k]), nodes[k], outcomes[k]);
    }
  }

  /** The loop ends with the value of the highest vote among the promisers. */
  lemma CollectHighest(nodes: seq<Node>, outcomes: seq<Outcome>)
    requires |nodes| == |outcomes|
    requires forall k :: 0 <= k < |outcomes| ==> HonestReply(outcomes[k])
    ensures var c := Collect(nodes, outcomes); c.Promised? ==> HighestVote(c.promises, c.v)
  {
    CollectTracks(nodes, outcomes);
    var c := Collect(nodes, outcomes);
    if c.Promised? {
      if exists k :: 0 <= k < |c.promises| && c.promises[k].nA.n > 0 {
        var k :| 0 <= k < |c.promises| && c.promises[k].nA.n > 0;
        assert Ge(c.maxN, c.promises[k].nA);
      } else if c.maxN.n > 0 {
        assert false;
      }
    }
  }

  /** The k-th call was answered with exactly this promise. */
  predicate GrantedAt(nodes: seq<Node>, outcomes: seq<Outcome>, p: Promise, k: nat)
    requires |nodes| == |outcomes|
  {
    k < |nodes| && nodes[k] == p.from && outcomes[k] == Reply(PrepareRes(false, true, p.nA, p.vA))
  }

  /** The k-th node is ahead and reported the committed value `v`. */
  predicate AheadAt(outcomes: seq<Outcome>, v: Text, k: nat) {
    k < |outcomes| && outcomes[k].Reply? && outcomes[k].r.oldinstance && outcomes[k].r.vA == v
  }

  /** Each promise is a reply that granted one, and a rejection is a reply of a
      node that is ahead. */
  lemma {:induction false} CollectOrigin(nodes: seq<Node>, outcomes: seq<Outcome>)
    requires |nodes| == |outcomes|
    ensures var c := Collect(nodes, outcomes);
      c.Promised? ==> forall p :: p in c.promises ==> exists k :: GrantedAt(nodes, outcomes, p, k)
    ensures var c := Collect(nodes, outcomes);
      c.Rejected? ==> exists k :: AheadAt(outcomes, c.v, k)
  {
    if nodes != [] {
      var last := |nodes| - 1;
      var front, fronto := nodes[..last], outcomes[..last];
      CollectOrigin(front, fronto);
      var b := Collect(front, fronto);
      var c := Collect(nodes, outcomes);
      if c.Promised? {
        forall p | p in c.promises
          ensures exists k :: GrantedAt(nodes, outcomes, p, k)
        {
          if p in b.promises {
            var k :| GrantedAt(front, fronto, p, k);
            assert GrantedAt(nodes, outcomes, p, k);
          } else {
            assert GrantedAt(nodes, outcomes, p, last);
          }
        }
      } else if b.Rejected? {
        var k :| AheadAt(fronto, b.v, k);
        assert AheadAt(outcomes, c.v, k);
      } else {
        assert AheadAt(outcomes, c.v, last);
      }
    }
  }

  /** Node `k` is ahead. */
  predicate IsAhead(outcomes: seq<Outcome>, k: nat) {
    k < |outcomes| && outcomes[k].Reply? && outcomes[k].r.oldinstance
  }

  /** Node `k` granted the promise. */
  predicate IsGranted(outcomes: seq<Outcome>, k: nat) {
    k < |outcomes| && outcomes[k].Reply? && !outcomes[k].r.oldinstance && outcomes[k].r.accept
  }

  /** The positions `at` are all those of the granted promises, in order, and the
      promises are their replies. */
  predicate IsHarvest(nodes: seq<Node>, outcomes: seq<Outcome>, ps: seq<Promise>, at: seq<nat>)
    requires |nodes| == |outcomes|
  {
    && Picks(at, |nodes|) && |ps| == |at|
    && (forall k :: 0 <= k < |nodes| ==> (k in at <==> IsGranted(outcomes, k)))
    && (forall j :: 0 <= j < |at| ==> GrantedAt(nodes, outcomes, ps[j], at[j]))
  }

  lemma HarvestMore(nodes: seq<Node>, outcomes: seq<Outcome>, ps: seq<Promise>, at: seq<nat>)
    requires |nodes| == |outcomes| && nodes != [] && IsGranted(outcomes, |nodes| - 1)
    requires IsHarvest(nodes[..|nodes| - 1], outcomes[..|nodes| - 1], ps, at)
    ensures var last := |nodes| - 1;
      var p := Promise(nodes[last], outcomes[last].r.nA, outcomes[last].r.vA);
      IsHarvest(nodes, outcomes, ps + [p], at + [last])
  {
    var last := |nodes| - 1;
    HarvestFront(nodes, outcomes, ps, at);
    PicksNext(at, last);
  }

  /** What a harvest of all but the last node says about the whole. */
  lemma HarvestFront(nodes: seq<Node>, outcomes: seq<Outcome>, ps: seq<Promise>, at: seq<nat>)
    requires |nodes| == |outcomes| && nodes != []
    requires IsHarvest(nodes[..|nodes| - 1], outcomes[..|nodes| - 1], ps, at)
    ensures forall k :: 0 <= k < |nodes| - 1 ==> (k in at <==> IsGranted(outcomes, k))
    ensures forall j :: 0 <= j < |at| ==> GrantedAt(nodes, outcomes, ps[j], at[j])
  {
    var last := |nodes| - 1;
    forall k | 0 <= k < last
      ensures k in at <==> IsGranted(outcomes, k)
    {
      assert IsGranted(outcomes, k) <==> IsGranted(outcomes[..last], k);
    }
    forall j | 0 <= j < |at|
      ensures GrantedAt(nodes, outcomes, ps[j], at[j])
    {
      assert GrantedAt(nodes[..last], outcomes[..last], ps[j], at[j]);
    }
  }

  /** Exactly what the prepare loop collects. It stops if and only if some node is
      ahead, with the value of the first such node; otherwise it has the promise of
      every node that granted one, in order, and no other. */
  lemma {:induction false} CollectExact(nodes: seq<Node>, outcomes: seq<Outcome>) returns (at: seq<nat>, ahead: nat)
    requires |nodes| == |outcomes|
    ensures var c := Collect(nodes, outcomes);
      && (c.Rejected? <==> exists k: nat :: IsAhead(outcomes, k))
      && (c.Rejected? ==> AheadAt(outcomes, c.v, ahead) && forall k: nat :: k < ahead ==> !IsAhead(outcomes, k))
      && (c.Promised? ==> IsHarvest(nodes, outcomes, c.promises, at))
  {
    at, ahead := [], 0;
    if nodes != [] {
      var last := |nodes| - 1;
      at, ahead := CollectExact(nodes[..last], outcomes[..last]);
      assert forall k: nat :: k < last ==> (IsAhead(outcomes, k) <==> IsAhead(outcomes[..last], k));
      if Collect(nodes[..last], outcomes[..last]).Promised? {
        if IsAhead(outcomes, last) {
          ahead := last;
        } else if IsGranted(outcomes, last) {
          HarvestMore(nodes, outcomes, Collect(nodes[..last], outcomes[..last]).promises, at);
          at := at + [last];
        } else {
          HarvestFront(nodes, outcomes, Collect(nodes[..last], outcomes[..last]).promises, at);
        }
      } else {
        assert IsAhead(outcomes, ahead);
      }
    }
  }

  /** The targets of the accept loop that answered yes. */
  function Accepters(targets: seq<Node>, oks: seq<bool>): (l: seq<Node>)
    requires |targets| == |oks|
  {
    if targets == [] then []
    else
      var k := |targets| - 1;
      Accepters(targets[..k], oks[..k]) + (if oks[k] then [targets[k]] else [])
  }

  lemma {:induction false} AcceptersOrigin(targets: seq<Node>, oks: seq<bool>)
    requires |targets| == |oks|
    ensures forall x :: x in Accepters(targets, oks) ==> exists k :: 0 <= k < |targets| && targets[k] == x && oks[k]
  {
    if targets != [] {
      var last := |targets| - 1;
      AcceptersOrigin(targets[..last], oks[..last]);
      forall x | x in Accepters(targets, oks)
        ensures exists k :: 0 <= k < |targets| && targets[k] == x && oks[k]
      {
        if x in Accepters(targets[..last], oks[..last]) {
          var k :| 0 <= k < last && targets[..last][k] == x && oks[..last][k];
          assert targets[k] == x && oks[k];
        } else {
          assert targets[last] == x && oks[last];
        }
      }
    }
  }

  /** The positions `at` are all those of a yes, in order, and `l` are their targets. */
  predicate IsYes(targets: seq<Node>, oks: seq<bool>, l: seq<Node>, at: seq<nat>)
    requires |targets| == |oks|
  {
    && Picks(at, |targets|) && |l| == |at|
    && (forall j :: 0 <= j < |at| ==> l[j] == targets[at[j]])
    && (forall k :: 0 <= k < |oks| ==> (k in at <==> oks[k]))
  }

  lemma YesMore(targets: seq<Node>, oks: seq<bool>, l: seq<Node>, at: seq<nat>)
    requires |targets| == |oks| && targets != []
    requires IsYes(targets[..|targets| - 1], oks[..|targets| - 1], l, at)
    ensures var last := |targets| - 1;
      if oks[last] then IsYes(targets, oks, l + [targets[last]], at + [last]) else IsYes(targets, oks, l, at)
  {
    var last := |targets| - 1;
    PicksNext(at, last);
    forall k | 0 <= k < last
      ensures k in at <==> oks[k]
    {
      assert oks[..last][k] == oks[k];
    }
    forall j | 0 <= j < |at|
      ensures l[j] == targets[at[j]]
    {
      assert targets[..last][at[j]] == targets[at[j]];
    }
  }

  /** Exactly who is counted: every target that answered yes, in order, and no other. */
  lemma {:induction false} AcceptersExact(targets: seq<Node>, oks: seq<bool>) returns (at: seq<nat>)
    requires |targets| == |oks|
    ensures IsYes(targets, oks, Accepters(targets, oks), at)
  {
    at := [];
    if targets != [] {
      var last := |targets| - 1;
      at := AcceptersExact(targets[..last], oks[..last]);
      YesMore(targets, oks, Accepters(targets[..last], oks[..last]), at);
      if oks[last] { at := at + [last]; }
    }
  }

  /** The number of the next run: above the last one used and above the highest
      number the node's own acceptor has promised. */
  function NextNumber(myN: Prop, nH: Prop): (n: Prop) {
    myN.(n := if nH.n + 1 > myN.n + 1 then nH.n + 1 else myN.n + 1)
  }

  /** The value of the accept phase: the collected one, or the caller's if there is none. */
  function ToPropose(v: Text, newv: Text): (r: Text) {
    if v == "" then newv else v
  }

  // ------------------------------------------------------------ the live object

  /** What a run sent: the value a node that was ahead reported (committed locally),
      or the value proposed and the nodes told about the decision. */
  datatype RunResult = RunResult(rejected: bool, v: Text, targets: seq<Node>, decided: seq<Node>, r: bool)

  class ProposerNode {
    const me: Node
    var myN: Prop
    var stable: bool

    constructor (me: Node)
      ensures this.me == me && myN == Prop(0, me) && stable
    {
      this.me := me;
      myN := Prop(0, me);
      stable := true;
    }

    method SetN(nH: Prop)
      modifies this`myN
      ensures myN == NextNumber(old(myN), nH)
      ensures myN.m == old(myN).m && myN.n > old(myN).n && myN.n > nH.n
      ensures myN.n == old(myN).n + 1 || myN.n == nH.n + 1
    {
      myN := myN.(n := if nH.n + 1 > myN.n + 1 then nH.n + 1 else myN.n + 1);
    }

    /** `run`, given the outcomes of its remote calls; `oks[k]` is the answer to
        the k-th accept request. */
    method Run(nH: Prop, nodes: seq<Node>, newv: Text, outcomes: seq<Outcome>, oks: seq<bool>)
      returns (res: RunResult)
      requires |outcomes| == |nodes| && |oks| == |nodes|
      modifies this
      ensures !old(stable) ==> !res.r && myN == old(myN) && !stable
      ensures old(stable) ==> stable && myN == NextNumber(old(myN), nH)
      ensures old(stable) ==>
        var c := Collect(nodes, outcomes);
        if c.Rejected? then res == RunResult(true, c.v, [], [], false)
        else
          var l := Promisers(c.promises);
          if !IsMajority(nodes, Elements(l)) then !res.rejected && res.targets == [] && !res.r
          else
            && |l| <= |oks|
            && !res.rejected && res.v == ToPropose(c.v, newv) && res.targets == l
            && (res.r <==> IsMajority(nodes, Elements(Accepters(l, oks[..|l|]))))
            && (res.r ==> res.decided == Accepters(l, oks[..|l|]))
    {
      res := RunResult(false, "", [], [], false);
      if !stable { return; }
      stable := false;
      SetN(nH);
      var rejected, promises, v := PrepareCalls(nodes, outcomes);
      var accepts := Promisers(promises);
      if !rejected {
        var quorum := Majority(nodes, accepts);
        if quorum {
          if |v| == 0 { v := newv; }
          CollectLength(nodes, outcomes);
          var accepted := AcceptCalls(accepts, oks[..|accepts|]);
          quorum := Majority(nodes, accepted);
          res := RunResult(false, v, accepts, if quorum then accepted else [], quorum);
        }
      } else {
        res := RunResult(true, v, [], [], false);
      }
      stable := true;
    }

    /** The loop of `prepare`. */
    method PrepareCalls(nodes: seq<Node>, outcomes: seq<Outcome>)
      returns (rejected: bool, promises: seq<Promise>, v: Text)
      requires |outcomes| == |nodes|
      ensures var c := Collect(nodes, outcomes);
        rejected == c.Rejected? && v == c.v && (c.Promised? ==> promises == c.promises)
    {
      promises, v := [], "";
      var maxN := Prop(0, "");
      for i := 0 to |nodes|
        invariant Collect(nodes[..i], outcomes[..i]) == Promised(promises, v, maxN)
      {
        assert nodes[..i + 1][..i] == nodes[..i] && outcomes[..i + 1][..i] == outcomes[..i];
        if outcomes[i].Reply? {
          var r := outcomes[i].r;
          if r.oldinstance {
            v := r.vA;
            CollectRejected(nodes, outcomes, i + 1);
            return true, promises, v;
          }
          if r.accept {
            promises := promises + [Promise(nodes[i], r.nA, r.vA)];
            if Gt(r.nA, maxN) {
              v := r.vA;
              maxN := r.nA;
            }
          }
        }
      }
      assert nodes[..|nodes|] == nodes && outcomes[..|outcomes|] == outcomes;
      rejected := false;
    }

    /** The loop of `accept`. */
    method AcceptCalls(targets: seq<Node>, oks: seq<bool>) returns (accepts: seq<Node>)
      requires |oks| == |targets|
      ensures accepts == Accepters(targets, oks)
    {
      accepts := [];
      for i := 0 to |targets|
        invariant accepts == Accepters(targets[..i], oks[..i])
      {
        assert targets[..i + 1][..i] == targets[..i] && oks[..i + 1][..i] == oks[..i];
        if oks[i] { accepts := accepts + [targets[i]]; }
      }
      assert targets[..|targets|] == targets && oks[..|oks|] == oks;
    }
  }

  /** Once rejected, the outcome stays. */
  lemma {:induction false} CollectRejected(nodes: seq<Node>, outcomes: seq<Outcome>, i: nat)
    requires |nodes| == |outcomes| && i <= |nodes|
    requires Collect(nodes[..i], outcomes[..i]).Rejected?
    ensures Collect(nodes, outcomes) == Collect(nodes[..i], outcomes[..i])
    decreases |nodes|
  {
    if i == |nodes| {
      assert nodes[..i] == nodes && outcomes[..i] == outcomes;
    } else {
      var k := |nodes| - 1;
      assert nodes[..k][..i] == nodes[..i] && outcomes[..k][..i] == outcomes[..i];
      CollectRejected(nodes[..k], outcomes[..k], i);
    }
  }

  lemma {:induction false} CollectLength(nodes: seq<Node>, outcomes: seq<Outcome>)
    requires |nodes| == |outcomes|
    ensures var c := Collect(nodes, outcomes); c.Promised? ==> |c.promises| <= |nodes|
  {
    if nodes != [] {
      var k := |nodes| - 1;
      CollectLength(nodes[..k], outcomes[..k]);
    }
  }
}
