/** Paxos as a step system: any number of nodes, each with an acceptor and a
    proposer, any number of instances, and a network that may delay, reorder,
    duplicate and lose messages. Instance i is run by the members of the view
    committed as instance i - 1, so the set of nodes is itself agreed on. */
module PaxosSystem {
  import opened Views
  import opened Proposals
  import opened AcceptorModel
  import opened Quorum
  import opened ProposerModel

  datatype Phase =
    | Idle
    | Preparing(i: nat, nodes: seq<Node>, newv: Text)
    | Accepting(i: nat, nodes: seq<Node>, v: Text, targets: seq<Node>)

  datatype Proposer = Proposer(myN: Prop, phase: Phase)

  /** Everything ever sent. The instance of an accept and the number of a decide
      are not on the wire; the handlers do not see them. Of a dumped state only the log is
      on the wire. */
  datatype Msg =
    | PrepareMsg(to: Node, i: nat, n: Prop)
    | PrepareReply(from: Node, i: nat, n: Prop, r: PrepareRes)
    | AcceptMsg(to: Node, i: nat, n: Prop, v: Text)
    | AcceptOk(from: Node, i: nat, n: Prop, v: Text)
    | DecideMsg(to: Node, i: nat, n: Prop, v: Text)
    | LogMsg(dumped: Acceptor)

  /** A run that was started, by its number. */
  datatype Ballot = Ballot(i: nat, nodes: seq<Node>, change: Change) {
    function NewValue(): (v: Text) { Value(Changed(nodes, change)) }
  }

  /** A run that reached its accept phase, with the promises it rests on. */
  datatype Proposal = Proposal(v: Text, promises: seq<Promise>)

  datatype Sys = Sys(
    first: Node,
    acc: map<Node, Acceptor>,
    pro: map<Node, Proposer>,
    net: set<Msg>,
    ballots: map<Prop, Ballot>,
    props: map<Prop, Proposal>)

  datatype Event =
    | Start(p: Node, i: nat, change: Change)
    | FinishPrepare(p: Node, outcomes: seq<Outcome>)
    | FinishAccept(p: Node, oks: seq<bool>)
    | DeliverPrepare(b: Node, i: nat, n: Prop)
    | DeliverAccept(b: Node, i: nat, n: Prop, v: Text)
    | DeliverDecide(b: Node, i: nat, n: Prop, v: Text)
    | Restart(b: Node)
    | Dump(b: Node)
    | Rejoin(b: Node, dumped: Acceptor)

  ghost predicate Init(s: Sys) {
    && s.first in s.acc && s.acc.Keys == s.pro.Keys
    && (forall b :: b in s.acc ==> s.acc[b] == Boot(b, b == s.first, s.first, []))
    && (forall p :: p in s.pro ==> s.pro[p] == Proposer(Prop(0, p), Idle))
    && s.net == {} && s.ballots == map[] && s.props == map[]
  }

  /** The changes that a node proposes: a node that asked to join and is not a member,
      under a proper name, or the removal of another member than itself. */
  predicate MayPropose(nodes: seq<Node>, p: Node, c: Change) {
    match c
    case Add(m) => m !in nodes && TextStream.IsToken(m)
    case Remove(m) => m != p && p in nodes
  }

  /** What the code can do. A reply that a proposer uses was sent; a run proposes a
      change of the view its node has committed. */
  ghost predicate Enabled(s: Sys, e: Event) {
    match e
    case Start(p, i, change) =>
      && p in s.acc && p in s.pro && s.pro[p].phase.Idle? && 2 <= i <= s.acc[p].instanceH + 1
      && MayPropose(Members(ValueOf(s.acc[p], i - 1)), p, change)
    case FinishPrepare(p, outcomes) =>
      && p in s.acc && p in s.pro && s.pro[p].phase.Preparing?
      && var ph := s.pro[p].phase;
      && |outcomes| == |ph.nodes|
      && forall k :: 0 <= k < |outcomes| && outcomes[k].Reply? ==>
           PrepareReply(ph.nodes[k], ph.i, s.pro[p].myN, outcomes[k].r) in s.net
    case FinishAccept(p, oks) =>
      && p in s.pro && s.pro[p].phase.Accepting?
      && var ph := s.pro[p].phase;
      && |oks| == |ph.targets|
      && forall k :: 0 <= k < |oks| && oks[k] ==> AcceptOk(ph.targets[k], ph.i, s.pro[p].myN, ph.v) in s.net
    case DeliverPrepare(b, i, n) => b in s.acc && PrepareMsg(b, i, n) in s.net
    case DeliverAccept(b, i, n, v) => b in s.acc && AcceptMsg(b, i, n, v) in s.net
    case DeliverDecide(b, i, n, v) => b in s.acc && DecideMsg(b, i, n, v) in s.net
    case Restart(b) => b in s.acc
    case Dump(b) => b in s.acc && s.acc[b].instanceH >= 1
    case Rejoin(b, dumped) => b in s.acc && LogMsg(dumped) in s.net
  }

  ghost function Next(s: Sys, e: Event): (s': Sys)
    requires Enabled(s, e)
  {
    match e
    case Start(p, i, change) =>
      var nodes := Members(ValueOf(s.acc[p], i - 1));
      var n := NextNumber(s.pro[p].myN, s.acc[p].nH);
      var b := Ballot(i, nodes, change);
      s.(pro := s.pro[p := Proposer(n, Preparing(i, nodes, b.NewValue()))],
         net := s.net + (set x | x in nodes :: PrepareMsg(x, i, n)),
         ballots := s.ballots[n := b])
    case FinishPrepare(p, outcomes) =>
      var ph, n := s.pro[p].phase, s.pro[p].myN;
      var c := Collect(ph.nodes, outcomes);
      var idle := s.(pro := s.pro[p := Proposer(n, Idle)]);
      if c.Rejected? then
        idle.(acc := s.acc[p := Commit(s.acc[p], ph.i, c.v)])
      else if IsMajority(ph.nodes, Elements(Promisers(c.promises))) then
        var v := ToPropose(c.v, ph.newv);
        var targets := Promisers(c.promises);
        s.(pro := s.pro[p := Proposer(n, Accepting(ph.i, ph.nodes, v, targets))],
           net := s.net + (set x | x in targets :: AcceptMsg(x, ph.i, n, v)),
           props := s.props[n := Proposal(v, c.promises)])
      else idle
    case FinishAccept(p, oks) =>
      var ph, n := s.pro[p].phase, s.pro[p].myN;
      var yes := Accepters(ph.targets, oks);
      var idle := s.(pro := s.pro[p := Proposer(n, Idle)]);
      if IsMajority(ph.nodes, Elements(yes)) then
        idle.(net := s.net + (set x | x in yes :: DecideMsg(x, ph.i, n, ph.v)))
      else idle
    case DeliverPrepare(b, i, n) =>
      var r := Prepare(s.acc[b], i, n);
      s.(acc := s.acc[b := r.0], net := s.net + {PrepareReply(b, i, n, r.1)})
    case DeliverAccept(b, i, n, v) =>
      var r := Accept(s.acc[b], n, v);
      s.(acc := s.acc[b := r.0], net := s.net + (if r.1 then {AcceptOk(b, i, n, v)} else {}))
    case DeliverDecide(b, i, n, v) =>
      if DecideAsserts(s.acc[b], i, v) then s.(acc := s.acc[b := Decide(s.acc[b], i, v)])
      else s.(acc := s.acc[b := Boot(b, b == s.first, s.first, s.acc[b].log)])
    case Restart(b) =>
      s.(acc := s.acc[b := Boot(b, b == s.first, s.first, s.acc[b].log)])
    case Dump(b) => s.(net := s.net + {LogMsg(s.acc[b])})
    case Rejoin(b, dumped) =>
      s.(acc := s.acc[b := Restore(s.acc[b], dumped.log)])
  }

  /** What a run must respect for agreement: an acceptor is not behind the instance of a
      prepare it grants, and grants an accept in the instance it has open; and a node
      that takes over a log, however old, loses neither a commit nor a promise of its
      own. */
  ghost predicate Orderly(s: Sys, e: Event)
    requires Enabled(s, e)
  {
    match e
    case DeliverPrepare(b, i, n) =>
      i <= s.acc[b].instanceH + 1 || !Gt(n, s.acc[b].nH)
    case DeliverAccept(b, i, n, v) =>
      i == s.acc[b].instanceH + 1 || !Ge(n, s.acc[b].nH)
    case Rejoin(b, dumped) =>
      || s.acc[b].instanceH < dumped.instanceH
      || (s.acc[b].instanceH == dumped.instanceH && s.acc[b].nH.n == 0)
    case _ => true
  }

  /** A run: every event is possible where it happens. */
  ghost predicate IsRun(s: Sys, es: seq<Event>)
    decreases es
  {
    es == [] || (Enabled(s, es[0]) && IsRun(Next(s, es[0]), es[1..]))
  }

  ghost predicate OrderlyRun(s: Sys, es: seq<Event>)
    decreases es
    requires IsRun(s, es)
  {
    es == [] || (Orderly(s, es[0]) && OrderlyRun(Next(s, es[0]), es[1..]))
  }

  ghost function After(s: Sys, es: seq<Event>): (s': Sys)
    decreases es
    requires IsRun(s, es)
  {
    if es == [] then s else After(Next(s, es[0]), es[1..])
  }

  // ---------------------------------------------------------------- what is chosen

  ghost function Voters(s: Sys, i: nat, n: Prop, v: Text): (r: set<Node>) {
    set b | b in s.acc && AcceptOk(b, i, n, v) in s.net
  }

  /** A majority of the run's nodes voted for its value. */
  ghost predicate ChosenAt(s: Sys, i: nat, n: Prop, v: Text) {
    && n in s.ballots && s.ballots[n].i == i
    && IsMajority(s.ballots[n].nodes, Voters(s, i, n, v))
  }

  ghost predicate Chosen(s: Sys, i: nat, v: Text) {
    exists n :: ChosenAt(s, i, n, v)
  }

  /** No two nodes have committed different values for one instance. */
  ghost predicate Agreement(s: Sys) {
    forall a, b, i :: a in s.acc && b in s.acc && i in s.acc[a].values && i in s.acc[b].values ==>
      s.acc[a].values[i] == s.acc[b].values[i]
  }

  /** At most one value is chosen in each instance. */
  ghost predicate OneChosen(s: Sys) {
    forall i, v, w :: Chosen(s, i, v) && Chosen(s, i, w) ==> v == w
  }
}
