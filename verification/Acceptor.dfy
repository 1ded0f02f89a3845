/** The Paxos acceptor, its durable log, and the replay of that log. */
module AcceptorModel {
  import opened Views
  import opened Proposals

  type Text = string

  /** One line of the log file. */
  datatype Record =
    | Done(instance: nat, v: Text)
    | PropSeen(n: Prop)
    | Accepted(n: Prop, v: Text)

  /** The acceptor's fields; `log` is the content of the log file. An entry that
      is absent from `values` reads as the empty string. */
  datatype Acceptor = Acceptor(
    me: Node,
    nH: Prop,
    nA: Prop,
    vA: Text,
    instanceH: nat,
    values: map<nat, Text>,
    log: seq<Record>)

  datatype PrepareRes = PrepareRes(oldinstance: bool, accept: bool, nA: Prop, vA: Text)

  function ValueOf(a: Acceptor, instance: nat): (v: Text) {
    if instance in a.values then a.values[instance] else ""
  }

  function Initial(me: Node): (a: Acceptor) {
    Acceptor(me, Prop(0, me), Prop(0, me), "", 0, map[], [])
  }

  // ------------------------------------------------------------------ handlers

  function Prepare(a: Acceptor, instance: nat, n: Prop): (r: (Acceptor, PrepareRes)) {
    if instance <= a.instanceH then
      (a, PrepareRes(true, false, Prop(0, ""), ValueOf(a, instance)))
    else if Gt(n, a.nH) then
      (a.(nH := n, log := a.log + [PropSeen(n)]), PrepareRes(false, true, a.nA, a.vA))
    else
      (a, PrepareRes(false, false, a.nA, a.vA))
  }

  /** The handler sees neither the instance of the request nor its sender. */
  function Accept(a: Acceptor, n: Prop, v: Text): (r: (Acceptor, bool)) {
    if Ge(n, a.nH) then (a.(nA := n, vA := v, log := a.log + [Accepted(n, v)]), true)
    else (a, false)
  }

  function Commit(a: Acceptor, instance: nat, v: Text): (r: Acceptor) {
    if instance > a.instanceH then
      a.(values := a.values[instance := v], log := a.log + [Done(instance, v)],
         instanceH := instance, nH := Prop(0, a.me), nA := Prop(0, a.me), vA := "")
    else a
  }

  /** The two assertions of the decide handler. */
  predicate DecideAsserts(a: Acceptor, instance: nat, v: Text) {
    instance <= a.instanceH + 1 && (instance == a.instanceH + 1 ==> a.vA == v)
  }

  function Decide(a: Acceptor, instance: nat, v: Text): (r: Acceptor)
    requires DecideAsserts(a, instance, v)
  {
    if instance == a.instanceH + 1 then Commit(a, instance, a.vA) else a
  }

  // -------------------------------------------------------------------- replay

  /** One turn of the loop of `log::logread`: the fields it overwrites. */
  function ReplayRecord(a: Acceptor, r: Record): (a': Acceptor) {
    match r
    case Done(i, v) =>
      a.(values := a.values[i := v], instanceH := i, vA := "", nH := a.nH.(n := 0), nA := a.nA.(n := 0))
    case PropSeen(n) => a.(nH := n)
    case Accepted(n, v) => a.(nA := n, vA := v)
  }

  function Replay(a: Acceptor, log: seq<Record>): (a': Acceptor)
    ensures a'.me == a.me && a'.log == a.log
  {
    if log == [] then a
    else ReplayRecord(Replay(a, log[..|log| - 1]), log[|log| - 1])
  }

  /** The constructor on a node whose file holds `log`. */
  function Boot(me: Node, first: bool, value: Text, log: seq<Record>): (a: Acceptor) {
    var r := Replay(Initial(me), log).(log := log);
    if r.instanceH == 0 && first then
      r.(values := r.values[1 := value], log := r.log + [Done(1, value)], instanceH := 1)
    else r
  }

  /** `acceptor::restore`: the file is replaced and read into the live fields. */
  function Restore(a: Acceptor, log: seq<Record>): (r: Acceptor) {
    Replay(a, log).(log := log)
  }

  // -------------------------------------------------------------- equivalence

  predicate SameProp(a: Prop, b: Prop) {
    a == b || (a.n == 0 && b.n == 0)
  }

  /** Equal except for the node name of a proposal numbered 0. */
  predicate Same(a: Acceptor, b: Acceptor) {
    && a.me == b.me
    && SameProp(a.nH, b.nH) && SameProp(a.nA, b.nA) && a.vA == b.vA
    && a.instanceH == b.instanceH && a.values == b.values
  }

  /** The log rebuilds the live state. */
  predicate Durable(a: Acceptor) {
    Same(Replay(Initial(a.me), a.log), a)
  }

  lemma ReplayAppend(a: Acceptor, log: seq<Record>, r: Record)
    ensures Replay(a, log + [r]) == ReplayRecord(Replay(a, log), r)
  {
    assert (log + [r])[..|log + [r]| - 1] == log;
  }

  /** Every handler writes to the log what replay needs. */
  lemma HandlersAreDurable(a: Acceptor, instance: nat, n: Prop, v: Text)
    requires Durable(a)
    ensures Durable(Prepare(a, instance, n).0)
    ensures Durable(Accept(a, n, v).0)
    ensures Durable(Commit(a, instance, v))
  {
    var i := Initial(a.me);
    ReplayAppend(i, a.log, PropSeen(n));
    ReplayAppend(i, a.log, Accepted(n, v));
    ReplayAppend(i, a.log, Done(instance, v));
  }

  lemma BootIsDurable(me: Node, first: bool, value: Text, log: seq<Record>)
    requires Replay(Initial(me), log).instanceH == 0 ==> log == []
    ensures Durable(Boot(me, first, value, log))
  {
    ReplayAppend(Initial(me), log, Done(1, value));
  }

  /** The name that replay may change in a proposal numbered 0 is invisible: from
      states that are the same up to it, every request of a proposer (whose
      numbers start at 1) gets the same promise, the same vote and the same
      decision, and leads to states that are the same again. */
  lemma SameDecisions(a: Acceptor, b: Acceptor, instance: nat, n: Prop, v: Text)
    requires Same(a, b) && n.n >= 1
    ensures var p, q := Prepare(a, instance, n), Prepare(b, instance, n);
      && Same(p.0, q.0)
      && p.1.oldinstance == q.1.oldinstance && p.1.accept == q.1.accept
      && SameProp(p.1.nA, q.1.nA) && p.1.vA == q.1.vA
    ensures var p, q := Accept(a, n, v), Accept(b, n, v); Same(p.0, q.0) && p.1 == q.1
    ensures Same(Commit(a, instance, v), Commit(b, instance, v))
    ensures a.log == b.log ==>
      && Prepare(a, instance, n).0.log == Prepare(b, instance, n).0.log
      && Accept(a, n, v).0.log == Accept(b, n, v).0.log
      && Commit(a, instance, v).log == Commit(b, instance, v).log
    ensures DecideAsserts(a, instance, v) == DecideAsserts(b, instance, v)
  {
  }

  predicate HasDone(log: seq<Record>) {
    exists k :: 0 <= k < |log| && log[k].Done?
  }

  lemma HasDoneFront(log: seq<Record>)
    requires log != []
    ensures HasDone(log) <==> log[|log| - 1].Done? || HasDone(log[..|log| - 1])
  {
    var front := log[..|log| - 1];
    if HasDone(front) {
      var k :| 0 <= k < |front| && front[k].Done?;
      assert log[k].Done?;
    }
    if HasDone(log) && !log[|log| - 1].Done? {
      var k :| 0 <= k < |log| && log[k].Done?;
      assert front[k].Done?;
    }
  }

  /** Reading a log with a committed instance into any fields gives the fields the
      log alone stands for; only committed values that the log lacks are kept. */
  lemma {:induction false} ReplayOver(x: Acceptor, log: seq<Record>)
    ensures var r, s := Replay(x, log), Replay(Initial(x.me), log);
      && r.values == x.values + s.values
      && (HasDone(log) ==>
            && r.instanceH == s.instanceH && r.vA == s.vA
            && SameProp(r.nH, s.nH) && SameProp(r.nA, s.nA))
      && (!HasDone(log) ==>
            r.instanceH == x.instanceH && s.instanceH == 0 && s.values == map[])
  {
    if log != [] {
      ReplayOver(x, log[..|log| - 1]);
      HasDoneFront(log);
    }
  }

  // ------------------------------------------------------------ the live object

  /** The acceptor of one node: the fields that the handlers update in place. */
  class AcceptorNode {
    const me: Node
    var nH: Prop
    var nA: Prop
    var vA: Text
    var instanceH: nat
    var values: map<nat, Text>
    var log: seq<Record>

    ghost function State(): (a: Acceptor)
      reads this
    {
      Acceptor(me, nH, nA, vA, instanceH, values, log)
    }

    constructor (me: Node, first: bool, value: Text, file: seq<Record>)
      ensures State() == Boot(me, first, value, file)
    {
      this.me := me;
      nH, nA, vA, instanceH, values, log := Prop(0, me), Prop(0, me), "", 0, map[], file;
      new;
      ReplayIgnoresLog(Initial(me), State(), file);
      LogRead();
      if instanceH == 0 && first {
        values := values[1 := value];
        log := log + [Done(1, value)];
        instanceH := 1;
      }
    }

    /** The loop of `log::logread`. */
    method LogRead()
      modifies this
      ensures State() == old(Replay(State(), log)) && log == old(log)
    {
      var i := 0;
      while i < |log|
        invariant 0 <= i <= |log| && log == old(log)
        invariant State() == Replay(old(State()), log[..i])
      {
        ReplayAppend(old(State()), log[..i], log[i]);
        assert log[..i + 1] == log[..i] + [log[i]];
        match log[i] {
          case Done(instance, v) =>
            values := values[instance := v];
            instanceH := instance;
            vA := "";
            nH := nH.(n := 0);
            nA := nA.(n := 0);
          case PropSeen(n) =>
            nH := n;
          case Accepted(n, v) =>
            nA := n;
            vA := v;
        }
        i := i + 1;
      }
      assert log[..|log|] == log;
    }

    method PrepareReq(instance: nat, n: Prop) returns (r: PrepareRes)
      modifies this
      ensures (State(), r) == Prepare(old(State()), instance, n)
      ensures old(Durable(State())) ==> Durable(State())
    {
      HandlersAreDurableIf(State(), instance, n, "");
      r := PrepareRes(false, false, Prop(0, ""), "");
      if instance <= instanceH {
        r := PrepareRes(true, false, r.nA, if instance in values then values[instance] else "");
      } else {
        if Gt(n, nH) {
          r := r.(accept := true);
          nH := n;
          log := log + [PropSeen(nH)];
        }
        r := r.(nA := nA, vA := vA);
      }
    }

    method AcceptReq(n: Prop, v: Text) returns (r: bool)
      modifies this
      ensures (State(), r) == Accept(old(State()), n, v)
      ensures old(Durable(State())) ==> Durable(State())
    {
      HandlersAreDurableIf(State(), 0, n, v);
      if Ge(n, nH) {
        nA := n;
        vA := v;
        log := log + [Accepted(n, v)];
        r := true;
      } else {
        r := false;
      }
    }

    method CommitWo(instance: nat, value: Text)
      modifies this
      ensures State() == Commit(old(State()), instance, value)
      ensures old(Durable(State())) ==> Durable(State())
    {
      HandlersAreDurableIf(State(), instance, nH, value);
      if instance > instanceH {
        values := values[instance := value];
        log := log + [Done(instance, value)];
        instanceH := instance;
        nH := Prop(0, me);
        nA := Prop(0, me);
        vA := "";
      }
    }

    /** `ok` is false where the handler's assertion aborts the process. */
    method DecideReq(instance: nat, v: Text) returns (ok: bool)
      modifies this
      ensures ok <==> old(DecideAsserts(State(), instance, v))
      ensures ok ==> State() == Decide(old(State()), instance, v)
      ensures !ok ==> State() == old(State())
      ensures old(Durable(State())) ==> Durable(State())
    {
      if instance == instanceH + 1 {
        if vA != v { return false; }
        CommitWo(instance, vA);
      } else if instance > instanceH {
        return false;
      }
      return true;
    }

    method RestoreLog(file: seq<Record>)
      modifies this
      ensures State() == Restore(old(State()), file)
    {
      log := file;
      ReplayIgnoresLog(old(State()), State(), file);
      LogRead();
    }
  }

  lemma HandlersAreDurableIf(a: Acceptor, instance: nat, n: Prop, v: Text)
    ensures Durable(a) ==> Durable(Prepare(a, instance, n).0)
    ensures Durable(a) ==> Durable(Accept(a, n, v).0)
    ensures Durable(a) ==> Durable(Commit(a, instance, v))
  {
    if Durable(a) { HandlersAreDurable(a, instance, n, v); }
  }

  lemma {:induction false} ReplayIgnoresLog(a: Acceptor, b: Acceptor, log: seq<Record>)
    requires b == a.(log := b.log)
    ensures Replay(b, log) == Replay(a, log).(log := b.log)
  {
    if log != [] { ReplayIgnoresLog(a, b, log[..|log| - 1]); }
  }
}
