/** What an acceptor answers, told from its log alone: the log holds exactly the promises
    and votes it gave and the instances it committed, and these decide the answers. */
module AcceptorHistory {
  import opened Views
  import opened Proposals
  import opened AcceptorModel
  import opened PaxosLog

  /** The records since the last commit. */
  function OpenPart(log: seq<Record>): (open: seq<Record>) {
    if log == [] || log[|log| - 1].Done? then []
    else OpenPart(log[..|log| - 1]) + [log[|log| - 1]]
  }

  lemma OpenAppend(log: seq<Record>, r: Record)
    ensures OpenPart(log + [r]) == if r.Done? then [] else OpenPart(log) + [r]
  {
    assert (log + [r])[..|log|] == log;
  }

  predicate IsLastVote(open: seq<Record>, n: Prop, v: Text, k: nat) {
    && k < |open| && open[k] == Accepted(n, v)
    && forall j :: k < j < |open| ==> !open[j].Accepted?
  }

  predicate NoVote(open: seq<Record>) {
    forall j :: 0 <= j < |open| ==> !open[j].Accepted?
  }

  // ------------------------------------------------------------------------ invariant

  /** The committed values are the commit records, and the last instance their highest. */
  ghost predicate CommitsTold(a: Acceptor) {
    && (forall j: nat, v :: Done(j, v) in a.log ==> 1 <= j <= a.instanceH && j in a.values && a.values[j] == v)
    && (forall j :: j in a.values ==> Done(j, a.values[j]) in a.log)
    && (a.instanceH > 0 ==> a.instanceH in a.values)
  }

  /** The promise is the highest one since the last commit. */
  ghost predicate PromiseTold(a: Acceptor) {
    && (forall m :: PropSeen(m) in OpenPart(a.log) ==> m.n >= 1 && Ge(a.nH, m))
    && (a.nH.n == 0 || PropSeen(a.nH) in OpenPart(a.log))
  }

  /** The vote is the last one since the last commit. */
  ghost predicate VoteTold(a: Acceptor) {
    if NoVote(OpenPart(a.log)) then a.nA.n == 0 && a.vA == ""
    else exists k: nat :: IsLastVote(OpenPart(a.log), a.nA, a.vA, k)
  }

  ghost predicate Told(a: Acceptor) {
    CommitsTold(a) && PromiseTold(a) && VoteTold(a)
  }

  lemma BootTold(me: Node, first: bool, value: Text)
    ensures Told(Boot(me, first, value, []))
  {
    var a := Boot(me, first, value, []);
    if first {
      assert a.log == [Done(1, value)];
      assert a.log[0] == Done(1, value) && 1 in a.values;
    }
  }

  lemma PrepareTold(a: Acceptor, i: nat, n: Prop)
    requires Told(a) && n.n >= 1
    ensures Told(Prepare(a, i, n).0)
  {
    var t := Prepare(a, i, n).0;
    if t != a {
      OpenAppend(a.log, PropSeen(n));
      var o, u := OpenPart(a.log), OpenPart(t.log);
      assert u[|o|] == PropSeen(n);
      forall m | PropSeen(m) in u
        ensures m.n >= 1 && Ge(n, m)
      {
        GeIsGtOrEqual(n, m);
        if PropSeen(m) in o { GtTrans(n, a.nH, m); }
      }
      OtherKeepsVote(o, PropSeen(n), a.nA, a.vA);
      CommitsKept(a, t, PropSeen(n));
    }
  }

  lemma OtherKeepsVote(o: seq<Record>, r: Record, n: Prop, v: Text)
    requires !r.Accepted?
    ensures NoVote(o) <==> NoVote(o + [r])
    ensures (exists k: nat :: IsLastVote(o, n, v, k)) ==> exists k: nat :: IsLastVote(o + [r], n, v, k)
  {
    var u := o + [r];
    if NoVote(u) {
      assert forall j :: 0 <= j < |o| ==> o[j] == u[j];
    }
    if k: nat :| IsLastVote(o, n, v, k) {
      assert IsLastVote(u, n, v, k);
    }
  }

  lemma CommitsKept(a: Acceptor, t: Acceptor, r: Record)
    requires CommitsTold(a) && !r.Done? && t.log == a.log + [r] && t.values == a.values && t.instanceH == a.instanceH
    ensures CommitsTold(t)
  {
  }

  lemma AcceptTold(a: Acceptor, n: Prop, v: Text)
    requires Told(a)
    ensures Told(Accept(a, n, v).0)
  {
    var t := Accept(a, n, v).0;
    if Accept(a, n, v).1 {
      OpenAppend(a.log, Accepted(n, v));
      var o, u := OpenPart(a.log), OpenPart(t.log);
      assert IsLastVote(u, n, v, |o|);
      assert forall m :: PropSeen(m) in u <==> PropSeen(m) in o;
      CommitsKept(a, t, Accepted(n, v));
    }
  }

  lemma CommitTold(a: Acceptor, i: nat, v: Text)
    requires Told(a)
    ensures Told(Commit(a, i, v))
  {
    var t := Commit(a, i, v);
    if i > a.instanceH {
      OpenAppend(a.log, Done(i, v));
      assert t.log[|a.log|] == Done(i, v);
      forall j | j in t.values
        ensures Done(j, t.values[j]) in t.log
      {
        if j != i { assert Done(j, a.values[j]) in a.log; }
      }
    }
  }

  lemma {:induction false} PerformTold(a: Acceptor, ops: seq<Op>)
    requires Told(a) && FromProposers(ops)
    ensures Told(Perform(a, ops).0)
    decreases ops
  {
    if ops != [] {
      match ops[0] {
        case PrepareOp(i, n) => PrepareTold(a, i, n);
        case AcceptOp(n, v) => AcceptTold(a, n, v);
        case CommitOp(i, v) => CommitTold(a, i, v);
      }
      PerformTold(Step(a, ops[0]).0, ops[1..]);
    }
  }

  // -------------------------------------------------------------------------- answers

  ghost predicate CommittedFrom(log: seq<Record>, i: nat) {
    exists j: nat, v :: j >= i && Done(j, v) in log
  }

  /** `n` is above every promise since the last commit. */
  ghost predicate AboveAll(log: seq<Record>, n: Prop) {
    forall m :: PropSeen(m) in OpenPart(log) ==> Gt(n, m)
  }

  ghost predicate NotBelowAny(log: seq<Record>, n: Prop) {
    forall m :: PropSeen(m) in OpenPart(log) ==> Ge(n, m)
  }

  lemma HighestPromise(a: Acceptor, n: Prop)
    requires PromiseTold(a) && n.n >= 1
    ensures Gt(n, a.nH) <==> AboveAll(a.log, n)
    ensures Ge(n, a.nH) <==> NotBelowAny(a.log, n)
  {
    forall m | PropSeen(m) in OpenPart(a.log)
      ensures Gt(n, a.nH) ==> Gt(n, m)
      ensures Ge(n, a.nH) ==> Ge(n, m)
    {
      GtTrans(n, a.nH, m);
    }
  }

  /** Exactly what a prepare is answered after any history: that the instance is over,
      if one at least as high was committed, with its value; a promise, if the number is
      above every promise since the last commit, with the last vote since then; and a
      refusal otherwise. The log grows by the promise and nothing else. */
  lemma PrepareExact(me: Node, first: bool, value: Text, ops: seq<Op>, i: nat, n: Prop)
    requires FromProposers(ops) && n.n >= 1 && i >= 1
    ensures var a := Perform(Boot(me, first, value, []), ops).0;
      var t, r := Prepare(a, i, n).0, Prepare(a, i, n).1;
      && (r.oldinstance <==> CommittedFrom(a.log, i))
      && (r.oldinstance ==> forall v :: Done(i, v) in a.log ==> r.vA == v)
      && (r.accept <==> !CommittedFrom(a.log, i) && AboveAll(a.log, n))
      && (!r.oldinstance ==> if NoVote(OpenPart(a.log)) then r.nA.n == 0 && r.vA == ""
                             else exists k: nat :: IsLastVote(OpenPart(a.log), r.nA, r.vA, k))
      && t.log == if r.accept then a.log + [PropSeen(n)] else a.log
  {
    BootTold(me, first, value);
    PerformTold(Boot(me, first, value, []), ops);
    var a := Perform(Boot(me, first, value, []), ops).0;
    HighestPromise(a, n);
    if i <= a.instanceH { assert Done(a.instanceH, a.values[a.instanceH]) in a.log; }
  }

  /** Exactly when an accept is granted after any history: no promise since the last
      commit is above its number. The log grows by the vote and nothing else. */
  lemma AcceptExact(me: Node, first: bool, value: Text, ops: seq<Op>, n: Prop, v: Text)
    requires FromProposers(ops) && n.n >= 1
    ensures var a := Perform(Boot(me, first, value, []), ops).0;
      && (Accept(a, n, v).1 <==> NotBelowAny(a.log, n))
      && Accept(a, n, v).0.log == if Accept(a, n, v).1 then a.log + [Accepted(n, v)] else a.log
  {
    BootTold(me, first, value);
    PerformTold(Boot(me, first, value, []), ops);
    HighestPromise(Perform(Boot(me, first, value, []), ops).0, n);
  }

  /** Exactly when a commit takes effect after any history: no instance as high was
      committed. Then the log grows by it, the value is recorded, and promise and vote
      are open again; otherwise nothing changes. */
  lemma CommitExact(me: Node, first: bool, value: Text, ops: seq<Op>, i: nat, v: Text)
    requires FromProposers(ops) && i >= 1
    ensures var a := Perform(Boot(me, first, value, []), ops).0;
      var t := Commit(a, i, v);
      if CommittedFrom(a.log, i) then t == a
      else
        && t.log == a.log + [Done(i, v)] && OpenPart(t.log) == [] && t.nH.n == 0 && t.nA.n == 0 && t.vA == ""
        && t.instanceH == i && t.values == a.values[i := v]
  {
    BootTold(me, first, value);
    PerformTold(Boot(me, first, value, []), ops);
    var a := Perform(Boot(me, first, value, []), ops).0;
    if i <= a.instanceH { assert Done(a.instanceH, a.values[a.instanceH]) in a.log; }
    OpenAppend(a.log, Done(i, v));
  }

  /** The value of the last vote since the last commit, empty if there is none. */
  ghost predicate VotedFor(log: seq<Record>, v: Text) {
    if NoVote(OpenPart(log)) then v == "" else exists n, k: nat :: IsLastVote(OpenPart(log), n, v, k)
  }

  lemma VoteIsTold(a: Acceptor, v: Text)
    requires VoteTold(a)
    ensures VotedFor(a.log, v) <==> a.vA == v
  {
    var o := OpenPart(a.log);
    if !NoVote(o) {
      var j: nat :| IsLastVote(o, a.nA, a.vA, j);
      forall n, k: nat | IsLastVote(o, n, v, k)
        ensures v == a.vA
      {
        assert j == k;
      }
    }
  }

  /** Exactly when the assertions of the decide handler hold after any history: the
      instance was committed before, or is the next one and the last vote is for the
      decided value. In the second case it is committed. */
  lemma DecideExact(me: Node, first: bool, value: Text, ops: seq<Op>, i: nat, v: Text)
    requires FromProposers(ops) && i >= 1
    ensures var a := Perform(Boot(me, first, value, []), ops).0;
      var before, next := CommittedFrom(a.log, i), i == 1 || CommittedFrom(a.log, i - 1);
      && (DecideAsserts(a, i, v) <==> before || (next && VotedFor(a.log, v)))
      && (DecideAsserts(a, i, v) ==> Decide(a, i, v).log == if before then a.log else a.log + [Done(i, v)])
  {
    BootTold(me, first, value);
    PerformTold(Boot(me, first, value, []), ops);
    var a := Perform(Boot(me, first, value, []), ops).0;
    CommittedTold(a, i);
    if i > 1 { CommittedTold(a, i - 1); }
    VoteIsTold(a, v);
  }

  lemma CommittedTold(a: Acceptor, i: nat)
    requires CommitsTold(a) && i >= 1
    ensures CommittedFrom(a.log, i) <==> i <= a.instanceH
  {
    if i <= a.instanceH { assert Done(a.instanceH, a.values[a.instanceH]) in a.log; }
  }
}
