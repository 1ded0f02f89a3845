/** The replicated lock server: who holds which lock, over all request traces. */
module LockServer {

  type Client = string

  /** One lock. A client that is absent from `info` has recorded id 0. */
  datatype Item = Item(
    locked: bool,
    user: Client,
    lid: nat,
    info: map<Client, nat>,
    retryQ: seq<Client>,
    revokeQ: seq<Client>)

  const NEW_ITEM: Item := Item(false, "", 0, map[], [], [])

  /** `jammed`: a handler returned without releasing the server's mutex, so no later
      request can run. */
  datatype Server = Server(locks: map<nat, Item>, jammed: bool)

  /** What a request is answered; a step of a thread sends one message to a client. */
  datatype Reply = Granted | Retry | Error | Released | Blocked | Sent(to: Client, lock: nat, id: nat)

  /** Requests in the order the replicas execute them, and the local steps of the
      revoker and retryer threads. */
  datatype Op =
    | Acquire(lid: nat, id: Client, xid: nat)
    | Release(lid: nat, id: Client, xid: nat)
    | RevokerStep(lid: nat)
    | RetryerStep(lid: nat)

  function ItemOf(s: Server, lid: nat): (i: Item) {
    if lid in s.locks then s.locks[lid] else NEW_ITEM
  }

  function XidOf(i: Item, id: Client): (x: nat) {
    if id in i.info then i.info[id] else 0
  }

  /** Looking an id up creates its entry. */
  function Touch(i: Item, id: Client): (r: Item) {
    i.(info := i.info[id := XidOf(i, id)])
  }

  function AcquireItem(i: Item, lid: nat, id: Client, xid: nat): (r: (Item, Reply)) {
    var t := Touch(i, id);
    if XidOf(t, id) < xid then
      if !t.locked then
        (t.(locked := true, info := t.info[id := xid], user := id, lid := lid), Granted)
      else
        (t.(retryQ := t.retryQ + [id], revokeQ := t.revokeQ + [t.user]), Retry)
    else (t, Error)
  }

  function ReleaseItem(i: Item, id: Client, xid: nat): (r: Item) {
    var t := Touch(i, id);
    if XidOf(t, id) <= xid && t.locked && t.user == id then t.(locked := false) else t
  }

  function Apply(s: Server, op: Op): (r: (Server, Reply)) {
    match op
    case Acquire(lid, id, xid) =>
      if s.jammed then (s, Blocked)
      else
        var a := AcquireItem(ItemOf(s, lid), lid, id, xid);
        (s.(locks := s.locks[lid := a.0]), a.1)
    case Release(lid, id, xid) =>
      if s.jammed then (s, Blocked)
      else if lid !in s.locks then (s.(jammed := true), Released)
      else (s.(locks := s.locks[lid := ReleaseItem(s.locks[lid], id, xid)]), Released)
    case RevokerStep(lid) =>
      if s.jammed || lid !in s.locks || s.locks[lid].revokeQ == [] then (s, Blocked)
      else
        var to := s.locks[lid].revokeQ[0];
        var i := Touch(s.locks[lid], to);
        (s.(locks := s.locks[lid := i.(revokeQ := i.revokeQ[1..])]), Sent(to, i.lid, XidOf(i, to)))
    case RetryerStep(lid) =>
      if s.jammed || lid !in s.locks || s.locks[lid].retryQ == [] then (s, Blocked)
      else
        var to := s.locks[lid].retryQ[0];
        var i := Touch(s.locks[lid], to);
        (s.(locks := s.locks[lid := i.(retryQ := i.retryQ[1..])]), Sent(to, i.lid, XidOf(i, to)))
  }

  function Run(s: Server, ops: seq<Op>): (r: (Server, seq<Reply>))
    ensures |r.1| == |ops|
  {
    if ops == [] then (s, [])
    else
      var n := |ops| - 1;
      var p := Run(s, ops[..n]);
      var a := Apply(p.0, ops[n]);
      (a.0, p.1 + [a.1])
  }

  const EMPTY: Server := Server(map[], false)

  // ------------------------------------------------------------------------- holders

  /** `id` holds the lock, granted under `xid`. */
  predicate Holds(s: Server, lid: nat, id: Client, xid: nat) {
    var i := ItemOf(s, lid);
    i.locked && i.user == id && XidOf(i, id) == xid
  }

  /** The request gives the lock back for `id` as granted under `xid`. */
  predicate GivesBack(op: Op, lid: nat, id: Client, xid: nat) {
    op.Release? && op.lid == lid && op.id == id && op.xid >= xid
  }

  predicate IsGrant(op: Op, r: Reply, lid: nat) {
    op.Acquire? && op.lid == lid && r == Granted
  }

  /** A held lock stays held, under the same id, through every operation that does
      not give it back; and none of them is granted. */
  lemma StepKeepsHolder(s: Server, op: Op, lid: nat, id: Client, xid: nat)
    requires Holds(s, lid, id, xid) && !GivesBack(op, lid, id, xid)
    ensures Holds(Apply(s, op).0, lid, id, xid) && !IsGrant(op, Apply(s, op).1, lid)
  {
  }

  lemma {:induction false} RunKeepsHolder(s: Server, ops: seq<Op>, lid: nat, id: Client, xid: nat)
    requires Holds(s, lid, id, xid)
    requires forall k :: 0 <= k < |ops| ==> !GivesBack(ops[k], lid, id, xid)
    ensures Holds(Run(s, ops).0, lid, id, xid)
    ensures forall k :: 0 <= k < |ops| ==> !IsGrant(ops[k], Run(s, ops).1[k], lid)
  {
    if ops != [] {
      var n := |ops| - 1;
      RunKeepsHolder(s, ops[..n], lid, id, xid);
      StepKeepsHolder(Run(s, ops[..n]).0, ops[n], lid, id, xid);
    }
  }

  lemma {:induction false} RunSplit(s: Server, a: seq<Op>, b: seq<Op>)
    ensures Run(s, a + b).0 == Run(Run(s, a).0, b).0
    ensures Run(s, a + b).1 == Run(s, a).1 + Run(Run(s, a).0, b).1
  {
    if b == [] {
      assert a + b == a;
    } else {
      var n := |b| - 1;
      var ab := a + b;
      assert ab[..|ab| - 1] == a + b[..n] && ab[|ab| - 1] == b[n];
      RunSplit(s, a, b[..n]);
    }
  }

  lemma GrantMakesHolder(s: Server, op: Op, lid: nat)
    requires IsGrant(op, Apply(s, op).1, lid)
    ensures Holds(Apply(s, op).0, lid, op.id, op.xid)
  {
  }

  /** The state after the first `n` operations. */
  function StateAt(s: Server, ops: seq<Op>, n: nat): (t: Server)
    requires n <= |ops|
  {
    Run(s, ops[..n]).0
  }

  lemma StateNext(s: Server, ops: seq<Op>, n: nat)
    requires n < |ops|
    ensures StateAt(s, ops, n + 1) == Apply(StateAt(s, ops, n), ops[n]).0
    ensures Run(s, ops).1[n] == Apply(StateAt(s, ops, n), ops[n]).1
  {
    assert ops[..n + 1][..n] == ops[..n];
    assert ops[..n + 1] + ops[n + 1..] == ops;
    RunSplit(s, ops[..n + 1], ops[n + 1..]);
  }

  /** The holder keeps the lock until it gives it back. */
  lemma {:induction false} HeldUntil(s: Server, ops: seq<Op>, i: nat, m: nat, lid: nat, id: Client, xid: nat)
    requires i <= m <= |ops| && Holds(StateAt(s, ops, i), lid, id, xid)
    requires forall k :: i <= k < m ==> !GivesBack(ops[k], lid, id, xid)
    ensures Holds(StateAt(s, ops, m), lid, id, xid)
    decreases m
  {
    if i < m {
      HeldUntil(s, ops, i, m - 1, lid, id, xid);
      StateNext(s, ops, m - 1);
      StepKeepsHolder(StateAt(s, ops, m - 1), ops[m - 1], lid, id, xid);
    }
  }

  lemma {:induction false} JamStays(s: Server, ops: seq<Op>, k: nat, m: nat)
    requires k <= m <= |ops| && StateAt(s, ops, k).jammed
    ensures StateAt(s, ops, m).jammed
    decreases m
  {
    if k < m {
      JamStays(s, ops, k, m - 1);
      StateNext(s, ops, m - 1);
    }
  }

  /** The first operation that gives the lock back. */
  lemma {:induction false} FirstGivesBack(ops: seq<Op>, i: nat, j: nat, lid: nat, id: Client, xid: nat) returns (k: nat)
    requires i <= j <= |ops|
    ensures i <= k <= j && (k < j ==> GivesBack(ops[k], lid, id, xid))
    ensures forall m :: i <= m < k ==> !GivesBack(ops[m], lid, id, xid)
    decreases j - i
  {
    if i == j || GivesBack(ops[i], lid, id, xid) {
      k := i;
    } else {
      k := FirstGivesBack(ops, i + 1, j, lid, id, xid);
    }
  }

  lemma GivingBackFrees(s: Server, op: Op, lid: nat, id: Client, xid: nat)
    requires !s.jammed && Holds(s, lid, id, xid) && GivesBack(op, lid, id, xid)
    ensures !ItemOf(Apply(s, op).0, lid).locked
  {
  }

  /** Mutual exclusion over every trace: the client that was granted a lock holds it,
      under the id of the grant, up to an operation of its own that gives the lock back
      and frees it, and only after that is the lock granted again. */
  lemma GrantsAreSeparated(s: Server, ops: seq<Op>, i: nat, j: nat) returns (k: nat)
    requires i < j < |ops| && IsGrant(ops[i], Run(s, ops).1[i], ops[i].lid)
    requires IsGrant(ops[j], Run(s, ops).1[j], ops[i].lid)
    ensures i < k < j && GivesBack(ops[k], ops[i].lid, ops[i].id, ops[i].xid)
    ensures forall m :: i < m <= k ==> Holds(StateAt(s, ops, m), ops[i].lid, ops[i].id, ops[i].xid)
    ensures !ItemOf(StateAt(s, ops, k + 1), ops[i].lid).locked
  {
    var lid, id, xid := ops[i].lid, ops[i].id, ops[i].xid;
    StateNext(s, ops, i);
    StateNext(s, ops, j);
    GrantMakesHolder(StateAt(s, ops, i), ops[i], lid);
    k := FirstGivesBack(ops, i + 1, j, lid, id, xid);
    forall m | i < m <= k
      ensures Holds(StateAt(s, ops, m), lid, id, xid)
    {
      HeldUntil(s, ops, i + 1, m, lid, id, xid);
    }
    if k < j {
      if StateAt(s, ops, k).jammed { JamStays(s, ops, k, j); }
      StateNext(s, ops, k);
      GivingBackFrees(StateAt(s, ops, k), ops[k], lid, id, xid);
    }
  }

  // -------------------------------------------------------------------- who is asked

  predicate SameQueues(i: Item, j: Item) { i.retryQ == j.retryQ && i.revokeQ == j.revokeQ }

  predicate SameHolder(i: Item, j: Item) { i.locked == j.locked && (i.locked ==> i.user == j.user) }

  /** Exactly what an acquire does. With an id above the client's last it is granted if
      the lock is free; if the lock is held, the holder stays, is to be asked for the
      lock, and the client waits for a retry. Any other id is an error and changes
      nothing. */
  lemma AcquireExact(s: Server, op: Op)
    requires op.Acquire? && !s.jammed
    ensures var i, j, r := ItemOf(s, op.lid), ItemOf(Apply(s, op).0, op.lid), Apply(s, op).1;
      && (r == Error <==> XidOf(i, op.id) >= op.xid)
      && (r == Granted <==> XidOf(i, op.id) < op.xid && !i.locked)
      && (r == Retry <==> XidOf(i, op.id) < op.xid && i.locked)
      && (r == Granted ==> Holds(Apply(s, op).0, op.lid, op.id, op.xid) && j.lid == op.lid && SameQueues(i, j))
      && (r == Retry ==> SameHolder(i, j) && j.retryQ == i.retryQ + [op.id] && j.revokeQ == i.revokeQ + [i.user])
      && (r == Error ==> SameHolder(i, j) && SameQueues(i, j))
      && (forall c :: c != op.id || r != Granted ==> XidOf(j, c) == XidOf(i, c))
      && (forall l :: l != op.lid ==> ItemOf(Apply(s, op).0, l) == ItemOf(s, l))
  {
  }

  /** The holders at the time of each acquire of the lock that was answered with retry. */
  function Asked(s: Server, ops: seq<Op>, lid: nat): (l: seq<Client>) {
    if ops == [] then []
    else
      var n := |ops| - 1;
      var t := Run(s, ops[..n]).0;
      Asked(s, ops[..n], lid) +
      if ops[n].Acquire? && ops[n].lid == lid && Apply(t, ops[n]).1 == Retry then [ItemOf(t, lid).user] else []
  }

  /** The clients whose acquire of the lock was answered with retry. */
  function Waiters(s: Server, ops: seq<Op>, lid: nat): (l: seq<Client>) {
    if ops == [] then []
    else
      var n := |ops| - 1;
      var t := Run(s, ops[..n]).0;
      Waiters(s, ops[..n], lid) +
      if ops[n].Acquire? && ops[n].lid == lid && Apply(t, ops[n]).1 == Retry then [ops[n].id] else []
  }

  /** The clients that a thread sent messages about the lock to. */
  function SentBy(s: Server, ops: seq<Op>, step: Op): (l: seq<Client>) {
    if ops == [] then []
    else
      var n := |ops| - 1;
      var r := Apply(Run(s, ops[..n]).0, ops[n]).1;
      SentBy(s, ops[..n], step) + if ops[n] == step && r.Sent? then [r.to] else []
  }

  lemma StepRevokes(t: Server, op: Op, lid: nat)
    ensures var i, j, r := ItemOf(t, lid), ItemOf(Apply(t, op).0, lid), Apply(t, op).1;
      i.revokeQ + (if op.Acquire? && op.lid == lid && r == Retry then [i.user] else [])
      == (if op == RevokerStep(lid) && r.Sent? then [r.to] else []) + j.revokeQ
  {
  }

  lemma StepRetries(t: Server, op: Op, lid: nat)
    ensures var i, j, r := ItemOf(t, lid), ItemOf(Apply(t, op).0, lid), Apply(t, op).1;
      i.retryQ + (if op.Acquire? && op.lid == lid && r == Retry then [op.id] else [])
      == (if op == RetryerStep(lid) && r.Sent? then [r.to] else []) + j.retryQ
  {
  }

  lemma Regroup<T>(a: seq<T>, b: seq<T>, c: seq<T>, d: seq<T>, e: seq<T>, f: seq<T>, g: seq<T>)
    requires a + b == c + d && d + e == f + g
    ensures a + (b + e) == (c + f) + g
  {
    assert a + (b + e) == (a + b) + e == c + (d + e) == c + (f + g);
  }

  /** Over every trace, no revoke is lost, made up or sent out of turn: the messages of the
      revoker go to the clients that held the lock when somebody else was told to retry,
      in that order, and the rest of them is still in the queue. */
  lemma {:induction false} RevokesExact(s: Server, ops: seq<Op>, lid: nat)
    ensures ItemOf(s, lid).revokeQ + Asked(s, ops, lid)
      == SentBy(s, ops, RevokerStep(lid)) + ItemOf(Run(s, ops).0, lid).revokeQ
  {
    if ops == [] {
      assert Run(s, ops).0 == s;
    } else {
      var n := |ops| - 1;
      var t := Run(s, ops[..n]).0;
      RevokesExact(s, ops[..n], lid);
      StepRevokes(t, ops[n], lid);
      var r := Apply(t, ops[n]).1;
      Regroup(ItemOf(s, lid).revokeQ, Asked(s, ops[..n], lid),
              SentBy(s, ops[..n], RevokerStep(lid)), ItemOf(t, lid).revokeQ,
              if ops[n].Acquire? && ops[n].lid == lid && r == Retry then [ItemOf(t, lid).user] else [],
              if ops[n] == RevokerStep(lid) && r.Sent? then [r.to] else [], ItemOf(Run(s, ops).0, lid).revokeQ);
    }
  }

  /** The same for retries and the clients that wait. */
  lemma {:induction false} RetriesExact(s: Server, ops: seq<Op>, lid: nat)
    ensures ItemOf(s, lid).retryQ + Waiters(s, ops, lid)
      == SentBy(s, ops, RetryerStep(lid)) + ItemOf(Run(s, ops).0, lid).retryQ
  {
    if ops == [] {
      assert Run(s, ops).0 == s;
    } else {
      var n := |ops| - 1;
      var t := Run(s, ops[..n]).0;
      RetriesExact(s, ops[..n], lid);
      StepRetries(t, ops[n], lid);
      var r := Apply(t, ops[n]).1;
      Regroup(ItemOf(s, lid).retryQ, Waiters(s, ops[..n], lid),
              SentBy(s, ops[..n], RetryerStep(lid)), ItemOf(t, lid).retryQ,
              if ops[n].Acquire? && ops[n].lid == lid && r == Retry then [ops[n].id] else [],
              if ops[n] == RetryerStep(lid) && r.Sent? then [r.to] else [], ItemOf(Run(s, ops).0, lid).retryQ);
    }
  }

  /** A lock that is or was held knows its own number. */
  predicate NumberedAt(s: Server, lid: nat) {
    var i := ItemOf(s, lid);
    i.locked || i.retryQ != [] || i.revokeQ != [] ==> i.lid == lid
  }

  lemma {:induction false} RunNumbered(s: Server, ops: seq<Op>, lid: nat)
    requires NumberedAt(s, lid)
    ensures NumberedAt(Run(s, ops).0, lid)
  {
    if ops != [] {
      RunNumbered(s, ops[..|ops| - 1], lid);
      StepNumbered(Run(s, ops[..|ops| - 1]).0, ops[|ops| - 1], lid);
    }
  }

  lemma StepNumbered(t: Server, op: Op, lid: nat)
    requires NumberedAt(t, lid)
    ensures NumberedAt(Apply(t, op).0, lid)
  {
  }

  /** After every trace, a revoke names its lock, and if its receiver still holds the lock,
      the id of that tenure. */
  lemma RevokeNamesTenure(ops: seq<Op>, lid: nat)
    ensures var s := Run(EMPTY, ops).0;
      var r := Apply(s, RevokerStep(lid)).1;
      r.Sent? ==> r.lock == lid && forall x :: Holds(s, lid, r.to, x) ==> r.id == x
  {
    RunNumbered(EMPTY, ops, lid);
  }

  // --------------------------------------------------------------- executed twice

  lemma StepXidGrows(s: Server, op: Op, lid: nat, id: Client)
    ensures XidOf(ItemOf(Apply(s, op).0, lid), id) >= XidOf(ItemOf(s, lid), id)
    ensures lid in s.locks ==> lid in Apply(s, op).0.locks
    ensures id in ItemOf(s, lid).info ==> id in ItemOf(Apply(s, op).0, lid).info
  {
  }

  lemma {:induction false} RunXidGrows(s: Server, ops: seq<Op>, lid: nat, id: Client)
    ensures XidOf(ItemOf(Run(s, ops).0, lid), id) >= XidOf(ItemOf(s, lid), id)
    ensures lid in s.locks ==> lid in Run(s, ops).0.locks
    ensures id in ItemOf(s, lid).info ==> id in ItemOf(Run(s, ops).0, lid).info
  {
    if ops != [] {
      var n := |ops| - 1;
      RunXidGrows(s, ops[..n], lid, id);
      StepXidGrows(Run(s, ops[..n]).0, ops[n], lid, id);
    }
  }

  /** A granted acquire that is executed again, at any later time, changes nothing. */
  lemma RepeatedAcquireIsNoop(s: Server, op: Op, later: seq<Op>)
    requires op.Acquire? && Apply(s, op).1 == Granted
    ensures var t := Run(Apply(s, op).0, later).0; Apply(t, op).0 == t && Apply(t, op).1 != Granted
  {
    RunXidGrows(Apply(s, op).0, later, op.lid, op.id);
    var t := Run(Apply(s, op).0, later).0;
    if !t.jammed {
      var i := t.locks[op.lid];
      assert i.info[op.id := i.info[op.id]] == i.info;
      assert t.locks[op.lid := i] == t.locks;
    }
  }

  /** The client of an old release does not hold the lock again under an id that
      the release covers. */
  predicate Outdated(s: Server, lid: nat, id: Client, xid: nat) {
    var i := ItemOf(s, lid);
    lid in s.locks && id in i.info && (XidOf(i, id) > xid || !(i.locked && i.user == id))
  }

  /** A client's ids increase. */
  predicate Increasing(ops: seq<Op>, lid: nat, id: Client, xid: nat) {
    forall k :: 0 <= k < |ops| && ops[k].Acquire? && ops[k].lid == lid && ops[k].id == id ==> ops[k].xid > xid
  }

  lemma StepStaysOutdated(s: Server, op: Op, lid: nat, id: Client, xid: nat)
    requires Outdated(s, lid, id, xid) && Increasing([op], lid, id, xid)
    ensures Outdated(Apply(s, op).0, lid, id, xid)
  {
    assert [op][0] == op;
  }

  lemma {:induction false} StaysOutdated(s: Server, ops: seq<Op>, lid: nat, id: Client, xid: nat)
    requires Outdated(s, lid, id, xid) && Increasing(ops, lid, id, xid)
    ensures Outdated(Run(s, ops).0, lid, id, xid)
  {
    if ops != [] {
      var n := |ops| - 1;
      StaysOutdated(s, ops[..n], lid, id, xid);
      StepStaysOutdated(Run(s, ops[..n]).0, ops[n], lid, id, xid);
    }
  }

  /** An old release that is executed again, after the client has gone on with
      higher ids, changes no lock. */
  lemma RepeatedReleaseIsNoop(s: Server, op: Op, later: seq<Op>)
    requires op.Release? && op.lid in s.locks && !s.jammed && Increasing(later, op.lid, op.id, op.xid)
    ensures var t := Run(Apply(s, op).0, later).0; Apply(t, op).0 == t
  {
    var u := Apply(s, op).0;
    assert Outdated(u, op.lid, op.id, op.xid);
    StaysOutdated(u, later, op.lid, op.id, op.xid);
    var t := Run(u, later).0;
    if !t.jammed {
      var i := t.locks[op.lid];
      assert i.info[op.id := i.info[op.id]] == i.info;
      assert t.locks[op.lid := i] == t.locks;
    }
  }

  /** Exactly when a release changes who holds its lock: the client holds it, under
      an id that the release covers. */
  lemma ReleaseExact(s: Server, op: Op)
    requires op.Release? && !s.jammed && op.lid in s.locks
    ensures ItemOf(Apply(s, op).0, op.lid).locked != ItemOf(s, op.lid).locked <==>
      exists x: nat :: x <= op.xid && Holds(s, op.lid, op.id, x)
  {
    var i := s.locks[op.lid];
    if i.locked && i.user == op.id && XidOf(i, op.id) <= op.xid {
      assert Holds(s, op.lid, op.id, XidOf(i, op.id));
    }
  }

  /** Without increasing ids an old release that is executed again takes a lock away
      from its client. */
  lemma OldReleaseNeedsIncreasing()
    ensures var again := Release(1, "c", 5);
      var s := Run(EMPTY, [Acquire(1, "c", 1), again, Acquire(1, "c", 2)]).0;
      Holds(s, 1, "c", 2) && !Holds(Apply(s, again).0, 1, "c", 2)
  {
    var again := Release(1, "c", 5);
    var ops := [Acquire(1, "c", 1), again, Acquire(1, "c", 2)];
    assert ops[..2] == [Acquire(1, "c", 1), again] && ops[..2][..1] == [Acquire(1, "c", 1)];
    assert ops[..2][..1][..0] == [];
    assert Run(EMPTY, []).0 == EMPTY;
    var s1 := Run(EMPTY, ops[..2][..1]).0;
    assert s1 == Apply(EMPTY, Acquire(1, "c", 1)).0;
    var s2 := Run(EMPTY, ops[..2]).0;
    assert s2 == Apply(s1, again).0;
    assert Run(EMPTY, ops).0 == Apply(s2, Acquire(1, "c", 2)).0;
  }

  /** The revoker and retryer threads never change a holder, a locked flag or a
      recorded id. */
  lemma LocalStepsAreHarmless(s: Server, op: Op, lid: nat, id: Client)
    requires op.RevokerStep? || op.RetryerStep?
    ensures var i, j := ItemOf(s, lid), ItemOf(Apply(s, op).0, lid);
      i.locked == j.locked && i.user == j.user && XidOf(i, id) == XidOf(j, id)
  {
  }

  /** A release of a lock that nobody ever asked for returns with the server's mutex
      held: no request is granted any more. */
  lemma {:induction false} UnknownReleaseJams(s: Server, op: Op, ops: seq<Op>)
    requires op.Release? && !s.jammed && op.lid !in s.locks
    ensures Run(Apply(s, op).0, ops).0 == Apply(s, op).0
    ensures forall k :: 0 <= k < |ops| ==> Run(Apply(s, op).0, ops).1[k] == Blocked
  {
    if ops != [] { UnknownReleaseJams(s, op, ops[..|ops| - 1]); }
  }

  // ------------------------------------------------------------------ the live object

  class LockServerNode {
    var locks: map<nat, Item>
    /** Locks waiting for the revoker and the retryer thread. */
    var revokes: seq<nat>
    var retries: seq<nat>

    constructor ()
      ensures locks == map[] && revokes == [] && retries == []
    {
      locks, revokes, retries := map[], [], [];
    }

    method AcquireReq(lid: nat, id: Client, xid: nat) returns (r: Reply)
      modifies this
      ensures (Server(locks, false), r) == Apply(Server(old(locks), false), Acquire(lid, id, xid))
      ensures revokes == old(revokes) + (if r == Retry then [lid] else []) && retries == old(retries)
    {
      var item := if lid in locks then locks[lid] else NEW_ITEM;
      if id !in item.info { item := item.(info := item.info[id := 0]); }
      ghost var before := if lid in locks then locks[lid] else NEW_ITEM;
      assert item.info == Touch(before, id).info;
      if item.info[id] < xid {
        if item.locked == false {
          item := item.(locked := true, info := item.info[id := xid], user := id, lid := lid);
          r := Granted;
        } else {
          item := item.(retryQ := item.retryQ + [id], revokeQ := item.revokeQ + [item.user]);
          r := Retry;
          revokes := revokes + [lid];
        }
      } else {
        r := Error;
      }
      locks := locks[lid := item];
    }

    /** `jammed` is true where the handler returns with the mutex held. */
    method ReleaseReq(lid: nat, id: Client, xid: nat) returns (jammed: bool)
      modifies this
      ensures Server(locks, jammed) == Apply(Server(old(locks), false), Release(lid, id, xid)).0
      ensures revokes == old(revokes)
      ensures var i := ItemOf(Server(old(locks), false), lid);
        retries == old(retries) + (if i.locked && XidOf(i, id) <= xid then [lid] else [])
    {
      if lid !in locks { return true; }
      var item := locks[lid];
      if id !in item.info { item := item.(info := item.info[id := 0]); }
      assert item.info == Touch(locks[lid], id).info;
      if item.info[id] <= xid && item.locked == true {
        if item.user == id { item := item.(locked := false); }
        retries := retries + [lid];
      }
      locks := locks[lid := item];
      return false;
    }
  }
}
