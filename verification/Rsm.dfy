/** One replica of the primary/backup state machine: its fields and handlers. The
    replicated state is represented by the sequence of requests executed on it. */
module Rsm {
  import opened Views
  import opened Quorum

  type Req = string

  datatype Stamp = Stamp(vid: nat, seqno: nat)

  datatype Answer = Waiting | Good | Refused

  /** A client request in the primary's multicast loop: the list of nodes it took, the
      position of the node that the current call goes to (the end once there is none
      left), and what the call has returned. */
  datatype Job = NoJob | Job(req: Req, view: seq<Node>, i: nat, answer: Answer)

  /** Where the recovery thread of a backup is: not syncing, asking `m` for its
      state, holding it, or having told `m` so. */
  datatype Thread = Resting | Pulling(m: Node) | Pulled(m: Node) | Told(m: Node)

  /** `upto` and `broken` are history: the view whose state the replica was last
      brought to, and whether the replica's state lacks the request that
      `last` names because a multicast was given up. */
  datatype Replica = Replica(
    hist: seq<Req>,
    myvs: Stamp,
    last: Stamp,
    primary: Node,
    insync: bool,
    inviewchange: bool,
    vidCommit: nat,
    vidInsync: nat,
    backups: seq<Node>,
    job: Job,
    thread: Thread,
    upto: nat,
    broken: bool)

  function Fresh(first: Node): (r: Replica) {
    Replica([], Stamp(0, 1), Stamp(0, 0), first, false, true, 0, 0, [], NoJob, Resting, 0, false)
  }

  datatype Option<T> = None | Some(value: T)

  // ------------------------------------------------------------- choice of a primary

  /** The first member of `prev` that is listed in `cur`. */
  function FirstShared(prev: seq<Node>, cur: seq<Node>): (r: Option<Node>)
    ensures r.Some? <==> Share(prev, cur)
    ensures r.Some? ==> r.value in prev && r.value in cur
  {
    if prev == [] then None
    else if prev[0] in cur then Some(prev[0])
    else FirstShared(prev[1..], cur)
  }

  /** `set_primary`; none where it aborts. */
  function Pick(primary: Node, prev: seq<Node>, cur: seq<Node>): (r: Option<Node>)
    ensures r.Some? ==> r.value in cur
    ensures primary in cur ==> r == Some(primary)
    ensures r.None? <==> primary !in cur && !Share(prev, cur)
  {
    if primary in cur then Some(primary) else FirstShared(prev, cur)
  }

  /** The loop of `set_primary`. */
  method SetPrimary(primary: Node, prev: seq<Node>, cur: seq<Node>) returns (r: Option<Node>)
    ensures r == Pick(primary, prev, cur)
  {
    var stays := IsAMember(primary, cur);
    if stays { return Some(primary); }
    for i := 0 to |prev|
      invariant FirstShared(prev, cur) == FirstShared(prev[i..], cur)
    {
      var listed := IsAMember(prev[i], cur);
      if listed { return Some(prev[i]); }
      assert prev[i..][1..] == prev[i + 1..];
    }
    return None;
  }

  // ------------------------------------------------------------------------ handlers

  function Commit(r: Replica, v: nat, primary: Node): (r': Replica) {
    if v <= r.vidCommit then r
    else r.(vidCommit := v, inviewchange := true, primary := primary)
  }

  /** The primary of the view starts to serve its state. */
  function Serve(r: Replica, view: seq<Node>): (r': Replica) {
    r.(vidInsync := r.vidCommit, insync := true, backups := Without(view, r.primary), upto := r.vidCommit)
  }

  function StartPull(r: Replica): (r': Replica) {
    r.(vidInsync := r.vidCommit, thread := Pulling(r.primary))
  }

  /** The reply of a transfer request; none stands for BUSY. The state is sent
      only if the viewstamps differ. */
  function TransferReply(m: Replica, last: Stamp, vid: nat): (o: Option<(seq<Req>, Stamp)>) {
    if !m.insync || vid != m.vidInsync then None
    else Some((if last != m.last then m.hist else [], m.last))
  }

  /** What a replica makes of the primary's reply. */
  function Install(r: Replica, m: Replica): (r': Replica) {
    var t := r.(thread := Pulled(if r.thread.Resting? then "" else r.thread.m), upto := r.vidInsync);
    if r.last != m.last then t.(hist := m.hist, last := m.last, broken := m.broken) else t.(last := m.last)
  }

  function TransferDone(m: Replica, from: Node, vid: nat): (r: (Replica, bool)) {
    if !m.insync || vid != m.vidInsync then (m, false)
    else (m.(backups := Without(m.backups, from)), true)
  }

  /** The end of a turn of the recovery loop after a successful sync. */
  function EnterView(r: Replica): (r': Replica) {
    if r.vidInsync != r.vidCommit then r
    else r.(myvs := Stamp(r.vidCommit, 1), inviewchange := false)
  }

  datatype Status = OK | BUSY | NOTPRIMARY

  /** The checks at the head of `client_invoke`. */
  function ClientStatus(r: Replica, me: Node): (s: Status) {
    if r.inviewchange then BUSY else if r.primary != me then NOTPRIMARY else OK
  }

  /** The next node of the view to call: the loop passes over the primary, as the
      replica knows it when it looks. */
  function Seek(view: seq<Node>, i: nat, primary: Node): (j: nat)
    requires i <= |view|
    ensures i <= j <= |view|
    ensures forall k :: i <= k < j ==> view[k] == primary
    ensures j < |view| ==> view[j] != primary
    decreases |view| - i
  {
    if i < |view| && view[i] == primary then Seek(view, i + 1, primary) else i
  }

  /** The primary stamps a request and calls the first node. */
  function StartJob(r: Replica, req: Req, view: seq<Node>): (r': Replica) {
    r.(broken := r.broken && r.myvs.vid == r.last.vid,
       last := r.myvs, myvs := r.myvs.(seqno := r.myvs.seqno + 1),
       job := Job(req, view, Seek(view, 0, r.primary), Waiting))
  }

  /** A call of the multicast is under way; its target was fixed when it started. */
  predicate Calling(r: Replica) {
    r.job.Job? && r.job.i < |r.job.view|
  }

  /** The call has returned: the next node is called, or the multicast ends with the
      first refused call. */
  function Advance(r: Replica): (r': Replica)
    requires Calling(r)
  {
    if r.job.answer.Refused? then GiveUpJob(r)
    else r.(job := r.job.(i := Seek(r.job.view, r.job.i + 1, r.primary), answer := Waiting))
  }

  /** `invoke` on a backup. */
  function Invoke(r: Replica, me: Node, vs: Stamp, req: Req): (p: (Replica, bool)) {
    if r.inviewchange || r.primary == me || vs != r.myvs then (r, false)
    else (r.(last := r.myvs, myvs := r.myvs.(seqno := r.myvs.seqno + 1), hist := r.hist + [req], broken := false), true)
  }

  /** The multicast went through: the primary executes the request itself. */
  function Execute(r: Replica): (r': Replica)
    requires r.job.Job?
  {
    r.(hist := r.hist + [r.job.req], job := NoJob)
  }

  function GiveUpJob(r: Replica): (r': Replica) {
    r.(job := NoJob, broken := true)
  }

  /** What happens while the mutex is released for one call: the views that are
      committed meanwhile, with the primary chosen for each, and the call's answer. */
  datatype During = During(commits: seq<(nat, Node)>, ok: bool)

  function Commits(r: Replica, cs: seq<(nat, Node)>): (r': Replica)
    ensures r'.job == r.job
    decreases cs
  {
    if cs == [] then r else Commits(Commit(r, cs[0].0, cs[0].1), cs[1..])
  }

  /** The rest of a multicast, given what happens during each of its calls. */
  function RunJob(r: Replica, calls: seq<During>): (p: (Replica, Status))
    requires r.job.Job? && r.job.i <= |r.job.view| && |r.job.view| - r.job.i <= |calls|
    decreases |calls|
  {
    if r.job.i == |r.job.view| then (Execute(r), OK)
    else
      var q := Commits(r, calls[0].commits);
      var t := Advance(q.(job := q.job.(answer := if calls[0].ok then Good else Refused)));
      if t.job.NoJob? then (t, BUSY) else RunJob(t, calls[1..])
  }

  lemma {:induction false} CommitsIgnoreJob(r: Replica, j: Job, cs: seq<(nat, Node)>)
    ensures Commits(r.(job := j), cs) == Commits(r, cs).(job := j)
    decreases cs
  {
    if cs != [] { CommitsIgnoreJob(Commit(r, cs[0].0, cs[0].1), j, cs[1..]); }
  }

  /** A replica in the middle of the loop, about to look at position `i`. */
  function Looking(r: Replica, req: Req, view: seq<Node>, i: nat): (q: Replica)
    requires i <= |view|
  {
    r.(job := Job(req, view, Seek(view, i, r.primary), Waiting))
  }

  /** One turn of the loop that makes a call. */
  lemma CallInLoop(r: Replica, req: Req, view: seq<Node>, i: nat, calls: seq<During>)
    requires i < |view| && view[i] != r.primary && |view| - i <= |calls| && r.job.NoJob?
    ensures var q := Commits(r, calls[0].commits);
      RunJob(Looking(r, req, view, i), calls)
      == if calls[0].ok then RunJob(Looking(q, req, view, i + 1), calls[1..]) else (GiveUpJob(q), BUSY)
  {
    CommitsIgnoreJob(r, Job(req, view, i, Waiting), calls[0].commits);
  }

  /** What a multicast comes to, whatever views are committed during its calls: it makes
      some number of calls, and the first one that fails is the last. If none fails the
      request is executed and the client answered with OK; otherwise the state stays and
      the client is told to try again. The viewstamps do not depend on it. */
  lemma {:induction false} MulticastExact(r: Replica, calls: seq<During>) returns (made: nat)
    requires r.job.Job? && r.job.i <= |r.job.view| && |r.job.view| - r.job.i <= |calls|
    ensures var p := RunJob(r, calls);
      && made <= |r.job.view| - r.job.i <= |calls| && (Calling(r) ==> made >= 1)
      && (p.1 == OK <==> forall k :: 0 <= k < made ==> calls[k].ok)
      && (p.1 != OK ==> p.1 == BUSY && made >= 1 && forall k :: 0 <= k < made - 1 ==> calls[k].ok)
      && p.0.hist == r.hist + (if p.1 == OK then [r.job.req] else [])
      && p.0.last == r.last && p.0.myvs == r.myvs && p.0.job.NoJob? && p.0.upto == r.upto
    decreases |calls|
  {
    made := 0;
    if Calling(r) {
      var q := Commits(r, calls[0].commits);
      CommitsKeep(r, calls[0].commits);
      var t := Advance(q.(job := q.job.(answer := if calls[0].ok then Good else Refused)));
      if t.job.Job? {
        var rest := MulticastExact(t, calls[1..]);
        made := rest + 1;
        assert forall k :: 0 <= k < rest ==> calls[1..][k] == calls[k + 1];
      } else {
        made := 1;
      }
    }
  }

  lemma {:induction false} CommitsKeep(r: Replica, cs: seq<(nat, Node)>)
    ensures var q := Commits(r, cs);
      q.hist == r.hist && q.last == r.last && q.myvs == r.myvs && q.upto == r.upto && q.job == r.job
    decreases cs
  {
    if cs != [] { CommitsKeep(Commit(r, cs[0].0, cs[0].1), cs[1..]); }
  }

  // ----------------------------------------------------------------- the live object

  /** The fields of `rsm` that the handlers update in place. */
  class RsmNode {
    const me: Node
    var hist: seq<Req>
    var myvs: Stamp
    var last: Stamp
    var primary: Node
    var insync: bool
    var inviewchange: bool
    var vidCommit: nat
    var vidInsync: nat
    var backups: seq<Node>
    ghost var job: Job
    ghost var thread: Thread
    ghost var upto: nat
    ghost var broken: bool

    ghost function State(): (r: Replica)
      reads this
    {
      Replica(hist, myvs, last, primary, insync, inviewchange, vidCommit, vidInsync, backups, job, thread, upto, broken)
    }

    constructor (first: Node, me: Node)
      ensures State() == Fresh(first) && this.me == me
    {
      this.me := me;
      hist, myvs, last, primary := [], Stamp(0, 1), Stamp(0, 0), first;
      insync, inviewchange, vidCommit, vidInsync, backups := false, true, 0, 0, [];
      job, thread, upto, broken := NoJob, Resting, 0, false;
    }

    /** `ok` is false where the choice of a primary aborts. */
    method CommitChange(vid: nat, prev: seq<Node>, cur: seq<Node>) returns (ok: bool)
      modifies this
      ensures ok <==> old(vid <= vidCommit || Pick(primary, prev, cur).Some?)
      ensures ok ==> State() == old(
        if vid <= vidCommit then State() else Commit(State(), vid, Pick(primary, prev, cur).value))
    {
      if vid <= vidCommit { return true; }
      vidCommit := vid;
      inviewchange := true;
      var p := SetPrimary(primary, prev, cur);
      if p.None? { return false; }
      primary := p.value;
      return true;
    }

    /** The erasing loop of `sync_with_backups`. */
    method StartServing(view: seq<Node>)
      modifies this
      ensures State() == Serve(old(State()), view)
    {
      vidInsync := vidCommit;
      insync := true;
      backups := RemoveMember(view, primary);
      upto := vidCommit;
    }

    method TransferReq(from: Stamp, vid: nat) returns (o: Option<(seq<Req>, Stamp)>)
      ensures o == TransferReply(State(), from, vid)
    {
      if !insync || vid != vidInsync { return None; }
      var state := [];
      if from != last { state := hist; }
      return Some((state, last));
    }

    /** The tail of `statetransfer`, on the reply of a replica in state `m`. */
    method StateTransfer(reply: (seq<Req>, Stamp), ghost m: Replica)
      requires TransferReply(m, last, vidInsync) == Some(reply)
      modifies this
      ensures State() == Install(old(State()), m)
    {
      if last != reply.1 {
        hist := reply.0;
        broken := m.broken;
      }
      last := reply.1;
      upto := vidInsync;
      thread := Pulled(if thread.Resting? then "" else thread.m);
    }

    method TransferDoneReq(from: Node, vid: nat) returns (ok: bool)
      modifies this`backups
      ensures (State(), ok) == TransferDone(old(State()), from, vid)
    {
      if insync == false || vid != vidInsync { return false; }
      backups := RemoveMember(backups, from);
      return true;
    }

    method InvokeReq(vs: Stamp, req: Req) returns (ok: bool)
      modifies this
      ensures (State(), ok) == Invoke(old(State()), me, vs, req)
    {
      if inviewchange || primary == me || vs != myvs { return false; }
      last := myvs;
      myvs := myvs.(seqno := myvs.seqno + 1);
      hist := hist + [req];
      broken := false;
      return true;
    }

    /** `client_invoke`, given what happens during each call of its loop; `made` is the
        number of calls it made. A request that passes the checks is stamped; it is
        executed and answered with OK exactly if every call made succeeded, and the first
        call that fails is the last. */
    method ClientInvoke(req: Req, view: seq<Node>, calls: seq<During>) returns (s: Status, ghost made: nat)
      requires |calls| == |view| && job == NoJob
      modifies this
      ensures old(inviewchange) ==> s == BUSY
      ensures old(!inviewchange && primary != me) ==> s == NOTPRIMARY
      ensures old(inviewchange || primary != me) ==> made == 0 && State() == old(State())
      ensures old(!inviewchange && primary == me) ==>
        && made <= |calls| && (s == OK <==> forall k :: 0 <= k < made ==> calls[k].ok)
        && (s != OK ==> s == BUSY && made >= 1 && forall k :: 0 <= k < made - 1 ==> calls[k].ok)
        && hist == old(hist) + (if s == OK then [req] else [])
        && last == old(myvs) && myvs == Stamp(old(myvs).vid, old(myvs).seqno + 1)
      ensures old(ClientStatus(State(), me)) == OK ==>
        (State(), s) == RunJob(StartJob(old(State()), req, view), calls)
    {
      s, made := OK, 0;
      if inviewchange { s := BUSY; } else if primary != me { s := NOTPRIMARY; }
      if s != OK { return; }
      broken := broken && myvs.vid == last.vid;
      last := myvs;
      myvs := myvs.(seqno := myvs.seqno + 1);
      assert Looking(State(), req, view, 0) == StartJob(old(State()), req, view);
      made := MulticastExact(StartJob(old(State()), req, view), calls);
      s := Multicast(req, view, calls);
    }

    /** The loop over the view, and the execution if every call succeeds. */
    method Multicast(req: Req, view: seq<Node>, calls: seq<During>) returns (s: Status)
      requires |calls| == |view| && job == NoJob
      modifies this
      ensures (State(), s) == RunJob(Looking(old(State()), req, view, 0), calls)
    {
      var i := 0;
      var left := calls;
      ghost var whole := RunJob(Looking(State(), req, view, 0), calls);
      while i < |view|
        invariant 0 <= i <= |view| && |view| - i <= |left| && job == NoJob
        invariant whole == RunJob(Looking(State(), req, view, i), left)
      {
        if view[i] != primary {
          var ok := OneCall(left[0], req, view, i, left);
          if !ok { return BUSY; }
          left := left[1..];
        }
        i := i + 1;
      }
      hist := hist + [req];
      return OK;
    }

    /** One call of the loop; a call that fails ends the multicast. */
    method OneCall(call: During, ghost req: Req, ghost view: seq<Node>, ghost i: nat, ghost calls: seq<During>)
      returns (ok: bool)
      requires i < |view| && view[i] != primary && |view| - i <= |calls| && job.NoJob? && call == calls[0]
      modifies this
      ensures job.NoJob? && ok == call.ok
      ensures old(RunJob(Looking(State(), req, view, i), calls))
        == if ok then RunJob(Looking(State(), req, view, i + 1), calls[1..]) else (State(), BUSY)
    {
      CallInLoop(State(), req, view, i, calls);
      CommitMeanwhile(call.commits);
      if !call.ok { broken := true; }
      return call.ok;
    }

    /** The commits of other threads while the mutex is released. */
    method CommitMeanwhile(cs: seq<(nat, Node)>)
      modifies `vidCommit, `inviewchange, `primary
      ensures State() == Commits(old(State()), cs)
    {
      for n := 0 to |cs|
        invariant Commits(State(), cs[n..]) == Commits(old(State()), cs)
      {
        assert cs[n..][1..] == cs[n + 1..];
        if cs[n].0 > vidCommit {
          vidCommit, inviewchange, primary := cs[n].0, true, cs[n].1;
        }
      }
    }
  }
}
