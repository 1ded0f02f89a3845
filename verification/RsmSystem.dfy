/** Primary/backup replication as a step system: any number of replicas, the list
    of agreed views, multicasts that take one call at a time, and view changes that
    each replica learns about at its own time. */
module RsmSystem {
  import opened Views
  import opened Rsm

  /** A backup `x` executed the request stamped (v, k). */
  datatype Ok = Ok(x: Node, v: nat, k: nat)

  /** The client was answered; `hist` is what the primary had executed by then. */
  datatype Ack = Ack(v: nat, k: nat, hist: seq<Req>)

  /** The call that broke off a multicast: node and sequence number. */
  datatype Fail = Fail(y: Node, n: nat)

  /** `views[v]` is the view agreed on as instance v. The other fields after `node`
      record the run: what each view started from, the requests stamped and the
      number acknowledged in it, and its first failed call. */
  datatype Sys = Sys(
    first: Node,
    views: seq<seq<Node>>,
    node: map<Node, Replica>,
    base: map<nat, seq<Req>>,
    stamped: map<nat, seq<Req>>,
    done: map<nat, nat>,
    oks: set<Ok>,
    acks: set<Ack>,
    fails: map<nat, Fail>)

  datatype Event =
    | CommitView(b: Node, v: nat)
    | BeginSync(b: Node)
    | Transfer(b: Node)
    | TellDone(b: Node)
    | TellLost(b: Node)
    | Activate(b: Node)
    | FinishSync(b: Node)
    | StartInvoke(b: Node, req: Req)
    | CallArrives(b: Node)
    | CallLost(b: Node)
    | ReplyLost(b: Node)
    | Proceed(b: Node)
    | ExecuteIt(b: Node)

  function Base(s: Sys, v: nat): (h: seq<Req>) { if v in s.base then s.base[v] else [] }
  function Stamped(s: Sys, v: nat): (h: seq<Req>) { if v in s.stamped then s.stamped[v] else [] }
  function DoneIn(s: Sys, v: nat): (n: nat) { if v in s.done then s.done[v] else 0 }

  predicate NoRepeats(view: seq<Node>) {
    forall i, j :: 0 <= i < j < |view| ==> view[i] != view[j]
  }

  /** One change of a view, as the configuration layer makes it: a node joins that is
      not a member, or one is removed and the view is not left empty. */
  ghost predicate StepTo(prev: seq<Node>, cur: seq<Node>, c: Change) {
    cur == Changed(prev, c) && cur != [] && (c.Add? ==> c.m !in prev)
  }

  ghost predicate OneChange(prev: seq<Node>, cur: seq<Node>) {
    exists c: Change :: StepTo(prev, cur, c)
  }

  /** The views agreed on, one instance after the other: the first holds the first node
      alone, and each later one is one change away from the one before. */
  ghost predicate GoodViews(first: Node, views: seq<seq<Node>>) {
    && |views| >= 2 && views[0] == [] && views[1] == [first]
    && forall v :: 2 <= v < |views| ==> OneChange(views[v - 1], views[v])
  }

  /** The primary of view `v` for a replica that commits every view in order. */
  function PrimaryOf(first: Node, views: seq<seq<Node>>, v: nat): (p: Node)
    requires v < |views|
  {
    if v == 0 then first
    else
      var p := Pick(PrimaryOf(first, views, v - 1), views[v - 1], views[v]);
      if p.Some? then p.value else PrimaryOf(first, views, v - 1)
  }

  function P(s: Sys, v: nat): (p: Node) {
    if v < |s.views| then PrimaryOf(s.first, s.views, v) else s.first
  }

  ghost predicate Init(s: Sys) {
    && GoodViews(s.first, s.views)
    && s.first in s.node
    && (forall v, x :: 0 <= v < |s.views| && x in s.views[v] ==> x in s.node)
    && (forall b :: b in s.node ==> s.node[b] == Fresh(s.first))
    && s.base == map[] && s.stamped == map[] && s.done == map[] && s.oks == {} && s.acks == {} && s.fails == map[]
  }

  ghost predicate Enabled(s: Sys, e: Event) {
    && e.b in s.node
    && var r := s.node[e.b];
    match e
    case CommitView(b, v) =>
      1 <= v < |s.views| && v > r.vidCommit && Pick(r.primary, s.views[v - 1], s.views[v]).Some?
    case BeginSync(b) =>
      && r.inviewchange && r.thread.Resting? && !r.insync
      && r.vidCommit < |s.views| && b in s.views[r.vidCommit]
      && (r.primary == b ==> r.job.NoJob?)
    case Transfer(b) =>
      && r.thread.Pulling? && r.thread.m in s.node
      && TransferReply(s.node[r.thread.m], r.last, r.vidInsync).Some?
    case TellDone(b) =>
      && (r.thread.Pulled? || (r.thread.Pulling? && r.vidInsync != r.vidCommit))
      && r.thread.m in s.node
    case TellLost(b) => r.thread.Pulled? || r.thread.Told? || (r.thread.Pulling? && r.vidInsync != r.vidCommit)
    case Activate(b) => r.thread.Told?
    case FinishSync(b) => r.insync && (r.backups == [] || r.vidInsync != r.vidCommit)
    case StartInvoke(b, req) => r.job.NoJob? && ClientStatus(r, b) == OK && r.vidCommit < |s.views|
    case CallArrives(b) => Calling(r) && r.job.answer.Waiting? && r.job.view[r.job.i] in s.node
    case CallLost(b) => Calling(r) && r.job.answer.Waiting?
    case ReplyLost(b) => Calling(r) && r.job.answer.Good?
    case Proceed(b) => Calling(r) && !r.job.answer.Waiting?
    case ExecuteIt(b) => r.job.Job? && r.job.i >= |r.job.view|
  }

  ghost function Next(s: Sys, e: Event): (t: Sys)
    requires Enabled(s, e)
  {
    var r := s.node[e.b];
    match e
    case CommitView(b, v) =>
      s.(node := s.node[b := Commit(r, v, Pick(r.primary, s.views[v - 1], s.views[v]).value)])
    case BeginSync(b) =>
      if r.primary == b then
        s.(node := s.node[b := Serve(r, s.views[r.vidCommit])], base := s.base[r.vidCommit := r.hist])
      else
        s.(node := s.node[b := StartPull(r)])
    case Transfer(b) =>
      s.(node := s.node[b := Install(r, s.node[r.thread.m])])
    case TellDone(b) =>
      var q := TransferDone(s.node[r.thread.m], b, r.vidInsync);
      s.(node := s.node[r.thread.m := q.0][b := r.(thread := if q.1 then Told(r.thread.m) else Resting)])
    case TellLost(b) => s.(node := s.node[b := r.(thread := Resting)])
    case Activate(b) => s.(node := s.node[b := EnterView(r.(thread := Resting))])
    case FinishSync(b) => s.(node := s.node[b := EnterView(r.(insync := false))])
    case StartInvoke(b, req) =>
      s.(node := s.node[b := StartJob(r, req, s.views[r.vidCommit])],
         stamped := s.stamped[r.myvs.vid := Stamped(s, r.myvs.vid) + [req]])
    case CallArrives(b) =>
      var x := r.job.view[r.job.i];
      var q := Invoke(s.node[x], x, r.last, r.job.req);
      var n := s.node[x := q.0];
      s.(node := n[b := n[b].(job := r.job.(answer := if q.1 then Good else Refused))],
         oks := if q.1 then s.oks + {Ok(x, r.last.vid, r.last.seqno)} else s.oks)
    case CallLost(b) => s.(node := s.node[b := r.(job := r.job.(answer := Refused))])
    case ReplyLost(b) => s.(node := s.node[b := r.(job := r.job.(answer := Refused))])
    case Proceed(b) =>
      var t := s.(node := s.node[b := Advance(r)]);
      if Advance(r).job.NoJob? && r.last.vid !in s.fails then
        t.(fails := s.fails[r.last.vid := Fail(r.job.view[r.job.i], r.last.seqno)])
      else t
    case ExecuteIt(b) =>
      var v := r.last.vid;
      s.(node := s.node[b := Execute(r)], done := s.done[v := DoneIn(s, v) + 1],
         acks := s.acks + {Ack(v, r.last.seqno, r.hist + [r.job.req])})
  }

  /** Since it was last brought up to date, the replica has belonged to every view. */
  predicate Qualified(s: Sys, b: Node, upto: nat, w: nat) {
    forall v :: upto < v < w && v < |s.views| ==> b in s.views[v]
  }

  /** Equal viewstamps name a request that both replicas executed or both gave up. */
  predicate StampsTell(r: Replica, m: Replica) { r.last == m.last ==> r.broken == m.broken }

  /** The nodes that a multicast has yet to call. */
  function ToCall(r: Replica): (l: seq<Node>) {
    if Calling(r) then r.job.view[r.job.i + 1..] else []
  }

  /** What a run must respect: a view that is committed during a multicast does not make
      a node the primary that is still to be called; a replica that becomes primary has
      not left the group since it was last brought up to date; no state is installed on
      a replica that is multicasting; equal viewstamps do not hide a request that only
      one side has executed; and a call reported as failed was not executed. */
  ghost predicate Orderly(s: Sys, e: Event)
    requires Enabled(s, e)
  {
    var r := s.node[e.b];
    match e
    case CommitView(b, v) =>
      var p := Pick(r.primary, s.views[v - 1], s.views[v]).value;
      p == b || p !in ToCall(r)
    case BeginSync(b) => r.primary == b ==> Qualified(s, b, r.upto, r.vidCommit)
    case Transfer(b) => r.job.NoJob? && StampsTell(r, s.node[r.thread.m])
    case ReplyLost(b) => false
    case _ => true
  }

  ghost predicate IsRun(s: Sys, es: seq<Event>)
    decreases es
  {
    es == [] || (Enabled(s, es[0]) && IsRun(Next(s, es[0]), es[1..]))
  }

  ghost predicate OrderlyRun(s: Sys, es: seq<Event>)
    requires IsRun(s, es)
    decreases es
  {
    es == [] || (Orderly(s, es[0]) && OrderlyRun(Next(s, es[0]), es[1..]))
  }

  ghost function After(s: Sys, es: seq<Event>): (t: Sys)
    requires IsRun(s, es)
    decreases es
  {
    if es == [] then s else After(Next(s, es[0]), es[1..])
  }

  // --------------------------------------------------------------------- primaries

  lemma {:induction false} WithoutOther(view: seq<Node>, m: Node)
    requires m !in view
    ensures Without(view, m) == view
  {
    if view != [] {
      WithoutOther(view[1..], m);
      assert [view[0]] + view[1..] == view;
    }
  }

  lemma {:induction false} WithoutNoRepeats(view: seq<Node>, m: Node)
    requires NoRepeats(view)
    ensures NoRepeats(Without(view, m))
  {
    if view != [] {
      assert forall k :: 0 <= k < |view[1..]| ==> view[1..][k] == view[k + 1];
      WithoutNoRepeats(view[1..], m);
      var r := Without(view[1..], m);
      assert forall k :: 0 <= k < |r| ==> r[k] in view[1..];
    }
  }

  /** A change keeps the names apart; the head stays, or the second node takes its
      place, and `set_primary` picks the head of the new view. */
  lemma StepKeeps(prev: seq<Node>, cur: seq<Node>, c: Change)
    requires StepTo(prev, cur, c) && prev != [] && NoRepeats(prev)
    ensures NoRepeats(cur) && Share(prev, cur) && Pick(prev[0], prev, cur) == Some(cur[0])
    ensures cur[0] == prev[0] || (|prev| >= 2 && cur[0] == prev[1] && prev[0] !in cur)
  {
    if c.Add? {
      assert prev[0] in prev && cur[0] == prev[0];
    } else {
      WithoutNoRepeats(prev, c.m);
      if c.m == prev[0] {
        assert prev[0] !in prev[1..];
        WithoutOther(prev[1..], c.m);
        assert cur == prev[1..] && cur[0] == prev[1];
        assert FirstShared(prev[1..], cur) == Some(cur[0]);
      }
    }
    assert cur[0] in cur && cur[0] in prev;
  }

  /** The primary of every view is the first of its nodes. */
  lemma {:induction false} PrimaryIsFirst(first: Node, views: seq<seq<Node>>, v: nat)
    requires GoodViews(first, views) && 1 <= v < |views|
    ensures views[v] != [] && NoRepeats(views[v]) && PrimaryOf(first, views, v) == views[v][0]
    ensures Pick(PrimaryOf(first, views, v - 1), views[v - 1], views[v]) == Some(PrimaryOf(first, views, v))
  {
    if v > 1 {
      PrimaryIsFirst(first, views, v - 1);
      var c :| StepTo(views[v - 1], views[v], c);
      StepKeeps(views[v - 1], views[v], c);
    }
  }

  /** A replica that commits every view in order never fails to find a primary, and
      each new primary belongs to both the new view and the one before: it stays, or it
      was next in line. */
  lemma InOrderPrimary(first: Node, views: seq<seq<Node>>, v: nat)
    requires GoodViews(first, views) && 2 <= v < |views|
    ensures var p, q := PrimaryOf(first, views, v - 1), PrimaryOf(first, views, v);
      && Pick(p, views[v - 1], views[v]) == Some(q)
      && q in views[v] && q in views[v - 1]
      && (q == p || (|views[v - 1]| >= 2 && q == views[v - 1][1] && p !in views[v]))
  {
    PrimaryIsFirst(first, views, v - 1);
    PrimaryIsFirst(first, views, v);
    NextHead(views[v - 1], views[v]);
  }

  lemma NextHead(prev: seq<Node>, cur: seq<Node>)
    requires OneChange(prev, cur) && prev != [] && NoRepeats(prev)
    ensures cur != [] && cur[0] in cur && cur[0] in prev
    ensures cur[0] == prev[0] || (|prev| >= 2 && cur[0] == prev[1] && prev[0] !in cur)
  {
    var c :| StepTo(prev, cur, c);
    StepKeeps(prev, cur, c);
  }

  /** The node is missing from view `u`. */
  predicate OutAt(views: seq<seq<Node>>, b: Node, u: nat) {
    u < |views| && b !in views[u]
  }

  /** The head of a view stays the head until it leaves. */
  lemma {:induction false} HeadStays(first: Node, views: seq<seq<Node>>, from: nat, v: nat)
    requires GoodViews(first, views) && 1 <= from <= v < |views|
    requires forall u :: from < u <= v ==> !OutAt(views, PrimaryOf(first, views, from), u)
    ensures PrimaryOf(first, views, v) == PrimaryOf(first, views, from)
  {
    if from < v {
      HeadStays(first, views, from, v - 1);
      InOrderPrimary(first, views, v);
      assert !OutAt(views, PrimaryOf(first, views, from), v);
    }
  }

  /** Committing any view finds a primary, whatever the replica missed. */
  lemma PickFinds(first: Node, views: seq<seq<Node>>, v: nat, q: Node)
    requires GoodViews(first, views) && 1 <= v < |views| && (v == 1 ==> q == first)
    ensures Pick(q, views[v - 1], views[v]).Some?
    ensures Pick(q, views[v - 1], views[v]).value == if q in views[v] then q else PrimaryOf(first, views, v)
  {
    if v == 1 {
      PrimaryIsFirst(first, views, 1);
    } else {
      PickExact(first, views, v, q);
    }
  }

  /** Exactly when a replica that commits view `v`, whatever it missed, picks the primary
      of that view: it knows it already, or the one it knows is not a member. */
  lemma PickExact(first: Node, views: seq<seq<Node>>, v: nat, q: Node)
    requires GoodViews(first, views) && 2 <= v < |views|
    ensures Pick(q, views[v - 1], views[v]) == Some(PrimaryOf(first, views, v))
      <==> q == PrimaryOf(first, views, v) || q !in views[v]
  {
    PrimaryIsFirst(first, views, v - 1);
    PrimaryIsFirst(first, views, v);
    FirstSharedIsHead(views[v - 1], views[v]);
  }

  lemma FirstSharedIsHead(prev: seq<Node>, cur: seq<Node>)
    requires OneChange(prev, cur) && prev != [] && NoRepeats(prev)
    ensures cur != [] && FirstShared(prev, cur) == Some(cur[0])
  {
    NextHead(prev, cur);
    if cur[0] != prev[0] {
      assert prev[1..][0] == cur[0];
      assert FirstShared(prev[1..], cur) == Some(cur[0]);
    }
  }
}
