/** Invariant of the replication system, and the steps that keep it. */
module RsmSafety {
  import opened Views
  import opened Rsm
  import opened RsmSystem

  // ------------------------------------------------------------------- invariant

  /** How many requests of the view it was last brought to a replica has executed. */
  function Executed(s: Sys, b: Node): (n: nat)
    requires b in s.node
  {
    var r := s.node[b];
    if b == P(s, r.upto) then DoneIn(s, r.upto)
    else if r.last.vid == r.upto then r.last.seqno else 0
  }

  /** The state of view `v` after its first `k` requests. */
  function Through(s: Sys, v: nat, k: nat): (h: seq<Req>)
    requires k <= |Stamped(s, v)|
  {
    Base(s, v) + Stamped(s, v)[..k]
  }

  ghost predicate ShapeOk(s: Sys, b: Node)
    requires b in s.node
  {
    var r := s.node[b];
    && r.vidCommit < |s.views| && (r.vidCommit == 0 ==> r.primary == s.first)
    && (r.primary != P(s, r.vidCommit) ==> Astray(s, b))
    && r.upto <= r.vidCommit && r.vidInsync <= r.vidCommit && r.last.vid <= r.upto
    && (r.upto >= 1 ==> r.upto in s.base && b in s.views[r.upto])
    && (r.last.vid == 0 ==> r.last.seqno == 0) && (r.last.vid >= 1 ==> r.last.vid in s.base)
    && (r.inviewchange && r.upto == r.vidCommit && r.upto >= 1 ==>
          r.last.vid < r.upto && (b == P(s, r.upto) ==> r.insync))
  }

  /** The replica kept a primary that lost its place and came back: it is not active, and
      if it takes itself for the primary it was missing from a view since it was last
      brought up to date. */
  ghost predicate Astray(s: Sys, b: Node)
    requires b in s.node && s.node[b].vidCommit < |s.views|
  {
    var r := s.node[b];
    && r.inviewchange && r.upto < r.vidCommit && r.primary in s.views[r.vidCommit]
    && (r.primary == b ==>
          exists u: nat :: r.upto < u && r.vidInsync < u < r.vidCommit && OutAt(s.views, b, u))
  }

  ghost predicate ActiveOk(s: Sys, b: Node)
    requires b in s.node
  {
    var r := s.node[b];
    !r.inviewchange ==>
      && r.vidCommit == r.upto == r.myvs.vid >= 1 && r.thread.Resting? && !r.insync
      && r.myvs.seqno == 1 + (if b == P(s, r.upto) then |Stamped(s, r.upto)| else Executed(s, b))
  }

  ghost predicate SyncOk(s: Sys, b: Node)
    requires b in s.node
  {
    var r := s.node[b];
    && (r.insync ==>
          && r.job.NoJob? && r.inviewchange && r.thread.Resting?
          && r.upto == r.vidInsync >= 1 && b == P(s, r.upto) && r.last.vid < r.upto
          && Stamped(s, r.upto) == [] && r.upto !in s.fails)
    && (!r.thread.Resting? ==>
          && r.inviewchange && r.upto <= r.vidInsync && 1 <= r.vidInsync < |s.views|
          && r.thread.m != b && (r.vidInsync == r.vidCommit ==> r.thread.m == r.primary)
          && b in s.views[r.vidInsync] && (r.upto == r.vidInsync ==> P(s, r.vidInsync) != b)
          && (r.upto == r.vidInsync ==> r.last.vid < r.upto)
          && (r.thread.Pulled? ==> r.upto == r.vidInsync)
          && (r.thread.Told? && r.vidInsync == r.vidCommit ==> r.upto == r.vidInsync))
  }

  ghost predicate JobOk(s: Sys, b: Node)
    requires b in s.node
  {
    var r := s.node[b];
    r.job.Job? ==>
      && b == P(s, r.upto) && r.upto >= 1 && r.upto < |s.views| && !r.insync
      && |Stamped(s, r.upto)| >= 1 && r.last == Stamp(r.upto, |Stamped(s, r.upto)|)
      && r.job.req == Stamped(s, r.upto)[|Stamped(s, r.upto)| - 1]
      && r.job.view == s.views[r.upto] && 1 <= r.job.i <= |r.job.view|
      && (r.primary == b || r.primary !in ToCall(r))
      && (forall x :: x in r.job.view[..r.job.i] && x != b ==> Ok(x, r.upto, r.last.seqno) in s.oks)
      && (r.job.answer.Good? && Calling(r) ==> Ok(r.job.view[r.job.i], r.upto, r.last.seqno) in s.oks)
      && (forall j :: r.job.i <= j < |r.job.view| && Ok(r.job.view[j], r.upto, r.last.seqno) in s.oks ==>
            j == r.job.i && r.job.answer.Good?)
  }

  ghost predicate HistOk(s: Sys, b: Node)
    requires b in s.node
  {
    var r := s.node[b];
    Executed(s, b) <= |Stamped(s, r.upto)| && r.hist == Through(s, r.upto, Executed(s, b))
  }

  /** What a replica's last viewstamp says about its state. */
  ghost predicate StampOk(s: Sys, b: Node)
    requires b in s.node
  {
    var r := s.node[b];
    var u, k := r.last.vid, r.last.seqno;
    && k <= |Stamped(s, u)| && DoneIn(s, u) <= |Stamped(s, u)|
    && (r.broken ==> u in s.fails && DoneIn(s, u) < k)
    && (r.job.NoJob? ==> r.hist == Through(s, u, if r.broken then DoneIn(s, u) else k))
    && (b == P(s, r.upto) ==>
          if u == r.upto then k == |Stamped(s, u)| && (r.broken <==> u in s.fails) else Stamped(s, r.upto) == [])
  }

  ghost predicate ClosedOk(s: Sys, b: Node)
    requires b in s.node
  {
    var r := s.node[b];
    b != P(s, r.upto) && r.last.vid == r.upto >= 1 ==>
      forall k :: 1 <= k <= r.last.seqno ==> Ok(b, r.upto, k) in s.oks
  }

  ghost predicate NodeOk(s: Sys, b: Node)
    requires b in s.node
  {
    && ShapeOk(s, b) && ActiveOk(s, b) && SyncOk(s, b) && JobOk(s, b)
    && HistOk(s, b) && StampOk(s, b) && ClosedOk(s, b)
  }

  ghost predicate NodeAt(s: Sys, b: Node) {
    b in s.node ==> NodeOk(s, b)
  }

  /** The primary of `v` has a multicast of that view under way. */
  ghost predicate Multicasting(s: Sys, v: nat) {
    P(s, v) in s.node && s.node[P(s, v)].upto == v && s.node[P(s, v)].job.Job?
  }

  ghost predicate AllOked(s: Sys, v: nat, k: nat)
    requires v < |s.views|
  {
    forall x :: x in s.views[v] && x != P(s, v) ==> Ok(x, v, k) in s.oks
  }

  ghost predicate FailOk(s: Sys, v: nat) {
    v in s.fails ==>
      var y, n := s.fails[v].y, s.fails[v].n;
      && v < |s.views| && y in s.views[v] && y != P(s, v)
      && DoneIn(s, v) < n <= |Stamped(s, v)| && Ok(y, v, n) !in s.oks
      && (Multicasting(s, v) ==> n < |Stamped(s, v)|)
  }

  ghost predicate ViewAt(s: Sys, v: nat) {
    && (v !in s.base ==> Stamped(s, v) == [] && DoneIn(s, v) == 0 && v !in s.fails)
    && (v in s.base ==>
          && 1 <= v < |s.views| && P(s, v) in s.node && s.node[P(s, v)].upto >= v
          && DoneIn(s, v) <= |Stamped(s, v)|
          && (v !in s.fails ==> DoneIn(s, v) + (if Multicasting(s, v) then 1 else 0) == |Stamped(s, v)|)
          && (forall k :: 1 <= k <= DoneIn(s, v) ==> AllOked(s, v, k)))
    && FailOk(s, v)
  }

  ghost predicate OkAt(s: Sys, o: Ok) {
    o in s.oks ==>
      && o.v in s.base && o.x in s.node && o.x != P(s, o.v) && 1 <= o.k <= |Stamped(s, o.v)|
      && o.v <= s.node[o.x].upto
      && (o.v == s.node[o.x].upto ==> s.node[o.x].last.vid == o.v && o.k <= s.node[o.x].last.seqno)
      && (forall j :: 1 <= j < o.k ==> Ok(o.x, o.v, j) in s.oks)
  }

  ghost predicate AckAt(s: Sys, a: Ack) {
    a in s.acks ==> a.v in s.base && 1 <= a.k <= DoneIn(s, a.v) <= |Stamped(s, a.v)| && a.hist == Through(s, a.v, a.k)
  }

  /** The request stamped (v, k) is acknowledged or may still be: its primary has not
      moved on, and every backup of the view executed it or has not moved on. */
  ghost predicate Open(s: Sys, v: nat, k: nat) {
    && P(s, v) in s.node
    && (k <= DoneIn(s, v) || s.node[P(s, v)].vidCommit <= v || (Multicasting(s, v) && k == |Stamped(s, v)|))
    && v < |s.views|
    && forall x :: x in s.views[v] && x != P(s, v) && x in s.node ==> Ok(x, v, k) in s.oks || s.node[x].vidCommit <= v
  }

  /** Whatever is or may be acknowledged in an earlier view is part of what a later
      view started from. */
  ghost predicate Cover(s: Sys, v: nat, w: nat, k: nat) {
    w in s.base && 1 <= v < w && k >= 1 && Open(s, v, k) ==>
      k <= |Stamped(s, v)| && Through(s, v, k) <= Base(s, w)
  }

  /** The primary is the head of its view, and listed once. */
  predicate HeadOk(first: Node, views: seq<seq<Node>>, v: nat) {
    1 <= v < |views| ==> views[v] != [] && NoRepeats(views[v]) && PrimaryOf(first, views, v) == views[v][0]
  }

  ghost predicate ViewsOk(first: Node, views: seq<seq<Node>>) {
    GoodViews(first, views) && forall v: nat :: HeadOk(first, views, v)
  }

  ghost predicate WorldOk(s: Sys) {
    && ViewsOk(s.first, s.views) && 0 !in s.base
    && s.first in s.node && (forall v, x :: 0 <= v < |s.views| && x in s.views[v] ==> x in s.node)
  }

  ghost predicate Inv(s: Sys) {
    && WorldOk(s)
    && (forall b :: NodeAt(s, b)) && (forall v :: ViewAt(s, v)) && (forall o :: OkAt(s, o))
    && (forall a :: AckAt(s, a)) && (forall v, w, k :: Cover(s, v, w, k))
  }

  lemma InitInv(s: Sys)
    requires Init(s)
    ensures Inv(s)
  {
    forall b
      ensures NodeAt(s, b)
    {
      if b in s.node { assert s.node[b] == Fresh(s.first); }
    }
    forall v: nat
      ensures HeadOk(s.first, s.views, v)
    {
      if 1 <= v < |s.views| { PrimaryIsFirst(s.first, s.views, v); }
    }
    forall v ensures ViewAt(s, v) { }
    forall o ensures OkAt(s, o) { }
    forall a ensures AckAt(s, a) { }
    forall v, w, k ensures Cover(s, v, w, k) { }
  }

  // ------------------------------------------------------------ scheduling steps

  /** The replicas keep their states, stamps and jobs, and only move on to later
      views; the record of the run is untouched. */
  ghost predicate Quiet(s: Sys, t: Sys) {
    && t == s.(node := t.node) && t.node.Keys == s.node.Keys
    && forall b :: b in s.node ==>
         var r, q := s.node[b], t.node[b];
         && q.hist == r.hist && q.last == r.last && q.upto == r.upto && q.broken == r.broken && q.job == r.job
         && q.vidCommit >= r.vidCommit
  }

  lemma QuietOpen(s: Sys, t: Sys, v: nat, k: nat)
    requires Quiet(s, t) && Open(t, v, k)
    ensures Open(s, v, k)
  {
  }

  lemma QuietView(s: Sys, t: Sys, v: nat)
    requires Quiet(s, t) && ViewAt(s, v)
    ensures ViewAt(t, v)
  {
    assert Multicasting(t, v) == Multicasting(s, v);
    if v in s.base {
      forall k | 1 <= k <= DoneIn(t, v)
        ensures AllOked(t, v, k)
      {
        assert AllOked(s, v, k);
      }
    }
    assert FailOk(s, v);
  }

  lemma QuietRecord(s: Sys, t: Sys)
    requires Inv(s) && Quiet(s, t)
    ensures WorldOk(t) && (forall v :: ViewAt(t, v)) && (forall o :: OkAt(t, o))
    ensures (forall a :: AckAt(t, a)) && (forall v, w, k :: Cover(t, v, w, k))
  {
    forall v ensures ViewAt(t, v) { assert ViewAt(s, v); QuietView(s, t, v); }
    forall o ensures OkAt(t, o) { assert OkAt(s, o); }
    forall a ensures AckAt(t, a) { assert AckAt(s, a); }
    forall v, w, k
      ensures Cover(t, v, w, k)
    {
      assert Cover(s, v, w, k);
      if Open(t, v, k) { QuietOpen(s, t, v, k); }
    }
  }

  /** The contents of a replica that keeps its state, stamps and job. */
  lemma QuietContents(s: Sys, t: Sys, b: Node)
    requires Quiet(s, t) && b in s.node
    ensures HistOk(s, b) ==> HistOk(t, b)
    ensures StampOk(s, b) ==> StampOk(t, b)
    ensures ClosedOk(s, b) ==> ClosedOk(t, b)
  {
    assert Executed(t, b) == Executed(s, b);
  }

  /** For one replica, only its place in the schedule has to be looked at. */
  lemma QuietNode(s: Sys, t: Sys, b: Node)
    requires Quiet(s, t) && b in s.node && NodeOk(s, b)
    requires ShapeOk(t, b) && ActiveOk(t, b) && SyncOk(t, b)
    requires t.node[b].job.Job? ==>
      (t.node[b].primary == b || t.node[b].primary !in ToCall(t.node[b])) && !t.node[b].insync
    ensures NodeOk(t, b)
  {
    QuietContents(s, t, b);
    assert JobOk(t, b);
  }

  lemma QuietSchedule(s: Sys, t: Sys, b: Node)
    requires Quiet(s, t) && b in s.node && NodeOk(s, b) && t.node[b] == s.node[b]
    ensures ShapeOk(t, b) && ActiveOk(t, b) && SyncOk(t, b)
  {
    assert Executed(t, b) == Executed(s, b);
  }

  lemma QuietSame(s: Sys, t: Sys, b: Node)
    requires Quiet(s, t) && b in s.node && NodeOk(s, b) && t.node[b] == s.node[b]
    ensures NodeOk(t, b)
  {
    QuietSchedule(s, t, b);
    QuietNode(s, t, b);
  }

  /** A scheduling step of one replica. */
  lemma QuietStep(s: Sys, t: Sys, b: Node)
    requires Inv(s) && b in s.node && Quiet(s, t)
    requires forall x :: x in s.node && x != b ==> t.node[x] == s.node[x]
    requires ShapeOk(t, b) && ActiveOk(t, b) && SyncOk(t, b)
    requires t.node[b].job.Job? ==>
      (t.node[b].primary == b || t.node[b].primary !in ToCall(t.node[b])) && !t.node[b].insync
    ensures Inv(t)
  {
    QuietRecord(s, t);
    forall x
      ensures NodeAt(t, x)
    {
      assert NodeAt(s, x);
      if x == b { QuietNode(s, t, b); } else if x in s.node { QuietSame(s, t, x); }
    }
  }

  lemma CommitKeepsInv(s: Sys, b: Node, v: nat)
    requires Inv(s) && Enabled(s, CommitView(b, v)) && Orderly(s, CommitView(b, v))
    ensures Inv(Next(s, CommitView(b, v)))
  {
    var t := Next(s, CommitView(b, v));
    assert NodeAt(s, b);
    CommitPicks(s, t, b, v);
    CommitSchedule(s, t, b, v);
    CommitIsQuiet(s, t, b, v);
    QuietStep(s, t, b);
  }

  lemma CommitIsQuiet(s: Sys, t: Sys, b: Node, v: nat)
    requires Enabled(s, CommitView(b, v)) && t == Next(s, CommitView(b, v))
    ensures Quiet(s, t) && forall x :: x in s.node && x != b ==> t.node[x] == s.node[x]
  {
    assert t.node.Keys == s.node.Keys;
  }

  /** A replica picks the common primary, or it goes astray. */
  lemma CommitPicks(s: Sys, t: Sys, b: Node, v: nat)
    requires Enabled(s, CommitView(b, v)) && t == Next(s, CommitView(b, v))
    requires GoodViews(s.first, s.views) && ShapeOk(s, b)
    ensures b in t.node && t.node[b].vidCommit == v && t.views == s.views
    ensures t.node[b].primary != P(s, v) ==> Astray(t, b)
  {
    var r := s.node[b];
    PickFinds(s.first, s.views, v, r.primary);
    var q := t.node[b];
    assert q == Commit(r, v, q.primary);
    if q.primary != P(s, v) {
      assert q.primary == r.primary && r.primary in s.views[v];
      if r.primary == b {
        var u := LeftBefore(s, b, v);
        assert OutAt(t.views, b, u);
      }
    }
  }

  /** A replica that takes itself for the primary of a view that has another one was
      missing from a view since it was last brought up to date. */
  lemma LeftBefore(s: Sys, b: Node, v: nat) returns (u: nat)
    requires GoodViews(s.first, s.views) && b in s.node && ShapeOk(s, b) && s.node[b].primary == b
    requires s.node[b].vidCommit < v < |s.views| && b in s.views[v] && b != P(s, v)
    ensures s.node[b].upto < u && s.node[b].vidInsync < u < v && OutAt(s.views, b, u)
  {
    var r := s.node[b];
    if b == P(s, r.vidCommit) {
      u := WentMissing(s, r.vidCommit, v);
    } else {
      u :| r.upto < u && r.vidInsync < u < r.vidCommit && OutAt(s.views, b, u);
    }
  }

  /** A primary that is a later view's member but not its primary was missing between. */
  lemma WentMissing(s: Sys, from: nat, v: nat) returns (u: nat)
    requires GoodViews(s.first, s.views) && from <= v < |s.views| && P(s, from) in s.views[v] && P(s, v) != P(s, from)
    ensures from < u < v && OutAt(s.views, P(s, from), u)
  {
    if forall w :: from < w <= v ==> !OutAt(s.views, P(s, from), w) {
      StaysHead(s, from, v);
    }
    u :| from < u <= v && OutAt(s.views, P(s, from), u);
  }

  lemma StaysHead(s: Sys, from: nat, v: nat)
    requires GoodViews(s.first, s.views) && from <= v < |s.views|
    requires forall u :: from < u <= v ==> !OutAt(s.views, P(s, from), u)
    ensures P(s, v) == P(s, from)
  {
    assert P(s, from) == PrimaryOf(s.first, s.views, from);
    if from >= 1 {
      HeadStays(s.first, s.views, from, v);
    } else if v >= 1 {
      PrimaryIsFirst(s.first, s.views, 1);
      assert PrimaryOf(s.first, s.views, 1) == P(s, from);
      HeadStays(s.first, s.views, 1, v);
    }
  }

  lemma CommitSchedule(s: Sys, t: Sys, b: Node, v: nat)
    requires Enabled(s, CommitView(b, v)) && t == Next(s, CommitView(b, v))
    requires NodeOk(s, b) && WorldOk(s) && (t.node[b].primary != P(s, v) ==> Astray(t, b))
    ensures ShapeOk(t, b) && ActiveOk(t, b) && SyncOk(t, b)
  {
    assert Executed(t, b) == Executed(s, b);
  }

  lemma StartPullKeepsInv(s: Sys, b: Node)
    requires Inv(s) && Enabled(s, BeginSync(b)) && s.node[b].primary != b
    ensures Inv(Next(s, BeginSync(b)))
  {
    var t := Next(s, BeginSync(b));
    assert NodeAt(s, b);
    assert t.node.Keys == s.node.Keys;
    PullSchedule(s, t, b);
    QuietStep(s, t, b);
  }

  lemma PullSchedule(s: Sys, t: Sys, b: Node)
    requires Enabled(s, BeginSync(b)) && s.node[b].primary != b && t == Next(s, BeginSync(b))
    requires NodeOk(s, b) && WorldOk(s)
    ensures ShapeOk(t, b) && ActiveOk(t, b) && SyncOk(t, b)
  {
    assert Executed(t, b) == Executed(s, b);
  }

  /** Replacing one replica by a state that differs only in its schedule. */
  lemma ScheduleStep(s: Sys, b: Node, q: Replica)
    requires Inv(s) && b in s.node
    requires var r := s.node[b];
      && q.hist == r.hist && q.last == r.last && q.upto == r.upto && q.broken == r.broken && q.job == r.job
      && q.vidCommit >= r.vidCommit
    requires var t := s.(node := s.node[b := q]); ShapeOk(t, b) && ActiveOk(t, b) && SyncOk(t, b)
    requires q.job.Job? ==> (q.primary == b || q.primary !in ToCall(q)) && !q.insync
    ensures Inv(s.(node := s.node[b := q]))
  {
    var t := s.(node := s.node[b := q]);
    assert t.node.Keys == s.node.Keys;
    QuietStep(s, t, b);
  }

  lemma ThreadSchedule(s: Sys, b: Node, q: Replica)
    requires b in s.node && NodeOk(s, b)
    requires var r := s.node[b];
      || q == r.(thread := Resting)
      || (r.thread.Told? && q == EnterView(r.(thread := Resting)))
      || (r.insync && q == EnterView(r.(insync := false)))
    ensures var t := s.(node := s.node[b := q]); ShapeOk(t, b) && ActiveOk(t, b) && SyncOk(t, b)
  {
    var t := s.(node := s.node[b := q]);
    assert Executed(t, b) == Executed(s, b);
  }

  lemma ThreadKeepsInv(s: Sys, e: Event)
    requires Inv(s) && Enabled(s, e) && (e.TellLost? || e.Activate? || e.FinishSync?)
    ensures Inv(Next(s, e))
  {
    assert NodeAt(s, e.b);
    var r := s.node[e.b];
    var q := if e.TellLost? then r.(thread := Resting)
             else if e.Activate? then EnterView(r.(thread := Resting)) else EnterView(r.(insync := false));
    assert Next(s, e) == s.(node := s.node[e.b := q]);
    ThreadSchedule(s, e.b, q);
    ScheduleStep(s, e.b, q);
  }

  lemma TellDoneSchedule(s: Sys, m: Node, from: Node, vid: nat)
    requires m in s.node && NodeOk(s, m)
    ensures var t := s.(node := s.node[m := TransferDone(s.node[m], from, vid).0]);
      ShapeOk(t, m) && ActiveOk(t, m) && SyncOk(t, m)
  {
    var t := s.(node := s.node[m := TransferDone(s.node[m], from, vid).0]);
    assert Executed(t, m) == Executed(s, m);
  }

  lemma ToldKeepsInv(s: Sys, b: Node, q: Replica)
    requires Inv(s) && b in s.node
    requires var r := s.node[b];
      && (r.thread.Pulled? || (r.thread.Pulling? && r.vidInsync != r.vidCommit))
      && (q == r.(thread := Told(r.thread.m)) || q == r.(thread := Resting))
    ensures Inv(s.(node := s.node[b := q]))
  {
    assert NodeAt(s, b);
    var t := s.(node := s.node[b := q]);
    assert Executed(t, b) == Executed(s, b);
    assert ShapeOk(t, b) && ActiveOk(t, b) && SyncOk(t, b);
    ScheduleStep(s, b, q);
  }

  lemma AnswerDoneKeepsInv(s: Sys, m: Node, from: Node, vid: nat)
    requires Inv(s) && m in s.node
    ensures Inv(s.(node := s.node[m := TransferDone(s.node[m], from, vid).0]))
  {
    assert NodeAt(s, m);
    TellDoneSchedule(s, m, from, vid);
    ScheduleStep(s, m, TransferDone(s.node[m], from, vid).0);
  }

  lemma PullsFromAnother(s: Sys, b: Node)
    requires b in s.node && NodeAt(s, b) && !s.node[b].thread.Resting?
    ensures s.node[b].thread.m != b
  {
  }

  lemma TellDoneKeepsInv(s: Sys, b: Node)
    requires Inv(s) && Enabled(s, TellDone(b))
    ensures Inv(Next(s, TellDone(b)))
  {
    var r := s.node[b];
    var m := r.thread.m;
    PullsFromAnother(s, b);
    var d := TransferDone(s.node[m], b, r.vidInsync);
    AnswerDoneKeepsInv(s, m, b, r.vidInsync);
    ToldKeepsInv(s.(node := s.node[m := d.0]), b, r.(thread := if d.1 then Told(m) else Resting));
  }

  // ------------------------------------------------------------------ a new primary

  /** Nothing can be acknowledged in a view that one of its members left without
      having been brought to it. */
  lemma SkippedIsClosed(s: Sys, q: Node, w: nat, v: nat, k: nat)
    requires Inv(s) && q in s.node && s.node[q].vidCommit == w && s.node[q].job.NoJob?
    requires s.node[q].upto < v < w && Qualified(s, q, s.node[q].upto, w) && k >= 1
    ensures !Open(s, v, k)
  {
    assert NodeAt(s, q) && ViewAt(s, v) && OkAt(s, Ok(q, v, k));
    assert q in s.views[v];
  }

  /** The heart of the matter: what a qualified replica has executed covers whatever
      is or may be acknowledged in earlier views. */
  lemma QualifiedCovers(s: Sys, q: Node, w: nat, v: nat, k: nat)
    requires Inv(s) && q in s.node && s.node[q].vidCommit == w && s.node[q].job.NoJob?
    requires s.node[q].upto < w && Qualified(s, q, s.node[q].upto, w)
    requires 1 <= v < w && k >= 1 && Open(s, v, k)
    ensures k <= |Stamped(s, v)| && Through(s, v, k) <= s.node[q].hist
  {
    var f := s.node[q].upto;
    assert NodeAt(s, q) && ViewAt(s, v) && OkAt(s, Ok(q, v, k));
    if v > f {
      SkippedIsClosed(s, q, w, v, k);
    } else if v == f {
      assert ViewAt(s, f);
      assert Through(s, f, k) <= Through(s, f, Executed(s, q));
    } else {
      assert Cover(s, v, f, k);
      assert Base(s, f) <= s.node[q].hist;
    }
  }

  /** The state after the primary of view `w` has started to serve its state. */
  ghost function Served(s: Sys, b: Node, w: nat): (t: Sys)
    requires b in s.node && w < |s.views|
  {
    s.(node := s.node[b := Serve(s.node[b], s.views[w])], base := s.base[w := s.node[b].hist])
  }

  ghost predicate MayServe(s: Sys, b: Node, w: nat) {
    && b in s.node && w < |s.views| && b == P(s, w)
    && var r := s.node[b];
    && r.vidCommit == w >= 1 && r.inviewchange && r.thread.Resting? && !r.insync && r.primary == b && r.job.NoJob?
    && r.upto < w && b in s.views[w] && w !in s.base
  }

  /** A replica that takes itself for the primary and has not left the group is. */
  lemma NotYetServed(s: Sys, b: Node)
    requires Inv(s) && Enabled(s, BeginSync(b)) && Orderly(s, BeginSync(b)) && s.node[b].primary == b
    ensures MayServe(s, b, s.node[b].vidCommit)
  {
    var w := s.node[b].vidCommit;
    assert NodeAt(s, b) && ViewAt(s, w);
  }

  /** A replica is not affected by the start of a view it was not brought to. */
  lemma BaseGrows(s: Sys, t: Sys, w: nat, x: Node)
    requires x in s.node && NodeOk(s, x) && 0 !in s.base && w !in s.base && w >= 1
    requires t == s.(node := t.node, base := t.base) && x in t.node && t.node[x] == s.node[x]
    requires forall v :: v != w ==> Base(t, v) == Base(s, v)
    requires t.base.Keys == s.base.Keys + {w}
    ensures NodeOk(t, x)
  {
    BaseGrowsSchedule(s, t, w, x);
    BaseGrowsContents(s, t, w, x);
    assert JobOk(t, x);
  }

  lemma BaseGrowsContents(s: Sys, t: Sys, w: nat, x: Node)
    requires x in s.node && NodeOk(s, x) && 0 !in s.base && w !in s.base && w >= 1
    requires t == s.(node := t.node, base := t.base) && x in t.node && t.node[x] == s.node[x]
    requires forall v :: v != w ==> Base(t, v) == Base(s, v)
    ensures HistOk(t, x) && StampOk(t, x) && ClosedOk(t, x)
  {
    assert s.node[x].upto != w && s.node[x].last.vid != w;
    assert Executed(t, x) == Executed(s, x);
    assert Through(t, s.node[x].upto, Executed(s, x)) == Through(s, s.node[x].upto, Executed(s, x));
  }

  lemma BaseGrowsSchedule(s: Sys, t: Sys, w: nat, x: Node)
    requires x in s.node && NodeOk(s, x) && w !in s.base
    requires t == s.(node := t.node, base := t.base) && x in t.node && t.node[x] == s.node[x]
    requires t.base.Keys == s.base.Keys + {w}
    ensures ShapeOk(t, x) && ActiveOk(t, x) && SyncOk(t, x)
  {
    assert Executed(t, x) == Executed(s, x);
  }

  lemma ServedOther(s: Sys, b: Node, w: nat, x: Node)
    requires Inv(s) && MayServe(s, b, w) && x in s.node && x != b
    ensures NodeOk(Served(s, b, w), x)
  {
    assert NodeAt(s, x);
    BaseGrows(s, Served(s, b, w), w, x);
  }

  lemma ServedSelf(s: Sys, b: Node, w: nat)
    requires Inv(s) && MayServe(s, b, w)
    ensures NodeOk(Served(s, b, w), b)
  {
    assert NodeAt(s, b) && ViewAt(s, w);
    ServedSchedule(s, b, w);
    ServedContents(s, b, w);
  }

  lemma ServedSchedule(s: Sys, b: Node, w: nat)
    requires MayServe(s, b, w) && NodeOk(s, b) && ViewAt(s, w)
    ensures var t := Served(s, b, w); ShapeOk(t, b) && ActiveOk(t, b) && SyncOk(t, b) && JobOk(t, b)
  {
  }

  lemma ServedContents(s: Sys, b: Node, w: nat)
    requires MayServe(s, b, w) && NodeOk(s, b) && ViewAt(s, w)
    ensures var t := Served(s, b, w); HistOk(t, b) && StampOk(t, b) && ClosedOk(t, b)
  {
    assert Executed(Served(s, b, w), b) == 0;
  }

  lemma ServedView(s: Sys, b: Node, w: nat, v: nat)
    requires Inv(s) && MayServe(s, b, w)
    ensures ViewAt(Served(s, b, w), v)
  {
    var t := Served(s, b, w);
    assert ViewAt(s, v);
    assert Multicasting(t, v) == Multicasting(s, v);
    if v in s.base {
      forall k | 1 <= k <= DoneIn(t, v)
        ensures AllOked(t, v, k)
      {
        assert AllOked(s, v, k);
      }
    }
    assert FailOk(s, v);
  }

  lemma ServedOpen(s: Sys, b: Node, w: nat, v: nat, k: nat)
    requires MayServe(s, b, w) && Open(Served(s, b, w), v, k)
    ensures Open(s, v, k)
  {
    var t := Served(s, b, w);
    assert Multicasting(t, v) == Multicasting(s, v);
  }

  lemma ServedCover(s: Sys, b: Node, w: nat, v: nat, u: nat, k: nat)
    requires Inv(s) && MayServe(s, b, w) && Qualified(s, b, s.node[b].upto, w)
    ensures Cover(Served(s, b, w), v, u, k)
  {
    var t := Served(s, b, w);
    assert Cover(s, v, u, k);
    if u in t.base && 1 <= v < u && k >= 1 && Open(t, v, k) {
      ServedOpen(s, b, w, v, k);
      assert ViewAt(s, w);
      if u == w { QualifiedCovers(s, b, w, v, k); }
      assert v != w;
    }
  }

  lemma ServedOk(s: Sys, b: Node, w: nat, o: Ok)
    requires Inv(s) && MayServe(s, b, w)
    ensures OkAt(Served(s, b, w), o)
  {
    assert OkAt(s, o) && NodeAt(s, b);
  }

  lemma ServedAck(s: Sys, b: Node, w: nat, a: Ack)
    requires Inv(s) && MayServe(s, b, w)
    ensures AckAt(Served(s, b, w), a)
  {
    assert AckAt(s, a);
  }

  lemma ServedNodes(s: Sys, b: Node, w: nat)
    requires Inv(s) && MayServe(s, b, w)
    ensures forall x :: NodeAt(Served(s, b, w), x)
  {
    forall x
      ensures NodeAt(Served(s, b, w), x)
    {
      if x == b { ServedSelf(s, b, w); } else if x in s.node { ServedOther(s, b, w, x); }
    }
  }

  lemma ServeKeepsInv(s: Sys, b: Node)
    requires Inv(s) && Enabled(s, BeginSync(b)) && Orderly(s, BeginSync(b)) && s.node[b].primary == b
    ensures Inv(Next(s, BeginSync(b)))
  {
    var w := s.node[b].vidCommit;
    NotYetServed(s, b);
    var t := Served(s, b, w);
    ServedNodes(s, b, w);
    forall v ensures ViewAt(t, v) { ServedView(s, b, w, v); }
    forall o ensures OkAt(t, o) { ServedOk(s, b, w, o); }
    forall a ensures AckAt(t, a) { ServedAck(s, b, w, a); }
    forall v, u, k ensures Cover(t, v, u, k) { ServedCover(s, b, w, v, u, k); }
  }

  // ------------------------------------------------------------ steps of one replica

  /** Only replica `b` changes; it goes on, and keeps having or not having a job. */
  ghost predicate OneStep(s: Sys, t: Sys, b: Node) {
    && b in s.node && b in t.node && t == s.(node := s.node[b := t.node[b]])
    && t.node[b].upto >= s.node[b].upto && t.node[b].vidCommit >= s.node[b].vidCommit
    && t.node[b].job.Job? == s.node[b].job.Job?
    && (t.node[b].job.Job? ==> t.node[b].upto == s.node[b].upto)
  }

  lemma OneStepOther(s: Sys, t: Sys, b: Node, x: Node)
    requires OneStep(s, t, b) && x in s.node && x != b && NodeOk(s, x)
    ensures NodeOk(t, x)
  {
    var v := s.node[x].upto + 1;
    assert MoreOks(s, t, v, x);
    MoreOksContents(s, t, v, x);
    MoreOksSchedule(s, t, v, x);
  }

  lemma OneStepView(s: Sys, t: Sys, b: Node, v: nat)
    requires OneStep(s, t, b) && ViewAt(s, v)
    ensures ViewAt(t, v)
  {
    assert Multicasting(t, v) == Multicasting(s, v);
    if v in s.base {
      forall k | 1 <= k <= DoneIn(t, v)
        ensures AllOked(t, v, k)
      {
        assert AllOked(s, v, k);
      }
    }
    assert FailOk(s, v);
  }

  lemma OneStepCover(s: Sys, t: Sys, b: Node, v: nat, w: nat, k: nat)
    requires OneStep(s, t, b) && Cover(s, v, w, k)
    ensures Cover(t, v, w, k)
  {
    assert Multicasting(t, v) == Multicasting(s, v);
    if Open(t, v, k) { assert Open(s, v, k); }
  }

  lemma OneStepKeepsInv(s: Sys, t: Sys, b: Node)
    requires Inv(s) && OneStep(s, t, b) && NodeOk(t, b)
    requires forall o :: o in s.oks && o.x == b ==> OkAt(t, o)
    ensures Inv(t)
  {
    forall x
      ensures NodeAt(t, x)
    {
      assert NodeAt(s, x);
      if x != b && x in s.node { OneStepOther(s, t, b, x); }
    }
    forall v ensures ViewAt(t, v) { assert ViewAt(s, v); OneStepView(s, t, b, v); }
    forall o ensures OkAt(t, o) { assert OkAt(s, o); }
    forall a ensures AckAt(t, a) { assert AckAt(s, a); }
    forall v, w, k ensures Cover(t, v, w, k) { assert Cover(s, v, w, k); OneStepCover(s, t, b, v, w, k); }
  }

  // ---------------------------------------------------------------------- transfer

  /** Equal viewstamps mean equal states exactly when neither or both of the two
      replicas have given up the request that the stamp names. */
  lemma EqualStamps(s: Sys, b: Node, m: Node)
    requires Inv(s) && b in s.node && m in s.node && s.node[b].job.NoJob? && s.node[m].job.NoJob?
    requires s.node[b].last == s.node[m].last
    ensures s.node[b].hist == s.node[m].hist <==> s.node[b].broken == s.node[m].broken
  {
    assert NodeAt(s, b) && NodeAt(s, m);
    var u, k := s.node[b].last.vid, s.node[b].last.seqno;
    assert |Through(s, u, k)| == |Base(s, u)| + k;
    assert DoneIn(s, u) <= |Stamped(s, u)| ==> |Through(s, u, DoneIn(s, u))| == |Base(s, u)| + DoneIn(s, u);
  }

  lemma ServingState(s: Sys, m: Node)
    requires Inv(s) && m in s.node && s.node[m].insync
    ensures var w := s.node[m].vidInsync;
      && w in s.base && s.node[m].hist == Base(s, w) && s.node[m].last.vid < w && m == P(s, w)
      && Stamped(s, w) == [] && s.node[m].job.NoJob?
  {
    assert NodeAt(s, m);
    assert Stamped(s, s.node[m].vidInsync)[..0] == [];
  }

  /** A state transfer leaves the backup with the primary's state if and only if the
      viewstamps do not hide a request that was given up on one side only. */
  lemma TransferExact(s: Sys, b: Node)
    requires Inv(s) && Enabled(s, Transfer(b)) && s.node[b].job.NoJob?
    ensures Next(s, Transfer(b)).node[b].hist == s.node[s.node[b].thread.m].hist
      <==> StampsTell(s.node[b], s.node[s.node[b].thread.m])
  {
    assert NodeAt(s, b);
    var m := s.node[b].thread.m;
    ServingState(s, m);
    if s.node[b].last == s.node[m].last { EqualStamps(s, b, m); }
  }

  /** The replica that a transfer leaves behind. */
  ghost predicate Installed(s: Sys, t: Sys, b: Node, m: Node) {
    && b in s.node && m in s.node && b in t.node && t == s.(node := s.node[b := t.node[b]])
    && var r, q, w := s.node[b], t.node[b], s.node[b].vidInsync;
    && q == r.(thread := Pulled(m), upto := w, hist := Base(s, w), last := s.node[m].last, broken := s.node[m].broken)
    && r.thread.Pulling? && r.thread.m == m && r.job.NoJob? && s.node[m].insync && s.node[m].vidInsync == w
  }

  lemma InstalledSchedule(s: Sys, t: Sys, b: Node, m: Node)
    requires Inv(s) && Installed(s, t, b, m)
    ensures ShapeOk(t, b) && ActiveOk(t, b) && SyncOk(t, b) && JobOk(t, b) && ClosedOk(t, b)
  {
    assert NodeAt(s, b) && NodeAt(s, m);
  }

  lemma InstalledContents(s: Sys, t: Sys, b: Node, m: Node)
    requires Inv(s) && Installed(s, t, b, m)
    ensures HistOk(t, b) && StampOk(t, b)
  {
    assert NodeAt(s, b) && NodeAt(s, m);
    ServingState(s, m);
    assert Executed(t, b) == 0;
    assert Through(t, s.node[b].vidInsync, 0) == Base(s, s.node[b].vidInsync);
  }

  lemma TransferInstalls(s: Sys, b: Node)
    requires Inv(s) && Enabled(s, Transfer(b)) && Orderly(s, Transfer(b))
    ensures Installed(s, Next(s, Transfer(b)), b, s.node[b].thread.m)
  {
    assert NodeAt(s, b);
    ServingState(s, s.node[b].thread.m);
    TransferExact(s, b);
  }

  lemma TransferKeepsInv(s: Sys, b: Node)
    requires Inv(s) && Enabled(s, Transfer(b)) && Orderly(s, Transfer(b))
    ensures Inv(Next(s, Transfer(b)))
  {
    TransferInstalls(s, b);
    InstalledKeepsInv(s, Next(s, Transfer(b)), b, s.node[b].thread.m);
  }

  lemma InstalledKeepsInv(s: Sys, t: Sys, b: Node, m: Node)
    requires Inv(s) && Installed(s, t, b, m)
    ensures Inv(t)
  {
    assert NodeAt(s, b);
    InstalledOneStep(s, t, b, m);
    InstalledNode(s, t, b, m);
    InstalledOks(s, t, b, m);
    OneStepKeepsInv(s, t, b);
  }

  lemma InstalledNode(s: Sys, t: Sys, b: Node, m: Node)
    requires Inv(s) && Installed(s, t, b, m)
    ensures b in t.node && NodeOk(t, b)
  {
    InstalledSchedule(s, t, b, m);
    InstalledContents(s, t, b, m);
  }

  lemma InstalledOks(s: Sys, t: Sys, b: Node, m: Node)
    requires Inv(s) && Installed(s, t, b, m)
    ensures forall o :: o in s.oks && o.x == b ==> OkAt(t, o)
  {
    assert NodeAt(s, b);
    forall o | o in s.oks && o.x == b
      ensures OkAt(t, o)
    {
      assert OkAt(s, o);
      InstalledOk(s, t, b, m, o);
    }
  }

  lemma InstalledOk(s: Sys, t: Sys, b: Node, m: Node, o: Ok)
    requires NodeAt(s, b) && OkAt(s, o) && Installed(s, t, b, m) && o.x == b
    ensures OkAt(t, o)
  {
  }

  lemma InstalledOneStep(s: Sys, t: Sys, b: Node, m: Node)
    requires NodeAt(s, b) && Installed(s, t, b, m)
    ensures OneStep(s, t, b)
  {
  }

  // ------------------------------------------------------------ a request is stamped

  ghost function Began(s: Sys, b: Node, req: Req): (t: Sys)
    requires b in s.node && s.node[b].vidCommit < |s.views|
  {
    var r := s.node[b];
    s.(node := s.node[b := StartJob(r, req, s.views[r.vidCommit])],
       stamped := s.stamped[r.myvs.vid := Stamped(s, r.myvs.vid) + [req]])
  }

  ghost predicate MayBegin(s: Sys, b: Node, v: nat) {
    && b in s.node && v < |s.views| && b == P(s, v) && v in s.base
    && var r := s.node[b];
    r.vidCommit == v == r.upto == r.myvs.vid >= 1 && !r.inviewchange && r.primary == b && r.job.NoJob?
  }

  lemma BeganSchedule(s: Sys, t: Sys, b: Node, v: nat, req: Req, x: Node)
    requires MayBegin(s, b, v) && t == Began(s, b, req) && x in s.node && x != b && NodeOk(s, x)
    ensures ShapeOk(t, x) && ActiveOk(t, x) && SyncOk(t, x) && JobOk(t, x) && ClosedOk(t, x)
  {
    assert t.node[x] == s.node[x];
    assert Executed(t, x) == Executed(s, x);
    assert x == P(s, s.node[x].upto) ==> s.node[x].upto != v;
    BeganJob(s, t, b, v, req, x);
  }

  lemma BeganJob(s: Sys, t: Sys, b: Node, v: nat, req: Req, x: Node)
    requires MayBegin(s, b, v) && t == Began(s, b, req) && x in s.node && x != b && JobOk(s, x) && ClosedOk(s, x)
    ensures JobOk(t, x) && ClosedOk(t, x)
  {
    assert t.node[x] == s.node[x];
    assert x == P(s, s.node[x].upto) ==> s.node[x].upto != v;
  }

  lemma BeganOther(s: Sys, t: Sys, b: Node, v: nat, req: Req, x: Node)
    requires MayBegin(s, b, v) && t == Began(s, b, req) && x in s.node && x != b && NodeOk(s, x)
    ensures NodeOk(t, x)
  {
    BeganSchedule(s, t, b, v, req, x);
    assert t.node[x] == s.node[x];
    assert Executed(t, x) == Executed(s, x);
    BeganThrough(s, t, b, v, req, s.node[x].upto, Executed(s, x));
    BeganStamp(s, t, b, v, req, x);
  }

  lemma BeganStamp(s: Sys, t: Sys, b: Node, v: nat, req: Req, x: Node)
    requires MayBegin(s, b, v) && t == Began(s, b, req) && x in s.node && x != b && StampOk(s, x)
    ensures StampOk(t, x)
  {
    var u := s.node[x].last.vid;
    assert t.node[x] == s.node[x];
    assert x == P(s, s.node[x].upto) ==> s.node[x].upto != v;
    BeganThrough(s, t, b, v, req, u, s.node[x].last.seqno);
    if s.node[x].broken { BeganThrough(s, t, b, v, req, u, DoneIn(s, u)); }
  }

  lemma BeganThrough(s: Sys, t: Sys, b: Node, v: nat, req: Req, u: nat, k: nat)
    requires MayBegin(s, b, v) && t == Began(s, b, req) && k <= |Stamped(s, u)|
    ensures k <= |Stamped(t, u)| && Through(t, u, k) == Through(s, u, k)
  {
    assert Stamped(t, u)[..k] == Stamped(s, u)[..k];
  }

  lemma BeganSelf(s: Sys, t: Sys, b: Node, v: nat, req: Req)
    requires MayBegin(s, b, v) && t == Began(s, b, req) && NodeOk(s, b) && ViewAt(s, v)
    requires HeadOk(s.first, s.views, v) && forall o :: OkAt(s, o)
    ensures NodeOk(t, b)
  {
    assert Executed(t, b) == Executed(s, b);
    assert ShapeOk(t, b) && ActiveOk(t, b) && SyncOk(t, b);
    BeganThrough(s, t, b, v, req, v, Executed(s, b));
    var n := |Stamped(t, v)|;
    forall x
      ensures Ok(x, v, n) !in s.oks
    {
      assert OkAt(s, Ok(x, v, n));
    }
    assert JobOk(t, b);
    assert FailOk(s, v);
    assert StampOk(t, b);
  }

  lemma BeganView(s: Sys, t: Sys, b: Node, v: nat, req: Req, u: nat)
    requires MayBegin(s, b, v) && t == Began(s, b, req) && ViewAt(s, u)
    ensures ViewAt(t, u)
  {
    assert FailOk(s, u);
    if u in s.base {
      forall k | 1 <= k <= DoneIn(t, u)
        ensures AllOked(t, u, k)
      {
        assert AllOked(s, u, k);
      }
    }
    assert u != v ==> Multicasting(t, u) == Multicasting(s, u);
    assert !Multicasting(s, v) && Multicasting(t, v);
  }

  lemma BeganCover(s: Sys, t: Sys, b: Node, v: nat, req: Req, u: nat, w: nat, k: nat)
    requires MayBegin(s, b, v) && t == Began(s, b, req) && Cover(s, u, w, k)
    ensures Cover(t, u, w, k)
  {
    if w in t.base && 1 <= u < w && k >= 1 && Open(t, u, k) {
      assert u != v ==> Multicasting(t, u) == Multicasting(s, u);
      assert Open(s, u, k);
      BeganThrough(s, t, b, v, req, u, k);
    }
  }

  lemma BeganNodes(s: Sys, t: Sys, b: Node, v: nat, req: Req)
    requires Inv(s) && MayBegin(s, b, v) && t == Began(s, b, req)
    ensures forall x :: NodeAt(t, x)
  {
    forall x
      ensures NodeAt(t, x)
    {
      assert NodeAt(s, x);
      if x == b {
        assert ViewAt(s, v) && HeadOk(s.first, s.views, v);
        BeganSelf(s, t, b, v, req);
      } else if x in s.node {
        BeganOther(s, t, b, v, req, x);
      }
    }
  }

  lemma StartInvokeMayBegin(s: Sys, b: Node, req: Req)
    requires Inv(s) && Enabled(s, StartInvoke(b, req))
    ensures MayBegin(s, b, s.node[b].vidCommit) && Next(s, StartInvoke(b, req)) == Began(s, b, req)
  {
    assert NodeAt(s, b);
  }

  lemma BeganKeepsInv(s: Sys, t: Sys, b: Node, v: nat, req: Req)
    requires Inv(s) && MayBegin(s, b, v) && t == Began(s, b, req)
    ensures Inv(t)
  {
    BeganNodes(s, t, b, v, req);
    forall u ensures ViewAt(t, u) { assert ViewAt(s, u); BeganView(s, t, b, v, req, u); }
    forall o ensures OkAt(t, o) { BeganOk(s, t, b, v, req, o); }
    forall a ensures AckAt(t, a) { BeganAck(s, t, b, v, req, a); }
    forall u, w, k ensures Cover(t, u, w, k) { assert Cover(s, u, w, k); BeganCover(s, t, b, v, req, u, w, k); }
  }

  lemma StartInvokeKeepsInv(s: Sys, b: Node, req: Req)
    requires Inv(s) && Enabled(s, StartInvoke(b, req))
    ensures Inv(Next(s, StartInvoke(b, req)))
  {
    StartInvokeMayBegin(s, b, req);
    BeganKeepsInv(s, Began(s, b, req), b, s.node[b].vidCommit, req);
  }

  lemma BeganOk(s: Sys, t: Sys, b: Node, v: nat, req: Req, o: Ok)
    requires Inv(s) && MayBegin(s, b, v) && t == Began(s, b, req)
    ensures OkAt(t, o)
  {
    assert OkAt(s, o) && NodeAt(s, b);
  }

  lemma BeganAck(s: Sys, t: Sys, b: Node, v: nat, req: Req, a: Ack)
    requires Inv(s) && MayBegin(s, b, v) && t == Began(s, b, req)
    ensures AckAt(t, a)
  {
    assert AckAt(s, a);
    if a in s.acks { BeganThrough(s, t, b, v, req, a.v, a.k); }
  }

  // --------------------------------------------------------- a backup executes it

  /** Backup `x` has executed the request that `b` is multicasting in view `v`. */
  ghost function Taken(s: Sys, x: Node, v: nat, n: nat, req: Req): (t: Sys)
    requires x in s.node
  {
    var r := s.node[x];
    s.(node := s.node[x := Invoke(r, x, Stamp(v, n), req).0], oks := s.oks + {Ok(x, v, n)})
  }

  ghost predicate MayTake(s: Sys, b: Node, x: Node, v: nat, n: nat, req: Req) {
    && b in s.node && x in s.node && x != b && b == P(s, v) && v in s.base && v < |s.views|
    && s.node[b].upto == v && s.node[b].last == Stamp(v, n) && Calling(s.node[b]) && s.node[b].job.answer.Waiting?
    && s.node[b].job.view[s.node[b].job.i] == x && s.node[b].job.req == req
    && n == |Stamped(s, v)| >= 1 && req == Stamped(s, v)[n - 1]
    && !s.node[x].inviewchange && s.node[x].primary != x && s.node[x].myvs == Stamp(v, n)
  }

  /** A backup that takes a request has executed all the earlier ones of the view. */
  lemma TakerIsUpToDate(s: Sys, b: Node, x: Node, v: nat, n: nat, req: Req)
    requires Inv(s) && MayTake(s, b, x, v, n, req)
    ensures var r := s.node[x];
      && r.upto == v == r.vidCommit && x != P(s, v) && Executed(s, x) == n - 1 && r.hist == Through(s, v, n - 1)
      && r.job.NoJob? && r.thread.Resting? && !r.insync
    ensures forall j :: 1 <= j < n ==> Ok(x, v, j) in s.oks
    ensures Ok(x, v, n) !in s.oks
  {
    assert NodeAt(s, x) && OkAt(s, Ok(x, v, n));
  }

  lemma TakenSelf(s: Sys, b: Node, x: Node, v: nat, n: nat, req: Req)
    requires Inv(s) && MayTake(s, b, x, v, n, req)
    ensures NodeOk(Taken(s, x, v, n, req), x)
  {
    var t := Taken(s, x, v, n, req);
    TakerIsUpToDate(s, b, x, v, n, req);
    assert NodeAt(s, x) && ViewAt(s, v);
    assert Executed(t, x) == n;
    assert Stamped(s, v)[..n] == Stamped(s, v)[..n - 1] + [req];
    assert Through(t, v, n) == Through(s, v, n - 1) + [req];
    assert ShapeOk(t, x) && ActiveOk(t, x) && SyncOk(t, x) && JobOk(t, x);
    assert ClosedOk(t, x);
  }

  /** Replica `y` looks the same in `t`, where view `v` has more executions. */
  ghost predicate MoreOks(s: Sys, t: Sys, v: nat, y: Node) {
    && t == s.(node := t.node, oks := t.oks) && s.oks <= t.oks
    && y in s.node && y in t.node && t.node[y] == s.node[y]
    && (forall o :: o in t.oks && o !in s.oks ==> o.v == v)
    && (s.node[y].job.Job? ==> s.node[y].upto != v)
  }

  lemma MoreOksContents(s: Sys, t: Sys, v: nat, y: Node)
    requires MoreOks(s, t, v, y) && NodeOk(s, y)
    ensures HistOk(t, y) && StampOk(t, y) && ClosedOk(t, y)
  {
    assert Executed(t, y) == Executed(s, y);
  }

  lemma MoreOksSchedule(s: Sys, t: Sys, v: nat, y: Node)
    requires MoreOks(s, t, v, y) && NodeOk(s, y)
    ensures ShapeOk(t, y) && ActiveOk(t, y) && SyncOk(t, y) && JobOk(t, y)
  {
    assert Executed(t, y) == Executed(s, y);
  }

  lemma TakenOther(s: Sys, b: Node, x: Node, v: nat, n: nat, req: Req, y: Node)
    requires Inv(s) && MayTake(s, b, x, v, n, req) && y in s.node && y != x && y != b
    ensures NodeOk(Taken(s, x, v, n, req), y)
  {
    var t := Taken(s, x, v, n, req);
    assert NodeAt(s, y);
    assert MoreOks(s, t, v, y);
    MoreOksContents(s, t, v, y);
    MoreOksSchedule(s, t, v, y);
  }

  /** The primary after the call was answered with OK. */
  ghost function Answered(t: Sys, b: Node): (u: Sys)
    requires b in t.node && t.node[b].job.Job?
  {
    t.(node := t.node[b := t.node[b].(job := t.node[b].job.(answer := Good))])
  }

  lemma AnsweredSelf(s: Sys, b: Node, x: Node, v: nat, n: nat, req: Req)
    requires Inv(s) && MayTake(s, b, x, v, n, req)
    ensures NodeOk(Answered(Taken(s, x, v, n, req), b), b)
  {
    var u := Answered(Taken(s, x, v, n, req), b);
    assert NodeAt(s, b);
    assert Executed(u, b) == Executed(s, b);
    assert ShapeOk(u, b) && ActiveOk(u, b) && SyncOk(u, b);
    AnsweredJob(s, b, x, v, n, req);
  }

  lemma AnsweredJob(s: Sys, b: Node, x: Node, v: nat, n: nat, req: Req)
    requires Inv(s) && MayTake(s, b, x, v, n, req)
    ensures JobOk(Answered(Taken(s, x, v, n, req), b), b)
  {
    var u := Answered(Taken(s, x, v, n, req), b);
    assert NodeAt(s, b);
    var view, i := s.node[b].job.view, s.node[b].job.i;
    assert HeadOk(s.first, s.views, v);
    forall j | i <= j < |view| && Ok(view[j], v, n) in u.oks
      ensures j == i
    {
      if Ok(view[j], v, n) !in s.oks { assert view[j] == x == view[i]; }
    }
  }

  lemma AnsweredOther(t: Sys, b: Node, y: Node)
    requires b in t.node && t.node[b].job.Job? && y in t.node && y != b && NodeOk(t, y)
    ensures NodeOk(Answered(t, b), y)
  {
    assert OneStep(t, Answered(t, b), b);
    OneStepOther(t, Answered(t, b), b, y);
  }

  lemma TakenView(s: Sys, b: Node, x: Node, v: nat, n: nat, req: Req, w: nat)
    requires Inv(s) && MayTake(s, b, x, v, n, req)
    ensures ViewAt(Answered(Taken(s, x, v, n, req), b), w)
  {
    var u := Answered(Taken(s, x, v, n, req), b);
    TakerIsUpToDate(s, b, x, v, n, req);
    assert ViewAt(s, w) && FailOk(s, w);
    assert Multicasting(u, w) == Multicasting(s, w);
    assert Multicasting(s, v);
    if w in s.base {
      forall k | 1 <= k <= DoneIn(u, w)
        ensures AllOked(u, w, k)
      {
        assert AllOked(s, w, k);
      }
    }
  }

  lemma TakenOk(s: Sys, b: Node, x: Node, v: nat, n: nat, req: Req, o: Ok)
    requires Inv(s) && MayTake(s, b, x, v, n, req)
    ensures OkAt(Answered(Taken(s, x, v, n, req), b), o)
  {
    TakerIsUpToDate(s, b, x, v, n, req);
    assert OkAt(s, o);
  }

  lemma TakenCover(s: Sys, b: Node, x: Node, v: nat, n: nat, req: Req, v': nat, w: nat, k: nat)
    requires Inv(s) && MayTake(s, b, x, v, n, req)
    ensures Cover(Answered(Taken(s, x, v, n, req), b), v', w, k)
  {
    var u := Answered(Taken(s, x, v, n, req), b);
    TakerIsUpToDate(s, b, x, v, n, req);
    assert Cover(s, v', w, k);
    TakenOpen(s, u, b, x, v, n, req, v', k);
  }

  lemma TakenOpen(s: Sys, u: Sys, b: Node, x: Node, v: nat, n: nat, req: Req, w: nat, k: nat)
    requires MayTake(s, b, x, v, n, req) && s.node[x].vidCommit == v && s.node[x].job.NoJob?
    requires u == Answered(Taken(s, x, v, n, req), b)
    ensures Open(u, w, k) ==> Open(s, w, k)
  {
    assert Multicasting(u, w) == Multicasting(s, w);
  }

  lemma TakenKeepsInv(s: Sys, b: Node, x: Node, v: nat, n: nat, req: Req)
    requires Inv(s) && MayTake(s, b, x, v, n, req)
    ensures Inv(Answered(Taken(s, x, v, n, req), b))
  {
    var t := Taken(s, x, v, n, req);
    var u := Answered(t, b);
    forall y
      ensures NodeAt(u, y)
    {
      if y == b {
        AnsweredSelf(s, b, x, v, n, req);
      } else if y in s.node {
        if y == x { TakenSelf(s, b, x, v, n, req); } else { TakenOther(s, b, x, v, n, req, y); }
        AnsweredOther(t, b, y);
      }
    }
    forall w ensures ViewAt(u, w) { TakenView(s, b, x, v, n, req, w); }
    forall o ensures OkAt(u, o) { TakenOk(s, b, x, v, n, req, o); }
    forall a ensures AckAt(u, a) { assert AckAt(s, a); }
    forall v', w, k ensures Cover(u, v', w, k) { TakenCover(s, b, x, v, n, req, v', w, k); }
  }

  // ---------------------------------------------------------- the loop of the primary

  /** A step of the loop that only moves the job. */
  lemma JobStep(s: Sys, b: Node, job: Job)
    requires Inv(s) && b in s.node && s.node[b].job.Job? && job.Job?
    requires JobOk(s.(node := s.node[b := s.node[b].(job := job)]), b)
    ensures Inv(s.(node := s.node[b := s.node[b].(job := job)]))
  {
    var t := s.(node := s.node[b := s.node[b].(job := job)]);
    assert NodeAt(s, b);
    assert Executed(t, b) == Executed(s, b);
    assert ShapeOk(t, b) && ActiveOk(t, b) && SyncOk(t, b);
    forall o | o in s.oks && o.x == b
      ensures OkAt(t, o)
    {
      assert OkAt(s, o);
    }
    assert OneStep(s, t, b);
    OneStepKeepsInv(s, t, b);
  }

  lemma CallLostKeepsInv(s: Sys, b: Node)
    requires Inv(s) && b in s.node && Calling(s.node[b]) && s.node[b].job.answer.Waiting?
    ensures Inv(s.(node := s.node[b := s.node[b].(job := s.node[b].job.(answer := Refused))]))
  {
    assert NodeAt(s, b);
    JobStep(s, b, s.node[b].job.(answer := Refused));
  }

  lemma CallTakes(s: Sys, b: Node)
    requires Inv(s) && Enabled(s, CallArrives(b))
    requires var r := s.node[b];
      var x := r.job.view[r.job.i];
      Invoke(s.node[x], x, r.last, r.job.req).1
    ensures var r := s.node[b];
      MayTake(s, b, r.job.view[r.job.i], r.last.vid, r.last.seqno, r.job.req)
  {
    var r := s.node[b];
    var x := r.job.view[r.job.i];
    assert NodeAt(s, b) && NodeAt(s, x) && ViewAt(s, r.upto);
    CallIsTaken(s, b, x);
  }

  lemma CallIsTaken(s: Sys, b: Node, x: Node)
    requires Enabled(s, CallArrives(b)) && x == s.node[b].job.view[s.node[b].job.i]
    requires NodeOk(s, b) && NodeOk(s, x) && ViewAt(s, s.node[b].upto)
    requires Invoke(s.node[x], x, s.node[b].last, s.node[b].job.req).1
    ensures MayTake(s, b, x, s.node[b].last.vid, s.node[b].last.seqno, s.node[b].job.req)
  {
  }

  lemma CallArrivesKeepsInv(s: Sys, b: Node)
    requires Inv(s) && Enabled(s, CallArrives(b))
    ensures Inv(Next(s, CallArrives(b)))
  {
    var r := s.node[b];
    var x := r.job.view[r.job.i];
    var q := Invoke(s.node[x], x, r.last, r.job.req);
    if q.1 {
      CallTakes(s, b);
      TakenKeepsInv(s, b, x, r.last.vid, r.last.seqno, r.job.req);
    } else {
      assert s.node[x := s.node[x]] == s.node;
      CallLostKeepsInv(s, b);
    }
  }

  lemma AdvanceKeepsInv(s: Sys, b: Node)
    requires Inv(s) && Enabled(s, Proceed(b)) && Advance(s.node[b]).job.Job?
    ensures Inv(s.(node := s.node[b := Advance(s.node[b])]))
  {
    assert NodeAt(s, b);
    AdvanceJob(s, b);
    JobStep(s, b, Advance(s.node[b]).job);
  }

  lemma AdvanceJob(s: Sys, b: Node)
    requires Enabled(s, Proceed(b)) && Advance(s.node[b]).job.Job? && JobOk(s, b)
    ensures Advance(s.node[b]) == s.node[b].(job := Advance(s.node[b]).job)
    ensures JobOk(s.(node := s.node[b := Advance(s.node[b])]), b)
  {
    var r := s.node[b];
    assert r.job.view[..r.job.i + 1] == r.job.view[..r.job.i] + [r.job.view[r.job.i]];
  }

  // ------------------------------------------------------- the multicast is given up

  ghost function GivenUp(s: Sys, b: Node): (t: Sys)
    requires b in s.node && s.node[b].job.Job? && s.node[b].job.i < |s.node[b].job.view|
  {
    var r := s.node[b];
    var t := s.(node := s.node[b := GiveUpJob(r)]);
    if r.last.vid !in s.fails then t.(fails := s.fails[r.last.vid := Fail(r.job.view[r.job.i], r.last.seqno)]) else t
  }

  ghost predicate MayGiveUp(s: Sys, b: Node, v: nat) {
    && b in s.node && b == P(s, v) && v in s.base && v < |s.views| && v >= 1
    && var r := s.node[b];
    && r.upto == v == r.last.vid && Calling(r) && r.job.answer.Refused? && r.job.view[r.job.i] != b
  }

  /** Replica `x` looks the same in `t`, where the multicast of another replica in
      view `v` has ended. */
  ghost predicate Aside(s: Sys, t: Sys, v: nat, x: Node) {
    && t == s.(node := t.node, done := t.done, acks := t.acks, fails := t.fails)
    && x in s.node && x in t.node && t.node[x] == s.node[x] && x != P(s, v)
    && (forall u :: u != v ==> DoneIn(t, u) == DoneIn(s, u) && (u in t.fails <==> u in s.fails))
    && (v in s.fails ==> v in t.fails && DoneIn(t, v) == DoneIn(s, v))
    && DoneIn(t, v) <= |Stamped(t, v)|
  }

  lemma AsideContents(s: Sys, t: Sys, v: nat, x: Node)
    requires Aside(s, t, v, x) && NodeOk(s, x)
    ensures HistOk(t, x) && StampOk(t, x) && ClosedOk(t, x)
  {
    assert Executed(t, x) == Executed(s, x);
    var u := s.node[x].last.vid;
    assert s.node[x].broken ==> DoneIn(t, u) == DoneIn(s, u);
    assert forall k: nat :: k <= |Stamped(s, u)| ==> Through(t, u, k) == Through(s, u, k);
  }

  lemma AsideSchedule(s: Sys, t: Sys, v: nat, x: Node)
    requires Aside(s, t, v, x) && NodeOk(s, x)
    ensures ShapeOk(t, x) && ActiveOk(t, x)
  {
    assert Executed(t, x) == Executed(s, x);
  }

  lemma AsideJob(s: Sys, t: Sys, v: nat, x: Node)
    requires Aside(s, t, v, x) && SyncOk(s, x) && JobOk(s, x)
    ensures SyncOk(t, x) && JobOk(t, x)
  {
  }

  lemma GivenUpOther(s: Sys, b: Node, v: nat, x: Node)
    requires MayGiveUp(s, b, v) && x in s.node && x != b && NodeOk(s, x) && ViewAt(s, v)
    ensures NodeOk(GivenUp(s, b), x)
  {
    var t := GivenUp(s, b);
    assert Aside(s, t, v, x);
    AsideContents(s, t, v, x);
    AsideSchedule(s, t, v, x);
    AsideJob(s, t, v, x);
  }

  lemma GivenUpSelf(s: Sys, b: Node, v: nat)
    requires MayGiveUp(s, b, v) && NodeOk(s, b) && ViewAt(s, v)
    ensures NodeOk(GivenUp(s, b), b)
  {
    var t := GivenUp(s, b);
    assert Executed(t, b) == Executed(s, b) == DoneIn(s, v);
    assert ShapeOk(t, b) && ActiveOk(t, b) && SyncOk(t, b);
    assert FailOk(s, v) && Multicasting(s, v);
  }

  lemma GivenUpView(s: Sys, b: Node, v: nat, w: nat)
    requires MayGiveUp(s, b, v) && NodeOk(s, b) && ViewAt(s, w)
    ensures ViewAt(GivenUp(s, b), w)
  {
    var t := GivenUp(s, b);
    assert FailOk(s, w);
    assert Multicasting(s, v) && !Multicasting(t, v);
    assert w != v ==> Multicasting(t, w) == Multicasting(s, w);
    if w in s.base {
      forall k | 1 <= k <= DoneIn(t, w)
        ensures AllOked(t, w, k)
      {
        assert AllOked(s, w, k);
      }
    }
    var r := s.node[b];
    assert r.job.view[r.job.i] in s.views[v];
  }

  lemma GivenUpCover(s: Sys, b: Node, v: nat, v': nat, w: nat, k: nat)
    requires MayGiveUp(s, b, v) && Cover(s, v', w, k)
    ensures Cover(GivenUp(s, b), v', w, k)
  {
    GivenUpOpen(s, b, v, v', k);
  }

  lemma GivenUpOpen(s: Sys, b: Node, v: nat, w: nat, k: nat)
    requires MayGiveUp(s, b, v)
    ensures Open(GivenUp(s, b), w, k) ==> Open(s, w, k)
  {
  }

  lemma GivenUpNodes(s: Sys, b: Node, v: nat)
    requires Inv(s) && MayGiveUp(s, b, v)
    ensures forall x :: NodeAt(GivenUp(s, b), x)
  {
    assert ViewAt(s, v);
    forall x
      ensures NodeAt(GivenUp(s, b), x)
    {
      assert NodeAt(s, x);
      if x == b { GivenUpSelf(s, b, v); } else if x in s.node { GivenUpOther(s, b, v, x); }
    }
  }

  lemma GivenUpKeepsInv(s: Sys, b: Node, v: nat)
    requires Inv(s) && MayGiveUp(s, b, v)
    ensures Inv(GivenUp(s, b))
  {
    var t := GivenUp(s, b);
    GivenUpNodes(s, b, v);
    assert NodeAt(s, b) && ViewAt(s, v);
    forall w ensures ViewAt(t, w) { assert ViewAt(s, w); GivenUpView(s, b, v, w); }
    forall o ensures OkAt(t, o) { assert OkAt(s, o); }
    forall a ensures AckAt(t, a) { assert AckAt(s, a); }
    forall v', w, k ensures Cover(t, v', w, k) { assert Cover(s, v', w, k); GivenUpCover(s, b, v, v', w, k); }
  }

  lemma GiveUpKeepsInv(s: Sys, b: Node)
    requires Inv(s) && Enabled(s, Proceed(b)) && Advance(s.node[b]).job.NoJob?
    ensures Inv(Next(s, Proceed(b)))
  {
    assert NodeAt(s, b) && HeadOk(s.first, s.views, s.node[b].upto);
    GivenUpKeepsInv(s, b, s.node[b].upto);
  }

  // ----------------------------------------------------- the primary executes and replies

  ghost predicate MayExecute(s: Sys, b: Node, v: nat, n: nat) {
    && b in s.node && b == P(s, v) && v in s.base && 1 <= v < |s.views|
    && var r := s.node[b];
    && r.upto == v && r.last == Stamp(v, n) && r.job.Job?
    && n == |Stamped(s, v)| >= 1 && r.job.req == Stamped(s, v)[n - 1]
    && v !in s.fails && DoneIn(s, v) == n - 1 && AllOked(s, v, n)
  }

  /** A multicast that went through is the first to do so after all earlier ones of
      its view: no call of the view ever failed. */
  lemma ThroughMeansNoFailure(s: Sys, b: Node)
    requires Inv(s) && Enabled(s, ExecuteIt(b))
    ensures MayExecute(s, b, s.node[b].upto, s.node[b].last.seqno)
  {
    assert NodeAt(s, b);
    var r := s.node[b];
    var v, n := r.upto, r.last.seqno;
    assert ViewAt(s, v) && Multicasting(s, v);
    assert r.job.view[..r.job.i] == s.views[v];
    AllOkedMeansNoFailure(s, v, n);
  }

  lemma AllOkedMeansNoFailure(s: Sys, v: nat, n: nat)
    requires v < |s.views| && AllOked(s, v, n) && FailOk(s, v) && n >= |Stamped(s, v)| && forall o :: OkAt(s, o)
    ensures v !in s.fails
  {
    assert v in s.fails ==> OkAt(s, Ok(s.fails[v].y, v, n));
  }

  ghost function Acknowledged(s: Sys, b: Node, v: nat): (t: Sys)
    requires b in s.node && s.node[b].job.Job?
  {
    var r := s.node[b];
    s.(node := s.node[b := Execute(r)], done := s.done[v := DoneIn(s, v) + 1],
       acks := s.acks + {Ack(v, r.last.seqno, r.hist + [r.job.req])})
  }

  lemma AcknowledgedOther(s: Sys, b: Node, v: nat, n: nat, x: Node)
    requires MayExecute(s, b, v, n) && x in s.node && x != b && NodeOk(s, x)
    ensures NodeOk(Acknowledged(s, b, v), x)
  {
    var t := Acknowledged(s, b, v);
    assert Aside(s, t, v, x);
    AsideContents(s, t, v, x);
    AsideSchedule(s, t, v, x);
    AsideJob(s, t, v, x);
  }

  lemma AcknowledgedSelf(s: Sys, b: Node, v: nat, n: nat)
    requires MayExecute(s, b, v, n) && NodeOk(s, b)
    ensures NodeOk(Acknowledged(s, b, v), b)
    ensures s.node[b].hist + [s.node[b].job.req] == Through(s, v, n)
  {
    var t := Acknowledged(s, b, v);
    assert Executed(s, b) == n - 1 && Executed(t, b) == n;
    assert Stamped(s, v)[..n] == Stamped(s, v)[..n - 1] + [s.node[b].job.req];
    assert s.node[b].hist + [s.node[b].job.req] == Through(s, v, n) == Through(t, v, n);
    assert ShapeOk(t, b) && ActiveOk(t, b) && SyncOk(t, b) && JobOk(t, b) && ClosedOk(t, b);
  }

  lemma AcknowledgedView(s: Sys, b: Node, v: nat, n: nat, w: nat)
    requires MayExecute(s, b, v, n) && ViewAt(s, w)
    ensures ViewAt(Acknowledged(s, b, v), w)
  {
    var t := Acknowledged(s, b, v);
    assert FailOk(s, w);
    assert Multicasting(s, v) && !Multicasting(t, v);
    assert w != v ==> Multicasting(t, w) == Multicasting(s, w);
    if w in s.base {
      forall k | 1 <= k <= DoneIn(t, w)
        ensures AllOked(t, w, k)
      {
        assert AllOked(s, w, k);
      }
    }
  }

  lemma AcknowledgedCover(s: Sys, b: Node, v: nat, n: nat, v': nat, w: nat, k: nat)
    requires MayExecute(s, b, v, n) && Cover(s, v', w, k)
    ensures Cover(Acknowledged(s, b, v), v', w, k)
  {
    var t := Acknowledged(s, b, v);
    assert Multicasting(s, v);
    if Open(t, v', k) { assert Open(s, v', k); }
  }

  lemma AcknowledgedNodes(s: Sys, b: Node, v: nat, n: nat)
    requires Inv(s) && MayExecute(s, b, v, n)
    ensures forall x :: NodeAt(Acknowledged(s, b, v), x)
  {
    assert NodeAt(s, b);
    AcknowledgedSelf(s, b, v, n);
    forall x
      ensures NodeAt(Acknowledged(s, b, v), x)
    {
      assert NodeAt(s, x);
      if x != b && x in s.node { AcknowledgedOther(s, b, v, n, x); }
    }
  }

  lemma AcknowledgedKeepsInv(s: Sys, b: Node, v: nat, n: nat)
    requires Inv(s) && MayExecute(s, b, v, n)
    ensures Inv(Acknowledged(s, b, v))
  {
    var t := Acknowledged(s, b, v);
    AcknowledgedNodes(s, b, v, n);
    assert NodeAt(s, b);
    AcknowledgedSelf(s, b, v, n);
    forall w ensures ViewAt(t, w) { assert ViewAt(s, w); AcknowledgedView(s, b, v, n, w); }
    forall o ensures OkAt(t, o) { assert OkAt(s, o); }
    forall a ensures AckAt(t, a) { assert AckAt(s, a); }
    forall v', w, k ensures Cover(t, v', w, k) { assert Cover(s, v', w, k); AcknowledgedCover(s, b, v, n, v', w, k); }
  }

  lemma ExecuteKeepsInv(s: Sys, b: Node)
    requires Inv(s) && Enabled(s, ExecuteIt(b))
    ensures Inv(Next(s, ExecuteIt(b)))
  {
    ThroughMeansNoFailure(s, b);
    AcknowledgedKeepsInv(s, b, s.node[b].upto, s.node[b].last.seqno);
  }

  // --------------------------------------------------------------------- whole runs

  lemma StepKeepsInv(s: Sys, e: Event)
    requires Inv(s) && Enabled(s, e) && Orderly(s, e)
    ensures Inv(Next(s, e))
  {
    match e
    case CommitView(b, v) => CommitKeepsInv(s, b, v);
    case BeginSync(b) => if s.node[b].primary == b { ServeKeepsInv(s, b); } else { StartPullKeepsInv(s, b); }
    case Transfer(b) => TransferKeepsInv(s, b);
    case TellDone(b) => TellDoneKeepsInv(s, b);
    case TellLost(b) => ThreadKeepsInv(s, e);
    case Activate(b) => ThreadKeepsInv(s, e);
    case FinishSync(b) => ThreadKeepsInv(s, e);
    case StartInvoke(b, req) => StartInvokeKeepsInv(s, b, req);
    case CallArrives(b) => CallArrivesKeepsInv(s, b);
    case CallLost(b) => CallLostKeepsInv(s, b);
    case Proceed(b) => if Advance(s.node[b]).job.Job? { AdvanceKeepsInv(s, b); } else { GiveUpKeepsInv(s, b); }
    case ExecuteIt(b) => ExecuteKeepsInv(s, b);
  }

  /** An acknowledgement is never taken back. */
  lemma StepKeepsRecord(s: Sys, e: Event)
    requires Enabled(s, e)
    ensures s.acks <= Next(s, e).acks && Next(s, e).views == s.views
  {
  }

  lemma {:induction false} RunKeepsInv(s: Sys, es: seq<Event>)
    requires Inv(s) && IsRun(s, es) && OrderlyRun(s, es)
    ensures Inv(After(s, es))
    ensures s.acks <= After(s, es).acks && After(s, es).views == s.views
    decreases es
  {
    if es != [] {
      StepKeepsInv(s, es[0]);
      StepKeepsRecord(s, es[0]);
      RunKeepsInv(Next(s, es[0]), es[1..]);
    }
  }
}
