/** What the replicated state machine guarantees over whole runs. */
module RsmTheorems {
  import opened Views
  import opened Rsm
  import opened RsmSystem
  import opened RsmSafety

  ghost predicate Reachable(s: Sys) {
    exists s0, es :: Init(s0) && IsRun(s0, es) && OrderlyRun(s0, es) && After(s0, es) == s
  }

  lemma ReachableInv(s: Sys)
    requires Reachable(s)
    ensures Inv(s)
  {
    var s0, es :| Init(s0) && IsRun(s0, es) && OrderlyRun(s0, es) && After(s0, es) == s;
    InitInv(s0);
    RunKeepsInv(s0, es);
  }

  /** Stamp order: by view, then by sequence number. */
  predicate NotAfter(a: Ack, b: Ack) {
    a.v < b.v || (a.v == b.v && a.k <= b.k)
  }

  /** No acknowledged request is ever lost and none is reordered: of any two
      acknowledgements, in whatever views and by whatever primaries, the state behind
      the one with the lower stamp is a prefix of the state behind the other. */
  lemma AcknowledgedNeverLost(s: Sys, a: Ack, b: Ack)
    requires Reachable(s) && a in s.acks && b in s.acks && NotAfter(a, b)
    ensures a.hist <= b.hist
  {
    ReachableInv(s);
    assert AckAt(s, a) && AckAt(s, b);
    if a.v == b.v {
      assert Through(s, a.v, a.k) <= Through(s, a.v, b.k);
    } else {
      AckIsOpen(s, a);
      assert Cover(s, a.v, b.v, a.k);
      assert Base(s, b.v) <= b.hist;
    }
  }

  lemma AckIsOpen(s: Sys, a: Ack)
    requires Inv(s) && a in s.acks
    ensures a.v >= 1 && Open(s, a.v, a.k)
  {
    assert AckAt(s, a) && ViewAt(s, a.v);
    assert AllOked(s, a.v, a.k);
  }

  /** Acknowledged requests survive a view change: a replica that takes part in view
      `w`, as primary or as backup, has executed every request acknowledged in any
      earlier view, and every backup has executed those of its own view. */
  lemma ActiveHasAll(s: Sys, b: Node, a: Ack)
    requires Reachable(s) && b in s.node && !s.node[b].inviewchange && a in s.acks && a.v <= s.node[b].upto
    ensures a.hist <= s.node[b].hist
  {
    ReachableInv(s);
    assert NodeAt(s, b);
    if a.v < s.node[b].upto { HasEarlier(s, b, a); } else { HasOwn(s, b, a); }
  }

  lemma HasEarlier(s: Sys, b: Node, a: Ack)
    requires Inv(s) && b in s.node && a in s.acks && a.v < s.node[b].upto
    ensures a.hist <= s.node[b].hist
  {
    var w := s.node[b].upto;
    assert NodeAt(s, b) && AckAt(s, a);
    AckIsOpen(s, a);
    assert Cover(s, a.v, w, a.k);
    assert Base(s, w) <= s.node[b].hist;
  }

  lemma HasOwn(s: Sys, b: Node, a: Ack)
    requires Inv(s) && b in s.node && a in s.acks && a.v == s.node[b].upto
    ensures a.hist <= s.node[b].hist
  {
    var w := s.node[b].upto;
    assert NodeAt(s, b) && AckAt(s, a) && ViewAt(s, w);
    assert AllOked(s, w, a.k);
    assert OkAt(s, Ok(b, w, a.k));
    assert a.k <= Executed(s, b);
    assert Through(s, w, a.k) <= Through(s, w, Executed(s, b));
  }

  /** Replication sandwich: within a view, what the primary has executed is exactly
      what the view started from plus its acknowledged requests, it is a prefix of
      what any backup has executed, and as long as no call of the view has failed no
      backup is more than one request ahead. */
  lemma Sandwich(s: Sys, p: Node, b: Node, w: nat)
    requires Reachable(s) && p in s.node && b in s.node && p == P(s, w) && b != p
    requires !s.node[p].inviewchange && !s.node[b].inviewchange && s.node[p].upto == w == s.node[b].upto
    ensures DoneIn(s, w) <= |Stamped(s, w)| && s.node[p].hist == Through(s, w, DoneIn(s, w))
    ensures s.node[p].hist <= s.node[b].hist
    ensures w !in s.fails ==> |s.node[b].hist| <= |s.node[p].hist| + 1
    ensures forall a :: a in s.acks && a.v == w ==> a.hist <= s.node[p].hist
  {
    ReachableInv(s);
    assert NodeAt(s, p) && NodeAt(s, b) && ViewAt(s, w);
    DoneIsExecuted(s, b, w);
    assert Through(s, w, DoneIn(s, w)) <= Through(s, w, Executed(s, b));
    forall a | a in s.acks && a.v == w
      ensures a.hist <= s.node[p].hist
    {
      assert AckAt(s, a);
      assert Through(s, w, a.k) <= Through(s, w, DoneIn(s, w));
    }
  }

  /** A backup has executed whatever its primary has; one more at most while no call of
      the view has failed. */
  lemma DoneIsExecuted(s: Sys, b: Node, w: nat)
    requires Inv(s) && b in s.node && b != P(s, w) && s.node[b].upto == w && w in s.base
    ensures DoneIn(s, w) <= Executed(s, b) <= |Stamped(s, w)|
    ensures w !in s.fails ==> |Stamped(s, w)| <= DoneIn(s, w) + 1
  {
    assert NodeAt(s, b) && ViewAt(s, w);
    if DoneIn(s, w) >= 1 {
      assert AllOked(s, w, DoneIn(s, w));
      assert OkAt(s, Ok(b, w, DoneIn(s, w)));
    }
  }

  /** After the first failed call of a view, no later request of the view is
      acknowledged: the primary's multicast can no longer go through. */
  lemma NoAckAfterFailure(s: Sys, b: Node)
    requires Reachable(s) && Enabled(s, ExecuteIt(b))
    ensures s.node[b].last.vid !in s.fails
  {
    ReachableInv(s);
    ThroughMeansNoFailure(s, b);
  }

  /** Once synchronized, every member of a view holds the same history: the states of
      two active members differ only in how many of the view's stamped requests they
      have executed, whether or not their transfer was skipped. */
  lemma SameHistoryAfterSync(s: Sys, b: Node, c: Node, w: nat)
    requires Reachable(s) && b in s.node && c in s.node
    requires !s.node[b].inviewchange && !s.node[c].inviewchange && s.node[b].upto == w == s.node[c].upto
    ensures w in s.base
    ensures exists i: nat, j: nat ::
      && i <= |Stamped(s, w)| && j <= |Stamped(s, w)|
      && s.node[b].hist == Through(s, w, i) && s.node[c].hist == Through(s, w, j)
    ensures Stamped(s, w) == [] ==> s.node[b].hist == s.node[c].hist == Base(s, w)
  {
    ReachableInv(s);
    assert NodeAt(s, b) && NodeAt(s, c);
    var i, j := Executed(s, b), Executed(s, c);
    assert s.node[b].hist == Through(s, w, i) && s.node[c].hist == Through(s, w, j);
  }

  /** All active replicas of one view agree on its primary, and there is one only. */
  lemma OnePrimary(s: Sys, b: Node, c: Node)
    requires Reachable(s) && b in s.node && c in s.node
    requires ClientStatus(s.node[b], b) == OK && ClientStatus(s.node[c], c) == OK
    requires s.node[b].vidCommit == s.node[c].vidCommit
    ensures b == c
  {
    ReachableInv(s);
    assert NodeAt(s, b) && NodeAt(s, c);
  }

  /** What a client is told: busy during a view change; otherwise the first member of the
      view accepts requests, and every other active member names another primary. */
  lemma StatusExact(s: Sys, b: Node)
    requires Reachable(s) && b in s.node
    ensures var r := s.node[b];
      && (ClientStatus(r, b) == BUSY <==> r.inviewchange)
      && (!r.inviewchange ==> 1 <= r.vidCommit < |s.views| && s.views[r.vidCommit] != [])
      && (ClientStatus(r, b) == OK <==> !r.inviewchange && b == s.views[r.vidCommit][0])
      && (ClientStatus(r, b) == NOTPRIMARY <==> !r.inviewchange && b != s.views[r.vidCommit][0])
  {
    ReachableInv(s);
    assert NodeAt(s, b) && HeadOk(s.first, s.views, s.node[b].vidCommit);
  }

  /** Exactly when a call of the multicast is executed by the node it reaches: that node
      is active in the view of the request and has executed all earlier requests of the
      view, and this one not yet. */
  lemma CallExact(s: Sys, b: Node)
    requires Reachable(s) && Enabled(s, CallArrives(b))
    ensures var r, t := s.node[b], Next(s, CallArrives(b));
      var x := r.job.view[r.job.i];
      var q := s.node[x];
      && x != b && r.upto < |s.views| && x in s.views[r.upto] && t.node[b].job.Job?
      && (t.node[b].job.answer.Good? <==>
            !q.inviewchange && q.vidCommit == r.upto && Executed(s, x) + 1 == r.last.seqno)
      && (if t.node[b].job.answer.Good? then t.node[x].hist == q.hist + [r.job.req] else t.node[x] == q)
  {
    ReachableInv(s);
    var r := s.node[b];
    var x := r.job.view[r.job.i];
    assert NodeAt(s, b) && HeadOk(s.first, s.views, r.upto);
    assert r.job.view[0] == b && r.job.view[r.job.i] != r.job.view[0];
    assert NodeAt(s, x);
    assert x in s.views[r.upto];
  }

  /** A replica that takes another node for the primary than everybody else is harmless:
      it is not active and refuses all requests, a state that it still serves is that of
      an earlier view, and if it takes itself for the primary it was missing from a view
      since it was last brought up to date. */
  lemma AstrayIsIdle(s: Sys, b: Node)
    requires Reachable(s) && b in s.node && s.node[b].primary != P(s, s.node[b].vidCommit)
    ensures var r := s.node[b];
      && ClientStatus(r, b) == BUSY && (forall vs, req :: !Invoke(r, b, vs, req).1)
      && (r.primary == b ==> !Qualified(s, b, r.upto, r.vidCommit))
      && (r.insync ==> r.vidInsync < r.vidCommit)
  {
    ReachableInv(s);
    assert NodeAt(s, b);
  }

  /** A replica that is not multicasting may commit any later view, whatever it missed:
      it always finds a primary, and the commit is within the rules. */
  lemma AnyViewIsOrderly(s: Sys, b: Node, v: nat)
    requires Reachable(s) && b in s.node && s.node[b].vidCommit < v < |s.views| && s.node[b].job.NoJob?
    ensures Enabled(s, CommitView(b, v)) && Orderly(s, CommitView(b, v))
  {
    ReachableInv(s);
    assert NodeAt(s, b);
    PickFinds(s.first, s.views, v, s.node[b].primary);
  }

  /** A primary may commit the next view in the middle of its multicast: it finds the
      primary that everybody else finds, and this is no node still to be called. */
  lemma NextViewIsOrderly(s: Sys, b: Node)
    requires Reachable(s) && b in s.node && s.node[b].vidCommit + 1 < |s.views|
    requires s.node[b].job.Job? && s.node[b].vidCommit == s.node[b].upto
    ensures var v := s.node[b].vidCommit + 1;
      && Enabled(s, CommitView(b, v)) && Orderly(s, CommitView(b, v))
      && Pick(s.node[b].primary, s.views[v - 1], s.views[v]) == Some(P(s, v))
  {
    ReachableInv(s);
    assert NodeAt(s, b);
    NextPrimary(s, b);
    NextPrimaryWasCalled(s, b);
  }

  lemma NextPrimary(s: Sys, b: Node)
    requires GoodViews(s.first, s.views) && b in s.node && s.node[b].vidCommit + 1 < |s.views|
    requires s.node[b].primary == P(s, s.node[b].vidCommit)
    ensures var v := s.node[b].vidCommit + 1; Pick(s.node[b].primary, s.views[v - 1], s.views[v]) == Some(P(s, v))
  {
    PrimaryIsFirst(s.first, s.views, s.node[b].vidCommit + 1);
  }

  lemma NextPrimaryWasCalled(s: Sys, b: Node)
    requires Inv(s) && b in s.node && s.node[b].job.Job?
    requires s.node[b].vidCommit == s.node[b].upto && s.node[b].upto + 1 < |s.views|
    ensures var q := P(s, s.node[b].upto + 1); q == b || q !in ToCall(s.node[b])
  {
    var r := s.node[b];
    assert NodeAt(s, b) && HeadOk(s.first, s.views, r.upto);
    InOrderPrimary(s.first, s.views, r.upto + 1);
  }
}
