/** The primary waits for its backups: it takes requests only after every other member of
    the view was brought to the view, or has gone on to a later one. */
module RsmWait {
  import opened Views
  import opened Rsm
  import opened RsmSystem
  import opened RsmSafety
  import opened RsmTheorems

  /** The replica was brought to view `w`, or has learned of a later one. */
  ghost predicate IsUp(s: Sys, x: Node, w: nat) {
    x in s.node && (s.node[x].upto >= w || s.node[x].vidCommit > w)
  }

  /** Who serves its state still waits for everybody who is not up. */
  ghost predicate WaitsFor(s: Sys, p: Node, x: Node) {
    p in s.node && s.node[p].insync && s.node[p].vidInsync < |s.views| ==>
      x in s.views[s.node[p].vidInsync] && x != p ==> x in s.node[p].backups || IsUp(s, x, s.node[p].vidInsync)
  }

  /** An active primary has waited. */
  ghost predicate HasWaited(s: Sys, p: Node, x: Node) {
    p in s.node && ClientStatus(s.node[p], p) == OK && s.node[p].vidCommit < |s.views| ==>
      x in s.views[s.node[p].vidCommit] && x != p ==> IsUp(s, x, s.node[p].vidCommit)
  }

  ghost predicate WaitAt(s: Sys, p: Node, x: Node) { WaitsFor(s, p, x) && HasWaited(s, p, x) }

  ghost predicate WaitOk(s: Sys) { forall p, x :: WaitAt(s, p, x) }

  /** What an event of another replica leaves as it is. */
  ghost predicate Alike(r: Replica, q: Replica) {
    && q.upto == r.upto && q.vidCommit == r.vidCommit && q.insync == r.insync && q.vidInsync == r.vidInsync
    && q.inviewchange == r.inviewchange && q.primary == r.primary
  }

  lemma OtherNode(s: Sys, e: Event, x: Node)
    requires Enabled(s, e) && x in s.node && x != e.b
    ensures x in Next(s, e).node && Alike(s.node[x], Next(s, e).node[x])
    ensures !e.TellDone? ==> Next(s, e).node[x].backups == s.node[x].backups
  {
    if e.CallArrives? {
      CallNode(s, e.b, x);
    } else if e.TellDone? {
      assert Next(s, e).node[x] in {s.node[x], TransferDone(s.node[x], e.b, s.node[e.b].vidInsync).0};
    } else {
      assert Next(s, e).node[x] == s.node[x];
    }
  }

  lemma CallNode(s: Sys, b: Node, x: Node)
    requires Enabled(s, CallArrives(b)) && x in s.node && x != b
    ensures var t := Next(s, CallArrives(b));
      x in t.node && Alike(s.node[x], t.node[x]) && t.node[x].backups == s.node[x].backups
  {
    var r := s.node[b];
    assert Next(s, CallArrives(b)).node[x] in {s.node[x], Invoke(s.node[x], x, r.last, r.job.req).0};
  }

  lemma SelfNode(s: Sys, e: Event)
    requires Enabled(s, e) && ShapeOk(s, e.b) && SyncOk(s, e.b)
    ensures var t := Next(s, e);
      e.b in t.node && t.node[e.b].upto >= s.node[e.b].upto && t.node[e.b].vidCommit >= s.node[e.b].vidCommit
  {
    if e.Transfer? || e.BeginSync? {
      assert e.Transfer? ==> s.node[e.b].upto <= s.node[e.b].vidInsync;
    } else {
      SelfStays(s, e);
    }
  }

  lemma SelfStays(s: Sys, e: Event)
    requires Enabled(s, e) && !e.Transfer? && !e.BeginSync?
    ensures var t := Next(s, e);
      e.b in t.node && t.node[e.b].upto == s.node[e.b].upto && t.node[e.b].vidCommit >= s.node[e.b].vidCommit
  {
  }

  /** No replica goes back. */
  lemma StepUp(s: Sys, e: Event, x: Node)
    requires Inv(s) && Enabled(s, e) && x in s.node
    ensures var t := Next(s, e);
      x in t.node && t.node[x].upto >= s.node[x].upto && t.node[x].vidCommit >= s.node[x].vidCommit
  {
    if x == e.b {
      assert NodeAt(s, x);
      SelfNode(s, e);
    } else {
      OtherNode(s, e, x);
    }
  }

  /** Who tells the primary to be done is up. */
  lemma TellerIsUp(s: Sys, b: Node)
    requires Inv(s) && Enabled(s, TellDone(b))
    ensures IsUp(s, b, s.node[b].vidInsync)
  {
    assert NodeAt(s, b);
  }

  lemma SelfServeWaits(s: Sys, p: Node, x: Node)
    requires Inv(s) && Enabled(s, BeginSync(p))
    requires WaitAt(s, p, x)
    ensures WaitAt(Next(s, BeginSync(p)), p, x)
  {
    assert NodeAt(s, p);
  }

  lemma FinishWaited(s: Sys, p: Node, x: Node)
    requires Inv(s) && Enabled(s, FinishSync(p)) && WaitAt(s, p, x)
    ensures WaitAt(Next(s, FinishSync(p)), p, x)
  {
    assert NodeAt(s, p);
  }

  lemma ToldWaits(s: Sys, b: Node, p: Node, x: Node)
    requires Inv(s) && Enabled(s, TellDone(b)) && WaitAt(s, p, x)
    ensures WaitAt(Next(s, TellDone(b)), p, x)
  {
    var t := Next(s, TellDone(b));
    assert NodeAt(s, b);
    PullsFromAnother(s, b);
    TellerIsUp(s, b);
    ViewsStay(s, TellDone(b));
    if x in s.node { StepUp(s, TellDone(b), x); }
    if p in s.node {
      DoneNode(s, b, p);
    }
  }

  /** Only the teller is struck off the list, and only for the view served. */
  lemma DoneNode(s: Sys, b: Node, p: Node)
    requires Enabled(s, TellDone(b)) && s.node[b].thread.m != b && p in s.node
    ensures var r, q := s.node[p], Next(s, TellDone(b)).node[p];
      && p in Next(s, TellDone(b)).node && Alike(r, q)
      && forall x :: x in r.backups && (x != b || r.vidInsync != s.node[b].vidInsync) ==> x in q.backups
  {
    if p != b { OtherNode(s, TellDone(b), p); }
  }

  /** Any other event leaves a serving replica serving, and makes no primary active. */
  ghost predicate StillWaits(p: Node, r: Replica, q: Replica) {
    && (q.insync ==> r.insync && q.vidInsync == r.vidInsync && q.backups == r.backups)
    && (ClientStatus(q, p) == OK ==> ClientStatus(r, p) == OK && q.vidCommit == r.vidCommit)
  }

  lemma OtherWaits(s: Sys, e: Event, p: Node)
    requires Inv(s) && Enabled(s, e) && p in s.node && !e.TellDone? && !((e.BeginSync? || e.FinishSync?) && e.b == p)
    ensures p in Next(s, e).node && StillWaits(p, s.node[p], Next(s, e).node[p])
  {
    if p == e.b {
      assert NodeAt(s, p);
      SelfWaits(s, e);
    } else {
      OtherNode(s, e, p);
    }
  }

  lemma SelfWaits(s: Sys, e: Event)
    requires Enabled(s, e) && ShapeOk(s, e.b) && ActiveOk(s, e.b) && SyncOk(s, e.b)
    requires !e.TellDone? && !e.BeginSync? && !e.FinishSync?
    ensures e.b in Next(s, e).node && StillWaits(e.b, s.node[e.b], Next(s, e).node[e.b])
  {
  }

  lemma StepWaits(s: Sys, e: Event, p: Node, x: Node)
    requires Inv(s) && Enabled(s, e) && WaitAt(s, p, x)
    ensures WaitAt(Next(s, e), p, x)
  {
    if p in s.node {
      if e.TellDone? {
        ToldWaits(s, e.b, p, x);
      } else if e.BeginSync? && e.b == p {
        SelfServeWaits(s, p, x);
      } else if e.FinishSync? && e.b == p {
        FinishWaited(s, p, x);
      } else {
        OtherWaits(s, e, p);
        if x in s.node { StepUp(s, e, x); }
        ViewsStay(s, e);
      }
    } else {
      ViewsStay(s, e);
    }
  }

  lemma ViewsStay(s: Sys, e: Event)
    requires Enabled(s, e)
    ensures Next(s, e).views == s.views && Next(s, e).node.Keys == s.node.Keys
  {
  }

  lemma {:induction false} RunWaits(s: Sys, es: seq<Event>)
    requires Inv(s) && WaitOk(s) && IsRun(s, es) && OrderlyRun(s, es)
    ensures WaitOk(After(s, es))
    decreases es
  {
    if es != [] {
      var t := Next(s, es[0]);
      forall p, x
        ensures WaitAt(t, p, x)
      {
        assert WaitAt(s, p, x);
        StepWaits(s, es[0], p, x);
      }
      StepKeepsInv(s, es[0]);
      RunWaits(t, es[1..]);
    }
  }

  /** Whoever takes requests of clients has waited: every other member of its view was
      brought to the view, or has gone on to a later one. */
  lemma PrimaryWaited(s: Sys, p: Node, x: Node)
    requires Reachable(s) && p in s.node && ClientStatus(s.node[p], p) == OK
    ensures s.node[p].vidCommit < |s.views|
    ensures x in s.views[s.node[p].vidCommit] && x != p ==> IsUp(s, x, s.node[p].vidCommit)
  {
    var s0, es :| Init(s0) && IsRun(s0, es) && OrderlyRun(s0, es) && After(s0, es) == s;
    InitInv(s0);
    forall q, y ensures WaitAt(s0, q, y) { }
    RunWaits(s0, es);
    ReachableInv(s);
    assert NodeAt(s, p) && WaitAt(s, p, x);
  }
}
