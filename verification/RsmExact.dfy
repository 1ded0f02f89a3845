/** Exactly when a step of the replicated state machine leaves out a request: per step,
    for the rule on commits during a multicast and for the rule on new primaries. */
module RsmExact {
  import opened Views
  import opened Rsm
  import opened RsmSystem
  import opened RsmSafety
  import opened RsmTheorems

  // -------------------------------------------------------- a commit during a multicast

  /** The nodes that the rest of a multicast calls, from the call under way on, if every
      call succeeds and no further view is committed. */
  function Targets(r: Replica): (l: seq<Node>)
    requires r.job.Job? && r.job.i <= |r.job.view|
    decreases |r.job.view| - r.job.i
  {
    if !Calling(r) then [] else [r.job.view[r.job.i]] + Targets(Advance(r.(job := r.job.(answer := Good))))
  }

  lemma PassedOver(view: seq<Node>, i: nat, primary: Node, x: Node)
    requires i <= |view| && x != primary
    ensures var j := Seek(view, i, primary);
      x in view[i..] <==> j < |view| && (x == view[j] || x in view[j + 1..])
  {
    var j := Seek(view, i, primary);
    assert view[i..] == view[i..j] + view[j..];
    if j < |view| { assert view[j..] == [view[j]] + view[j + 1..]; }
  }

  /** The loop passes over the primary, wherever it is still to come. */
  lemma {:induction false} TargetsAre(r: Replica, x: Node)
    requires Calling(r)
    ensures x in Targets(r) <==> x == r.job.view[r.job.i] || (x in ToCall(r) && x != r.primary)
    decreases |r.job.view| - r.job.i
  {
    var q := r.(job := r.job.(i := Seek(r.job.view, r.job.i + 1, r.primary), answer := Waiting));
    assert Targets(r) == [r.job.view[r.job.i]] + Targets(q);
    if Calling(q) { TargetsAre(q, x); }
    if x != r.primary { PassedOver(r.job.view, r.job.i + 1, r.primary, x); }
  }

  /** Every other member of the view has been called or will be. */
  ghost predicate CallsAll(r: Replica, b: Node)
    requires r.job.Job? && r.job.i <= |r.job.view|
  {
    forall x :: x in r.job.view && x != b ==> x in r.job.view[..r.job.i] || x in Targets(r)
  }

  lemma SkipExact(r: Replica, b: Node)
    requires r.job.Job? && 1 <= r.job.i <= |r.job.view| && NoRepeats(r.job.view) && r.job.view[0] == b
    ensures CallsAll(r, b) <==> r.primary == b || r.primary !in ToCall(r)
  {
    var view, i := r.job.view, r.job.i;
    assert view == view[..i] + view[i..];
    if Calling(r) {
      assert view[i..] == [view[i]] + ToCall(r);
      forall x
        ensures x in Targets(r) <==> x == view[i] || (x in ToCall(r) && x != r.primary)
      {
        TargetsAre(r, x);
      }
      assert forall x :: x in view[..i] ==> x !in ToCall(r);
      assert b in view[..i];
    }
  }

  /** Exactly when a view may be committed during a multicast: with the primary it brings,
      the loop still reaches every other member of the view it multicasts to. */
  lemma CommitExact(s: Sys, b: Node, v: nat)
    requires Reachable(s) && Enabled(s, CommitView(b, v)) && s.node[b].job.Job?
    ensures var q := Next(s, CommitView(b, v)).node[b];
      && s.node[b].upto < |s.views| && q.job.Job? && q.job.i <= |q.job.view| && q.job.view == s.views[s.node[b].upto]
      && (Orderly(s, CommitView(b, v)) <==> CallsAll(q, b))
  {
    ReachableInv(s);
    var r := s.node[b];
    assert NodeAt(s, b) && HeadOk(s.first, s.views, r.upto);
    SkipExact(Next(s, CommitView(b, v)).node[b], b);
  }

  // ------------------------------------------------------------------- a new primary

  /** No two stamped requests are the same, so that a state tells which it holds. */
  ghost predicate ToldApart(s: Sys) {
    forall v, i, w, j :: 0 <= i < |Stamped(s, v)| && 0 <= j < |Stamped(s, w)| ==>
      Stamped(s, v)[i] == Stamped(s, w)[j] ==> v == w && i == j
  }

  ghost predicate StampedBefore(s: Sys, q: Req, v: nat) {
    exists u: nat :: u < v && q in Stamped(s, u)
  }

  /** A view starts from requests of earlier views. */
  ghost predicate OriginAt(s: Sys, v: nat) {
    forall q :: q in Base(s, v) ==> StampedBefore(s, q, v)
  }

  ghost predicate Origin(s: Sys) {
    forall v :: OriginAt(s, v)
  }

  lemma HistOrigin(s: Sys, b: Node, q: Req)
    requires Inv(s) && Origin(s) && b in s.node && q in s.node[b].hist
    ensures StampedBefore(s, q, s.node[b].upto + 1)
  {
    assert NodeAt(s, b) && OriginAt(s, s.node[b].upto);
    if q in Base(s, s.node[b].upto) {
      var u: nat :| u < s.node[b].upto && q in Stamped(s, u);
    }
  }

  lemma StepStamps(s: Sys, e: Event, u: nat)
    requires Enabled(s, e)
    ensures Stamped(s, u) <= Stamped(Next(s, e), u)
  {
  }

  lemma SelfPrimaryIsBehind(s: Sys, b: Node)
    requires Inv(s) && Enabled(s, BeginSync(b)) && s.node[b].primary == b
    ensures s.node[b].upto < s.node[b].vidCommit
  {
    assert NodeAt(s, b);
  }

  lemma StepOrigin(s: Sys, e: Event, v: nat, q: Req)
    requires Inv(s) && Origin(s) && Enabled(s, e) && q in Base(Next(s, e), v)
    ensures StampedBefore(Next(s, e), q, v)
  {
    var t := Next(s, e);
    if e.BeginSync? && s.node[e.b].primary == e.b && v == s.node[e.b].vidCommit {
      SelfPrimaryIsBehind(s, e.b);
      HistOrigin(s, e.b, q);
      var u: nat :| u < s.node[e.b].upto + 1 && q in Stamped(s, u);
      StepStamps(s, e, u);
    } else {
      BaseStays(s, e, v);
      assert OriginAt(s, v);
      var u: nat :| u < v && q in Stamped(s, u);
      StepStamps(s, e, u);
    }
  }

  lemma BaseStays(s: Sys, e: Event, v: nat)
    requires Enabled(s, e) && !(e.BeginSync? && s.node[e.b].primary == e.b && v == s.node[e.b].vidCommit)
    ensures Base(Next(s, e), v) == Base(s, v)
  {
  }

  lemma {:induction false} RunOrigin(s: Sys, es: seq<Event>)
    requires Inv(s) && Origin(s) && IsRun(s, es) && OrderlyRun(s, es)
    ensures Origin(After(s, es))
    decreases es
  {
    if es != [] {
      var t := Next(s, es[0]);
      StepKeepsInv(s, es[0]);
      forall v, q | q in Base(t, v)
        ensures StampedBefore(t, q, v)
      {
        StepOrigin(s, es[0], v, q);
      }
      assert forall v :: OriginAt(t, v);
      RunOrigin(t, es[1..]);
    }
  }

  lemma ReachableOrigin(s: Sys)
    requires Reachable(s)
    ensures Origin(s)
  {
    var s0, es :| Init(s0) && IsRun(s0, es) && OrderlyRun(s0, es) && After(s0, es) == s;
    InitInv(s0);
    assert forall v :: OriginAt(s0, v);
    RunOrigin(s0, es);
  }

  /** A request acknowledged in a view that the replica was not brought to. */
  ghost predicate Missed(s: Sys, b: Node, a: Ack)
    requires b in s.node
  {
    a in s.acks && s.node[b].upto < a.v < s.node[b].vidCommit
  }

  lemma MissedIsLeftOut(s: Sys, b: Node, a: Ack)
    requires Inv(s) && Origin(s) && ToldApart(s) && b in s.node && Missed(s, b, a)
    ensures !(a.hist <= s.node[b].hist)
  {
    assert AckAt(s, a);
    var q := Stamped(s, a.v)[a.k - 1];
    assert a.hist[|a.hist| - 1] == q;
    if a.hist <= s.node[b].hist {
      assert s.node[b].hist[|a.hist| - 1] == q;
      HistOrigin(s, b, q);
    }
  }

  /** Exactly when a replica that takes itself for the primary of a view and starts to
      serve leaves out a request acknowledged in an earlier view: one was acknowledged in
      a view that it was not brought to. If it never left the group there is none. */
  lemma ServeExact(s: Sys, b: Node)
    requires Reachable(s) && ToldApart(s) && Enabled(s, BeginSync(b)) && s.node[b].primary == b
    ensures var w := s.node[b].vidCommit;
      var start := Base(Next(s, BeginSync(b)), w);
      && ((forall a :: a in s.acks && a.v < w ==> a.hist <= start) <==> (forall a :: !Missed(s, b, a)))
      && (Orderly(s, BeginSync(b)) ==> forall a :: !Missed(s, b, a))
  {
    ReachableInv(s);
    ReachableOrigin(s);
    forall a | a in s.acks && a.v < s.node[b].vidCommit
      ensures a.hist <= s.node[b].hist <==> !Missed(s, b, a)
    {
      AckExact(s, b, a);
    }
    if Orderly(s, BeginSync(b)) {
      forall a
        ensures !Missed(s, b, a)
      {
        if Missed(s, b, a) { QualifiedMissesNone(s, b, a); }
      }
    }
  }

  lemma AckExact(s: Sys, b: Node, a: Ack)
    requires Inv(s) && Origin(s) && ToldApart(s) && b in s.node && a in s.acks && a.v < s.node[b].vidCommit
    ensures a.hist <= s.node[b].hist <==> !Missed(s, b, a)
  {
    if Missed(s, b, a) {
      MissedIsLeftOut(s, b, a);
    } else if a.v < s.node[b].upto {
      HasEarlier(s, b, a);
    } else {
      HasOwn(s, b, a);
    }
  }

  lemma QualifiedMissesNone(s: Sys, b: Node, a: Ack)
    requires Inv(s) && b in s.node && s.node[b].job.NoJob? && a in s.acks
    requires Qualified(s, b, s.node[b].upto, s.node[b].vidCommit)
    ensures !Missed(s, b, a)
  {
    if Missed(s, b, a) {
      AckIsOpen(s, a);
      assert AckAt(s, a);
      SkippedIsClosed(s, b, s.node[b].vidCommit, a.v, a.k);
    }
  }
}
