/** A time-out that makes a request run twice, and one that is harmless. */
module RpcRepeat {
  import opened RpcClient
  import opened RpcServer
  import opened RpcWindow
  import opened RpcSystem
  import opened RpcExact
  import opened RpcSettled

  ghost predicate Reachable(s: Sys) {
    exists es :: IsRun(InitSys(), es) && After(InitSys(), es) == s
  }

  lemma ReachableNext(s: Sys, e: Event)
    requires Reachable(s) && Enabled(s, e)
    ensures Reachable(Next(s, e))
  {
    var es :| IsRun(InitSys(), es) && After(InitSys(), es) == s;
    RunSnoc(InitSys(), es, e);
  }

  lemma ReachableStep(s: Sys, e: Event, t: Sys)
    requires Reachable(s) && Enabled(s, e) && t == Next(s, e)
    ensures Reachable(t)
  {
    ReachableNext(s, e);
  }

  /** Two calls are under way; neither has reached the server. */
  function TwoSent(): (s: Sys) {
    Sys(3, {}, map[1 := 0, 2 := 0], [], [], multiset{}, [], {})
  }

  lemma TwoSentReachable()
    ensures Reachable(TwoSent())
  {
    var s := InitSys();
    assert IsRun(s, []) && After(s, []) == s;
    ReachableStep(s, Call(0), Next(s, Call(0)));
    var t := Next(s, Call(0));
    ReachableStep(t, Call(0), TwoSent());
  }

  /** Request 1 is being executed, request 2 was executed and answered. */
  function TwoServed(): (s: Sys) {
    TwoSent().(win := [Entry(2, true, "r"), Entry(1, false, "")], news := [1, 2], running := multiset{1},
               finished := [Result(2, "r")], replies := {Answer(2, "r")})
  }

  lemma FirstTwoChecks()
    ensures Check([], 1, 0) == ([Entry(1, false, "")], New)
    ensures Check([Entry(1, false, "")], 2, 0) == ([Entry(2, false, ""), Entry(1, false, "")], New)
    ensures AddReply([Entry(2, false, ""), Entry(1, false, "")], 2, "r") == [Entry(2, true, "r"), Entry(1, false, "")]
  {
    var none: seq<Entry> := [];
    assert Walk(none, 1, 0) == Miss(none);
    assert none[..0] + [Entry(1, false, "")] + none[0..] == [Entry(1, false, "")];
    var w := [Entry(1, false, "")];
    assert w[1..] == [] && Walk(w, 2, 0) == Miss(w);
    assert FirstBelow(w, 2) == 0;
    assert w[..0] + [Entry(2, false, "")] + w[0..] == [Entry(2, false, ""), Entry(1, false, "")];
  }

  /** Both requests are being executed. */
  function TwoRunning(): (s: Sys) {
    TwoSent().(win := [Entry(2, false, ""), Entry(1, false, "")], news := [1, 2], running := multiset{1, 2})
  }

  /** A request that is let through. */
  lemma ReachableNew(s: Sys, x: nat, w: seq<Entry>)
    requires Reachable(s) && x in s.sent && Check(s.win, x, s.sent[x]) == (w, New)
    ensures Reachable(s.(win := w, news := s.news + [x], running := s.running + multiset{x}))
  {
    ReachableNext(s, DeliverRequest(x));
  }

  lemma TwoRunningReachable()
    ensures Reachable(TwoRunning())
  {
    TwoSentReachable();
    FirstTwoChecks();
    var s, one, two := TwoSent(), [Entry(1, false, "")], [Entry(2, false, ""), Entry(1, false, "")];
    ReachableNew(s, 1, one);
    var t := s.(win := one, news := s.news + [1], running := s.running + multiset{1});
    ReachableNew(t, 2, two);
    assert t.news + [2] == [1, 2] && t.running + multiset{2} == multiset{1, 2};
  }

  lemma TwoServedReachable()
    ensures Reachable(TwoServed())
  {
    TwoRunningReachable();
    FirstTwoChecks();
    assert TwoRunning().running - multiset{2} == multiset{1};
    assert Next(TwoRunning(), Finish(2, "r")) == TwoServed();
    ReachableStep(TwoRunning(), Finish(2, "r"), TwoServed());
  }

  /** The client has seen the answer to 2 and given up on 1; its third call
      acknowledges both. */
  function ThirdSent(): (s: Sys) {
    TwoServed().(nextXid := 4, reported := {1, 2}, sent := map[1 := 0, 2 := 0, 3 := 2])
  }

  lemma ThirdSentReachable()
    ensures Reachable(ThirdSent())
  {
    TwoServedReachable();
    var s := TwoServed();
    assert Answer(2, "r") in s.replies;
    var t := s.(reported := {2});
    ReachableStep(s, DeliverReply(2), t);
    var u := s.(reported := {1, 2});
    assert Next(t, Timeout(1)) == u;
    ReachableStep(t, Timeout(1), u);
    assert IsFront(u.reported, 2);
    assert Next(u, Call(2)) == ThirdSent();
    ReachableStep(u, Call(2), ThirdSent());
  }

  lemma LastTwoChecks()
    ensures Check([Entry(2, true, "r"), Entry(1, false, "")], 3, 2) == ([Entry(3, false, ""), Entry(1, false, "")], New)
    ensures Check([Entry(3, false, ""), Entry(1, false, "")], 2, 0).1 == New
  {
    var win, w := [Entry(2, true, "r"), Entry(1, false, "")], [Entry(1, false, "")];
    assert win[1..] == w && w[1..] == [];
    assert Walk(w, 3, 2) == Miss(w);
    assert Walk(win, 3, 2) == Miss(w);
    assert FirstBelow(w, 3) == 0;
    assert w[..0] + [Entry(3, false, "")] + w[0..] == [Entry(3, false, ""), Entry(1, false, "")];
    var both := [Entry(3, false, ""), Entry(1, false, "")];
    assert both[1..] == w && Walk(w, 2, 0) == Miss(w);
    assert Walk(both, 2, 0) == Miss([both[0]] + w);
  }

  /** The delivery of request 3 drops the reply of request 2 from above the entry of
      request 1. */
  lemma ThirdIsHarmful()
    ensures !Harmless(ThirdSent(), DeliverRequest(3))
  {
    var s, f, w := ThirdSent(), Entry(2, true, "r"), [Entry(1, false, "")];
    assert s.win[0] == f && s.win[1..] == w && w[1..] == [];
    assert Walk(w, 3, 2) == Miss(w);
    assert Left(s, 3) == w;
    assert Kept(w, 0) == w;
  }

  /** The state in which request 3 has been let through. */
  function ThirdServed(): (s: Sys) {
    ThirdSent().(win := [Entry(3, false, ""), Entry(1, false, "")], news := [1, 2, 3], running := multiset{1, 3})
  }

  lemma ThirdServedReachable()
    ensures Reachable(ThirdServed())
  {
    ThirdSentReachable();
    ThirdServes(ThirdSent());
    ReachableStep(ThirdSent(), DeliverRequest(3), ThirdServed());
  }

  lemma ThirdServes(s: Sys)
    requires s == ThirdSent()
    ensures Enabled(s, DeliverRequest(3)) && Next(s, DeliverRequest(3)) == ThirdServed()
  {
    LastTwoChecks();
    var r := Check(s.win, 3, 2);
    assert s.sent[3] == 2;
    assert Next(s, DeliverRequest(3)) == s.(win := r.0, news := s.news + [3], running := s.running + multiset{3});
    assert s.news + [3] == [1, 2, 3];
    assert s.running + multiset{3} == multiset{1, 3};
  }

  /** The time-out acknowledged request 1 while it was being executed. Request 3 then
      drops the reply of request 2 but not the entry of request 1, and a late copy
      of request 2 is executed a second time. */
  lemma TimeoutBreaksAtMostOnce() returns (s: Sys)
    ensures Reachable(s) && s.news == [1, 2, 3, 2] && !AtMostOnce(s)
    ensures Reachable(ThirdSent()) && !Harmless(ThirdSent(), DeliverRequest(3))
  {
    ThirdSentReachable();
    ThirdServedReachable();
    ThirdIsHarmful();
    LastTwoChecks();
    s := Next(ThirdServed(), DeliverRequest(2));
    ReachableStep(ThirdServed(), DeliverRequest(2), s);
    RepeatSeen(ThirdServed(), 2);
  }

  // ------------------------------------------------------------------ a harmless time-out

  /** Request 1 is being executed and has timed out; request 2 acknowledges it. */
  function OneGivenUp(): (s: Sys) {
    Sys(3, {1}, map[1 := 0, 2 := 1], [Entry(1, false, "")], [1], multiset{1}, [], {})
  }

  lemma OneGivenUpReachable()
    ensures Reachable(OneGivenUp())
  {
    FirstTwoChecks();
    var s := InitSys();
    assert IsRun(s, []) && After(s, []) == s;
    var t := Next(s, Call(0));
    ReachableStep(s, Call(0), t);
    var u := t.(win := [Entry(1, false, "")], news := [1], running := multiset{1});
    ReachableStep(t, DeliverRequest(1), u);
    var v := u.(reported := {1});
    ReachableStep(u, Timeout(1), v);
    assert IsFront(v.reported, 1);
    ReachableStep(v, Call(1), OneGivenUp());
  }

  /** A header may acknowledge a request in progress and drop nothing: the delivery is
      safe, though not settled. */
  lemma TimeoutMayBeHarmless()
    ensures Reachable(OneGivenUp())
    ensures Enabled(OneGivenUp(), DeliverRequest(2))
    ensures Safe(OneGivenUp(), DeliverRequest(2)) && !Settled(OneGivenUp(), DeliverRequest(2))
  {
    OneGivenUpReachable();
    var s := OneGivenUp();
    assert s.win[0] == Entry(1, false, "") && s.win[1..] == [];
    assert Left(s, 2) == s.win;
  }
}
