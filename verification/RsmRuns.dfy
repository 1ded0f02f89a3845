/** Why runs must respect the rules: for each of the five rules a run that breaks it once,
    and what comes of it; and two orderly runs, one with a backup far ahead, and one in
    which a replica goes astray. */
module RsmRuns {
  import opened Views
  import opened Rsm
  import opened RsmSystem
  import opened RsmTheorems

  /** An orderly run from `s0` to `s`. */
  ghost predicate Run(s0: Sys, es: seq<Event>, s: Sys) {
    IsRun(s0, es) && OrderlyRun(s0, es) && After(s0, es) == s
  }

  ghost predicate Leads(s0: Sys, s: Sys) {
    exists es :: Run(s0, es, s)
  }

  lemma {:induction false} RunSnoc(s0: Sys, es: seq<Event>, s: Sys, e: Event)
    requires Run(s0, es, s) && Enabled(s, e) && Orderly(s, e)
    ensures Run(s0, es + [e], Next(s, e))
    decreases es
  {
    var fs := es + [e];
    if es == [] {
      assert fs == [e] && fs[1..] == [];
    } else {
      assert fs[0] == es[0] && fs[1..] == es[1..] + [e];
      RunSnoc(Next(s0, es[0]), es[1..], s, e);
    }
  }

  lemma Go(s0: Sys, s: Sys, e: Event) returns (t: Sys)
    requires Leads(s0, s) && Enabled(s, e) && Orderly(s, e)
    ensures t == Next(s, e) && Leads(s0, t)
  {
    var es :| Run(s0, es, s);
    RunSnoc(s0, es, s, e);
    t := Next(s, e);
  }

  lemma Still(s: Sys)
    ensures Leads(s, s)
  {
    assert Run(s, [], s);
  }

  // -------------------------------------------------------------------------- replicas

  function Committed(v: nat): (r: Replica) { Fresh("a").(vidCommit := v) }

  function Serving(v: nat, backups: seq<Node>): (r: Replica) {
    Committed(v).(vidInsync := v, insync := true, backups := backups, upto := v)
  }

  function Syncing(v: nat, t: Thread, upto: nat): (r: Replica) {
    Committed(v).(vidInsync := v, thread := t, upto := upto)
  }

  function InView(v: nat): (r: Replica) {
    Committed(v).(vidInsync := v, upto := v, inviewchange := false, myvs := Stamp(v, 1))
  }

  /** Replica "a" multicasts its n-th request of view `v`. */
  function Calls(v: nat, n: nat, job: Job, broken: bool): (r: Replica) {
    InView(v).(last := Stamp(v, n), myvs := Stamp(v, n + 1), job := job, broken := broken)
  }

  function Took(v: nat, n: nat, hist: seq<Req>): (r: Replica) {
    InView(v).(last := Stamp(v, n), myvs := Stamp(v, n + 1), hist := hist)
  }

  /** Where the loop goes on in the views below. */
  lemma Seeks()
    ensures Seek(["a", "b", "c"], 0, "a") == 1 && Seek(["a", "b", "c"], 2, "a") == 2
      && Seek(["a", "b", "c"], 2, "c") == 3
    ensures Seek(["a", "b"], 0, "a") == 1 && Seek(["a", "b"], 2, "a") == 2 && Seek(["a", "b"], 2, "b") == 2
    ensures Seek(["b", "a"], 0, "b") == 1 && Seek(["b", "a"], 2, "b") == 2 && Seek(["a"], 0, "a") == 1
    ensures ["a", "b", "c"][2..] == ["c"]
  {
  }

  // -------------------------------------------------------------------- three replicas

  /** "a", "b" and "c" join one by one; `tail` are the views after view 3. */
  function Views3(tail: seq<seq<Node>>): (v: seq<seq<Node>>) {
    [[], ["a"], ["a", "b"], ["a", "b", "c"]] + tail
  }

  /** "c" is removed; or "a" is removed and joins again, and then "b" is removed. */
  predicate Tail(tail: seq<seq<Node>>) {
    tail == [["a", "b"]] || tail == [["b", "c"], ["b", "c", "a"], ["c", "a"]]
  }

  lemma Removals()
    ensures Without(["a", "b", "c"], "a") == ["b", "c"] && Without(["a", "b", "c"], "c") == ["a", "b"]
    ensures Without(["b", "c", "a"], "b") == ["c", "a"] && Without(["c", "a"], "c") == ["a"]
    ensures Without(["b", "c"], "b") == ["c"] && Without(["c"], "c") == []
    ensures Without(["a", "b"], "a") == ["b"] && Without(["b"], "b") == [] && Without(["a"], "a") == []
    ensures Without(["b", "a"], "b") == ["a"]
  {
    assert ["a", "b", "c"][1..] == ["b", "c"] && ["b", "c"][1..] == ["c"] && ["c"][1..] == [];
    assert ["b", "c", "a"][1..] == ["c", "a"] && ["c", "a"][1..] == ["a"] && ["a"][1..] == [];
    assert ["a", "b"][1..] == ["b"] && ["b"][1..] == [] && ["b", "a"][1..] == ["a"];
    assert Without(["c"], "a") == ["c"] && Without(["b", "c"], "a") == ["b", "c"];
    assert Without(["b", "c"], "c") == ["b"];
    assert Without(["a"], "b") == ["a"] && Without(["c", "a"], "b") == ["c", "a"];
    assert Without(["a"], "c") == ["a"] && Without(["c"], "b") == ["c"] && Without(["b"], "a") == ["b"];
  }

  lemma Good3(tail: seq<seq<Node>>)
    requires Tail(tail)
    ensures GoodViews("a", Views3(tail))
  {
    var v := Views3(tail);
    Removals();
    assert StepTo(v[1], v[2], Add("b")) && StepTo(v[2], v[3], Add("c"));
    if |tail| == 1 {
      assert StepTo(v[3], v[4], Remove("c"));
    } else {
      assert StepTo(v[3], v[4], Remove("a"));
      assert StepTo(v[4], v[5], Add("a"));
      assert StepTo(v[5], v[6], Remove("b"));
    }
  }

  /** The three replicas of a state. */
  ghost predicate Three(s: Sys, tail: seq<seq<Node>>, a: Replica, b: Replica, c: Replica) {
    && s.first == "a" && s.views == Views3(tail)
    && "a" in s.node && "b" in s.node && "c" in s.node
    && s.node["a"] == a && s.node["b"] == b && s.node["c"] == c
  }

  lemma Primaries3(s: Sys, tail: seq<seq<Node>>)
    requires Tail(tail) && s.first == "a" && s.views == Views3(tail)
    ensures P(s, 3) == "a" && P(s, 4) == s.views[4][0]
    ensures |tail| == 3 ==> P(s, 5) == "b" && P(s, 6) == "c"
    ensures |tail| == 3 ==> Pick("a", s.views[3], s.views[4]) == Some("b")
    ensures |tail| == 3 ==> Pick("b", s.views[4], s.views[5]) == Some("b")
    ensures |tail| == 3 ==> Pick("b", s.views[5], s.views[6]) == Some("c")
  {
    Good3(tail);
    PrimaryIs(s, 3);
    PrimaryIs(s, 4);
    if |tail| == 3 {
      PrimaryIs(s, 5);
      PrimaryIs(s, 6);
    }
  }

  lemma PrimaryIs(s: Sys, v: nat)
    requires GoodViews(s.first, s.views) && 1 <= v < |s.views|
    ensures s.views[v] != [] && P(s, v) == s.views[v][0]
    ensures Pick(P(s, v - 1), s.views[v - 1], s.views[v]) == Some(P(s, v))
  {
    PrimaryIsFirst(s.first, s.views, v);
  }

  lemma Start3(tail: seq<seq<Node>>) returns (s: Sys)
    requires Tail(tail)
    ensures Init(s) && Three(s, tail, Committed(0), Committed(0), Committed(0))
  {
    var f := Fresh("a");
    s := Sys("a", Views3(tail), map["a" := f, "b" := f, "c" := f], map[], map[], map[], {}, {}, map[]);
    Good3(tail);
  }

  lemma Commit3(s0: Sys, s: Sys, tail: seq<seq<Node>>) returns (t: Sys)
    requires Tail(tail) && Leads(s0, s) && Three(s, tail, Committed(0), Committed(0), Committed(0))
    ensures Leads(s0, t) && Three(t, tail, Committed(3), Committed(3), Committed(3))
  {
    Primaries3(s, tail);
    assert s.views[3] == ["a", "b", "c"] && "a" in s.views[3];
    t := Go(s0, s, CommitView("a", 3));
    Primaries3(t, tail);
    t := Go(s0, t, CommitView("b", 3));
    Primaries3(t, tail);
    t := Go(s0, t, CommitView("c", 3));
  }

  lemma Sync3(s0: Sys, s: Sys, tail: seq<seq<Node>>) returns (t: Sys)
    requires Leads(s0, s) && Three(s, tail, Committed(3), Committed(3), Committed(3))
    ensures Leads(s0, t)
    ensures Three(t, tail, Serving(3, ["b", "c"]), Syncing(3, Pulling("a"), 0), Syncing(3, Pulling("a"), 0))
  {
    var v := s.views;
    Removals();
    assert v[1] == ["a"] && v[2] == ["a", "b"] && v[3] == ["a", "b", "c"];
    assert "a" in v[1] && "a" in v[2] && "a" in v[3] && "b" in v[3] && "c" in v[3];
    t := Go(s0, s, BeginSync("a"));
    t := Go(s0, t, BeginSync("b"));
    t := Go(s0, t, BeginSync("c"));
  }

  lemma Pull3(s0: Sys, s: Sys, tail: seq<seq<Node>>) returns (t: Sys)
    requires Leads(s0, s)
    requires Three(s, tail, Serving(3, ["b", "c"]), Syncing(3, Pulling("a"), 0), Syncing(3, Pulling("a"), 0))
    ensures Leads(s0, t) && Three(t, tail, Serving(3, []), Syncing(3, Told("a"), 3), Syncing(3, Told("a"), 3))
  {
    Removals();
    t := Go(s0, s, Transfer("b"));
    t := Go(s0, t, TellDone("b"));
    t := Go(s0, t, Transfer("c"));
    t := Go(s0, t, TellDone("c"));
  }

  lemma Enter3(s0: Sys, s: Sys, tail: seq<seq<Node>>) returns (t: Sys)
    requires Leads(s0, s) && Three(s, tail, Serving(3, []), Syncing(3, Told("a"), 3), Syncing(3, Told("a"), 3))
    ensures Leads(s0, t) && Three(t, tail, InView(3), InView(3), Syncing(3, Told("a"), 3))
  {
    t := Go(s0, s, Activate("b"));
    t := Go(s0, t, FinishSync("a"));
  }

  function R3(i: nat, answer: Answer): (j: Job) { Job("r", ["a", "b", "c"], i, answer) }

  /** "b" has executed request "r", and "a" has not yet seen the answer. */
  lemma Ask3(s0: Sys, s: Sys, tail: seq<seq<Node>>) returns (t: Sys)
    requires Leads(s0, s) && Three(s, tail, InView(3), InView(3), Syncing(3, Told("a"), 3))
    ensures Leads(s0, t)
    ensures Three(t, tail, Calls(3, 1, R3(1, Good), false), Took(3, 1, ["r"]), Syncing(3, Told("a"), 3))
  {
    assert s.views[3] == ["a", "b", "c"];
    Seeks();
    t := Go(s0, s, StartInvoke("a", "r"));
    assert InView(3).hist + ["r"] == ["r"];
    t := Go(s0, t, CallArrives("a"));
  }

  lemma HalfWay(tail: seq<seq<Node>>) returns (s0: Sys, t: Sys)
    requires Tail(tail)
    ensures Init(s0) && Leads(s0, t)
    ensures Three(t, tail, Calls(3, 1, R3(1, Good), false), Took(3, 1, ["r"]), Syncing(3, Told("a"), 3))
  {
    s0 := Start3(tail);
    Still(s0);
    t := Commit3(s0, s0, tail);
    t := Sync3(s0, t, tail);
    t := Pull3(s0, t, tail);
    t := Enter3(s0, t, tail);
    t := Ask3(s0, t, tail);
  }

  // ------------------------------------------- the new primary was still to be called

  const OUT: seq<seq<Node>> := [["b", "c"], ["b", "c", "a"], ["c", "a"]]

  /** "a" learns of two views during its call to "b": the first without itself. */
  lemma VotedOut(s0: Sys, s: Sys) returns (t: Sys)
    requires Leads(s0, s)
    requires Three(s, OUT, Calls(3, 1, R3(1, Good), false), Took(3, 1, ["r"]), Syncing(3, Told("a"), 3))
    ensures Leads(s0, t)
    ensures Three(t, OUT, Calls(3, 1, R3(1, Good), false).(vidCommit := 5, inviewchange := true, primary := "b"),
                  Took(3, 1, ["r"]), Syncing(3, Told("a"), 3))
  {
    Primaries3(s, OUT);
    assert s.views[3] == ["a", "b", "c"] && s.views[4] == ["b", "c"] && s.views[5] == ["b", "c", "a"];
    assert "b" in s.views[5];
    assert ["a", "b", "c"][2..] == ["c"];
    t := Go(s0, s, CommitView("a", 4));
    Primaries3(t, OUT);
    t := Go(s0, t, CommitView("a", 5));
  }

  /** The commit of view 6 makes "c", which "a" has not called yet, the primary. */
  lemma Overtaken(s: Sys) returns (t: Sys)
    requires Three(s, OUT, Calls(3, 1, R3(1, Good), false).(vidCommit := 5, inviewchange := true, primary := "b"),
                   Took(3, 1, ["r"]), Syncing(3, Told("a"), 3))
    ensures Enabled(s, CommitView("a", 6)) && !Orderly(s, CommitView("a", 6)) && t == Next(s, CommitView("a", 6))
    ensures Three(t, OUT, Calls(3, 1, R3(1, Good), false).(vidCommit := 6, inviewchange := true, primary := "c"),
                  Took(3, 1, ["r"]), Syncing(3, Told("a"), 3))
  {
    Primaries3(s, OUT);
    assert s.views[5] == ["b", "c", "a"] && s.views[6] == ["c", "a"];
    Seeks();
    t := Next(s, CommitView("a", 6));
  }

  /** The loop passes over "c", and "a" answers its client. */
  lemma Answers(s0: Sys, s: Sys) returns (t: Sys)
    requires Leads(s0, s)
    requires Three(s, OUT, Calls(3, 1, R3(1, Good), false).(vidCommit := 6, inviewchange := true, primary := "c"),
                   Took(3, 1, ["r"]), Syncing(3, Told("a"), 3))
    ensures Leads(s0, t) && Ack(3, 1, ["r"]) in t.acks
    ensures Three(t, OUT, Took(3, 1, ["r"]).(vidCommit := 6, inviewchange := true, primary := "c"),
                  Took(3, 1, ["r"]), Syncing(3, Told("a"), 3))
  {
    Seeks();
    t := Go(s0, s, Proceed("a"));
    assert InView(3).hist + ["r"] == ["r"];
    t := Go(s0, t, ExecuteIt("a"));
  }

  function Heir(v: nat): (r: Replica) {
    Syncing(3, Resting, 3).(vidCommit := v, primary := if v == 6 then "c" else "b")
  }

  lemma Inherits(s0: Sys, s: Sys, a: Replica) returns (t: Sys)
    requires Leads(s0, s) && Three(s, OUT, a, Took(3, 1, ["r"]), Syncing(3, Told("a"), 3))
    ensures Leads(s0, t) && Three(t, OUT, a, Took(3, 1, ["r"]), Heir(6)) && t.acks == s.acks
  {
    Primaries3(s, OUT);
    var v := s.views;
    assert v[3] == ["a", "b", "c"] && v[4] == ["b", "c"] && v[5] == ["b", "c", "a"] && v[6] == ["c", "a"];
    assert "b" in v[5];
    t := Go(s0, s, CommitView("c", 4));
    Primaries3(t, OUT);
    t := Go(s0, t, CommitView("c", 5));
    Primaries3(t, OUT);
    t := Go(s0, t, CommitView("c", 6));
    t := Go(s0, t, Activate("c"));
  }

  /** "c" starts to serve its state, and "a" asks for it. */
  lemma Serves6(s0: Sys, s: Sys) returns (t: Sys)
    requires Leads(s0, s)
    requires Three(s, OUT, Took(3, 1, ["r"]).(vidCommit := 6, inviewchange := true, primary := "c"),
      Took(3, 1, ["r"]), Heir(6))
    ensures Leads(s0, t) && t.acks == s.acks
    ensures Three(t, OUT, Took(3, 1, ["r"]).(vidCommit := 6, vidInsync := 6, thread := Pulling("c"),
      inviewchange := true, primary := "c"),
                  Took(3, 1, ["r"]), Heir(6).(vidInsync := 6, insync := true, backups := ["a"], upto := 6))
  {
    var v := s.views;
    assert v[4] == ["b", "c"] && v[5] == ["b", "c", "a"] && v[6] == ["c", "a"];
    assert "c" in v[4] && "c" in v[5] && "c" in v[6] && "a" in v[6];
    Removals();
    t := Go(s0, s, BeginSync("c"));
    t := Go(s0, t, BeginSync("a"));
  }

  lemma Leads6(s0: Sys, s: Sys) returns (t: Sys)
    requires Leads(s0, s)
    requires Three(s, OUT, Took(3, 1, ["r"]).(vidCommit := 6, vidInsync := 6, thread := Pulling("c"),
      inviewchange := true, primary := "c"),
                   Took(3, 1, ["r"]), Heir(6).(vidInsync := 6, insync := true, backups := ["a"], upto := 6))
    ensures Leads(s0, t) && t.acks == s.acks
    ensures "c" in t.node && ClientStatus(t.node["c"], "c") == OK && t.node["c"].upto == 6 && t.node["c"].hist == []
  {
    Removals();
    t := Go(s0, s, Transfer("a"));
    t := Go(s0, t, TellDone("a"));
    t := Go(s0, t, FinishSync("c"));
  }

  /** An acknowledged request is lost when, between two calls of a multicast, a view is
      committed whose primary is still to be called: the loop passes over it, the
      request is acknowledged, and the new primary never executed it. The commit is the
      only event of the run that breaks a rule. */
  lemma AcknowledgedLostByCommit() returns (s: Sys, e: Event, t: Sys)
    ensures Reachable(s) && Enabled(s, e) && e.CommitView? && !Orderly(s, e)
    ensures Leads(Next(s, e), t)
    ensures Ack(3, 1, ["r"]) in t.acks
      && "c" in t.node && ClientStatus(t.node["c"], "c") == OK && t.node["c"].upto == 6 && t.node["c"].hist == []
  {
    var s0;
    s0, s := HalfWay(OUT);
    s := VotedOut(s0, s);
    e := CommitView("a", 6);
    var u := Overtaken(s);
    Still(u);
    t := Answers(u, u);
    t := Inherits(u, t, t.node["a"]);
    t := Serves6(u, t);
    t := Leads6(u, t);
  }

  // ---------------------------------------------------------------- a call has failed

  const AB: seq<seq<Node>> := [["a", "b"]]

  function Gave(): (r: Replica) { Calls(3, 1, NoJob, true) }

  lemma CallsC(s0: Sys, s: Sys) returns (t: Sys)
    requires Leads(s0, s)
    requires Three(s, AB, Calls(3, 1, R3(1, Good), false), Took(3, 1, ["r"]), Syncing(3, Told("a"), 3))
    ensures Leads(s0, t)
    ensures Three(t, AB, Calls(3, 1, R3(2, Waiting), false), Took(3, 1, ["r"]), Syncing(3, Told("a"), 3))
  {
    Seeks();
    t := Go(s0, s, Proceed("a"));
  }

  /** The call to "c" fails, and the multicast is given up. */
  lemma GivesUp(s0: Sys, s: Sys) returns (t: Sys)
    requires Leads(s0, s)
    requires Three(s, AB, Calls(3, 1, R3(2, Waiting), false), Took(3, 1, ["r"]), Syncing(3, Told("a"), 3))
    ensures Leads(s0, t) && Three(t, AB, Gave(), Took(3, 1, ["r"]), Syncing(3, Told("a"), 3))
  {
    t := Go(s0, s, CallLost("a"));
    t := Go(s0, t, Proceed("a"));
  }

  function Onward(r: Replica): (q: Replica) { r.(vidCommit := 4, inviewchange := true) }

  lemma GoesOn(s0: Sys, s: Sys) returns (t: Sys)
    requires Leads(s0, s) && Three(s, AB, Gave(), Took(3, 1, ["r"]), Syncing(3, Told("a"), 3))
    ensures Leads(s0, t)
    ensures Three(t, AB, Onward(Gave()).(vidInsync := 4, insync := true, backups := ["b"], upto := 4),
                  Onward(Took(3, 1, ["r"])).(vidInsync := 4, thread := Pulling("a")), Syncing(3, Told("a"), 3))
  {
    Primaries3(s, AB);
    assert s.views[4] == ["a", "b"] && "a" in s.views[4] && "b" in s.views[4];
    Removals();
    t := Go(s0, s, CommitView("a", 4));
    Primaries3(t, AB);
    t := Go(s0, t, CommitView("b", 4));
    t := Go(s0, t, BeginSync("a"));
    t := Go(s0, t, BeginSync("b"));
  }

  lemma GaveReachable() returns (s0: Sys, t: Sys)
    ensures Init(s0) && Leads(s0, t) && Three(t, AB, Gave(), Took(3, 1, ["r"]), Syncing(3, Told("a"), 3))
  {
    s0, t := HalfWay(AB);
    t := CallsC(s0, t);
    t := GivesUp(s0, t);
  }

  /** A skipped transfer can leave primary and backup different: the multicast of the
      primary was given up after "b" had executed the request, so both name the request
      by the same viewstamp and only "b" has executed it. */
  lemma SkippedTransferDiverges() returns (s: Sys)
    ensures Reachable(s) && Enabled(s, Transfer("b")) && !Orderly(s, Transfer("b"))
    ensures var t := Next(s, Transfer("b"));
      "a" in t.node && "b" in t.node && t.node["a"].hist == [] && t.node["b"].hist == ["r"]
  {
    var s0;
    s0, s := GaveReachable();
    s := GoesOn(s0, s);
  }

  /** After a failed call a backup can get further ahead than one request: in an orderly
      run, "b" has executed two requests of which the primary has none. */
  lemma BackupTwoAhead() returns (s: Sys)
    ensures Reachable(s) && "a" in s.node && "b" in s.node
    ensures !s.node["a"].inviewchange && !s.node["b"].inviewchange
      && s.node["a"].hist == [] && s.node["b"].hist == ["r", "q"]
  {
    var s0;
    s0, s := GaveReachable();
    assert s.views[3] == ["a", "b", "c"];
    Seeks();
    s := Go(s0, s, StartInvoke("a", "q"));
    assert ["r"] + ["q"] == ["r", "q"];
    s := Go(s0, s, CallArrives("a"));
  }

  // ---------------------------------------------------------------------- two replicas

  /** "b" joins, "a" is removed and joins again. */
  function Views2(): (v: seq<seq<Node>>) { [[], ["a"], ["a", "b"], ["b"], ["b", "a"]] }

  lemma Good2()
    ensures GoodViews("a", Views2())
  {
    var v := Views2();
    Removals();
    assert StepTo(v[1], v[2], Add("b")) && StepTo(v[2], v[3], Remove("a")) && StepTo(v[3], v[4], Add("a"));
  }

  ghost predicate Two(s: Sys, a: Replica, b: Replica) {
    && s.first == "a" && s.views == Views2()
    && "a" in s.node && "b" in s.node && s.node["a"] == a && s.node["b"] == b
  }

  lemma Primaries2(s: Sys)
    requires s.first == "a" && s.views == Views2()
    ensures P(s, 1) == "a" && P(s, 2) == "a" && P(s, 3) == "b" && P(s, 4) == "b"
    ensures Pick("a", s.views[2], s.views[3]) == Some("b") && Pick("b", s.views[3], s.views[4]) == Some("b")
  {
    Good2();
    PrimaryIsFirst("a", s.views, 1);
    PrimaryIsFirst("a", s.views, 2);
    PrimaryIsFirst("a", s.views, 3);
    PrimaryIsFirst("a", s.views, 4);
  }

  lemma Start2() returns (s: Sys)
    ensures Init(s) && Two(s, Committed(0), Committed(0))
  {
    s := Sys("a", Views2(), map["a" := Fresh("a"), "b" := Fresh("a")], map[], map[], map[], {}, {}, map[]);
    Good2();
  }

  // ------------------------------------------------- a primary that was never synced

  lemma Alone(s0: Sys, s: Sys) returns (t: Sys)
    requires Leads(s0, s) && Two(s, Committed(0), Committed(0))
    ensures Leads(s0, t) && Two(t, InView(1), Committed(0))
  {
    Primaries2(s);
    Removals();
    assert s.views[1] == ["a"] && "a" in s.views[1];
    t := Go(s0, s, CommitView("a", 1));
    t := Go(s0, t, BeginSync("a"));
    t := Go(s0, t, FinishSync("a"));
  }

  lemma AloneAnswers(s0: Sys, s: Sys) returns (t: Sys)
    requires Leads(s0, s) && Two(s, InView(1), Committed(0))
    ensures Leads(s0, t) && Two(t, Took(1, 1, ["r"]), Committed(3).(primary := "b")) && Ack(1, 1, ["r"]) in t.acks
  {
    assert s.views[1] == ["a"];
    Seeks();
    t := Go(s0, s, StartInvoke("a", "r"));
    assert InView(1).hist + ["r"] == ["r"];
    t := Go(s0, t, ExecuteIt("a"));
    Primaries2(t);
    t := Go(s0, t, CommitView("b", 3));
  }

  /** A replica that joined but was never brought up to date can become primary when the
      others leave: the request acknowledged before is not in its state. Starting to
      serve is the only event of the run that breaks a rule. */
  lemma UnsyncedPrimaryLosesRequest() returns (s: Sys, e: Event)
    ensures Reachable(s) && Enabled(s, e) && e.BeginSync? && !Orderly(s, e) && Enabled(Next(s, e), FinishSync("b"))
    ensures var t := Next(Next(s, e), FinishSync("b"));
      && Ack(1, 1, ["r"]) in t.acks
      && "b" in t.node && ClientStatus(t.node["b"], "b") == OK && t.node["b"].upto == 3 && t.node["b"].hist == []
  {
    var s0 := Start2();
    Still(s0);
    s := Alone(s0, s0);
    s := AloneAnswers(s0, s);
    e := BeginSync("b");
    Removals();
    assert s.views[1] == ["a"] && s.views[3] == ["b"] && "b" in s.views[3] && "b" !in s.views[1];
  }

  // --------------------------------------------------------------- a group of two

  lemma Sync2(s0: Sys, s: Sys) returns (t: Sys)
    requires Leads(s0, s) && Two(s, Committed(0), Committed(0))
    ensures Leads(s0, t) && Two(t, Serving(2, ["b"]), Syncing(2, Pulling("a"), 0))
  {
    Primaries2(s);
    Removals();
    assert s.views[1] == ["a"] && s.views[2] == ["a", "b"]
      && "a" in s.views[1] && "a" in s.views[2] && "b" in s.views[2];
    t := Go(s0, s, CommitView("a", 2));
    Primaries2(t);
    t := Go(s0, t, CommitView("b", 2));
    t := Go(s0, t, BeginSync("a"));
    t := Go(s0, t, BeginSync("b"));
  }

  lemma Enter2(s0: Sys, s: Sys) returns (t: Sys)
    requires Leads(s0, s) && Two(s, Serving(2, ["b"]), Syncing(2, Pulling("a"), 0))
    ensures Leads(s0, t) && Two(t, InView(2), InView(2))
  {
    Removals();
    t := Go(s0, s, Transfer("b"));
    t := Go(s0, t, TellDone("b"));
    t := Go(s0, t, Activate("b"));
    t := Go(s0, t, FinishSync("a"));
  }

  function R2(i: nat, answer: Answer): (j: Job) { Job("r", ["a", "b"], i, answer) }

  lemma Ask2(s0: Sys, s: Sys) returns (t: Sys)
    requires Leads(s0, s) && Two(s, InView(2), InView(2))
    ensures Leads(s0, t) && Two(t, Calls(2, 1, R2(1, Good), false), Took(2, 1, ["r"]))
  {
    assert s.views[2] == ["a", "b"];
    Seeks();
    t := Go(s0, s, StartInvoke("a", "r"));
    assert InView(2).hist + ["r"] == ["r"];
    t := Go(s0, t, CallArrives("a"));
  }

  /** "b" has executed request "r", and "a" has not yet seen the answer. */
  lemma HalfWay2() returns (s0: Sys, t: Sys)
    ensures Init(s0) && Leads(s0, t) && Two(t, Calls(2, 1, R2(1, Good), false), Took(2, 1, ["r"]))
  {
    s0 := Start2();
    Still(s0);
    t := Sync2(s0, s0);
    t := Enter2(s0, t);
    t := Ask2(s0, t);
  }

  // -------------------------------------------- a call that failed after it was executed

  lemma AsksAgain(s0: Sys, s: Sys) returns (t: Sys)
    requires Leads(s0, s) && Two(s, Calls(2, 1, R2(1, Refused), false), Took(2, 1, ["r"]))
    ensures Leads(s0, t)
    ensures Two(t, Calls(2, 2, Job("q", ["a", "b"], 1, Waiting), true), Took(2, 1, ["r"]))
  {
    assert s.views[2] == ["a", "b"];
    Seeks();
    t := Go(s0, s, Proceed("a"));
    t := Go(s0, t, StartInvoke("a", "q"));
  }

  lemma TakesAgain(s0: Sys, s: Sys) returns (t: Sys)
    requires Leads(s0, s) && Two(s, Calls(2, 2, Job("q", ["a", "b"], 1, Waiting), true), Took(2, 1, ["r"]))
    ensures Leads(s0, t) && Two(t, Calls(2, 2, Job("q", ["a", "b"], 1, Good), true), Took(2, 2, ["r", "q"]))
  {
    assert ["r"] + ["q"] == ["r", "q"];
    t := Go(s0, s, CallArrives("a"));
  }

  lemma GetsThrough(s0: Sys, s: Sys) returns (t: Sys)
    requires Leads(s0, s) && Two(s, Calls(2, 2, Job("q", ["a", "b"], 1, Good), true), Took(2, 2, ["r", "q"]))
    ensures Leads(s0, t) && Two(t, Calls(2, 2, NoJob, true).(hist := ["q"]), Took(2, 2, ["r", "q"]))
    ensures Ack(2, 2, ["q"]) in t.acks
  {
    Seeks();
    t := Go(s0, s, Proceed("a"));
    assert InView(2).hist + ["q"] == ["q"];
    t := Go(s0, t, ExecuteIt("a"));
  }

  /** If a call that is reported as failed was executed after all, the primary goes on
      without a request that its backup has, and acknowledges the next one: the two
      states are no longer prefixes of each other. */
  lemma ExecutedFailureDiverges() returns (s: Sys, e: Event, t: Sys)
    ensures Reachable(s) && Enabled(s, e) && e.ReplyLost? && !Orderly(s, e)
    ensures Leads(Next(s, e), t)
    ensures Ack(2, 2, ["q"]) in t.acks && "a" in t.node && "b" in t.node
      && t.node["a"].hist == ["q"] && t.node["b"].hist == ["r", "q"]
  {
    var s0;
    s0, s := HalfWay2();
    e := ReplyLost("a");
    var u := Next(s, e);
    Still(u);
    t := AsksAgain(u, u);
    t := TakesAgain(u, t);
    t := GetsThrough(u, t);
  }

  // -------------------------------------------------- a transfer during a multicast

  /** "a" is voted out and joins again while it waits for the answer of "b"; both go on
      to view 4, of which "b" is the primary. */
  lemma JoinsAgain(s0: Sys, s: Sys) returns (t: Sys)
    requires Leads(s0, s) && Two(s, Calls(2, 1, R2(1, Good), false), Took(2, 1, ["r"]))
    ensures Leads(s0, t)
    ensures Two(t, Calls(2, 1, R2(1, Good), false).(vidCommit := 4, inviewchange := true, primary := "b"),
                Took(2, 1, ["r"]).(vidCommit := 4, inviewchange := true, primary := "b"))
  {
    Primaries2(s);
    assert ["a", "b"][2..] == [];
    t := Go(s0, s, CommitView("a", 3));
    Primaries2(t);
    t := Go(s0, t, CommitView("a", 4));
    Primaries2(t);
    t := Go(s0, t, CommitView("b", 3));
    Primaries2(t);
    t := Go(s0, t, CommitView("b", 4));
  }

  function Behind(t: Thread, upto: nat): (r: Replica) {
    Calls(2, 1, R2(1, Good), false).(vidCommit := 4, inviewchange := true, primary := "b", vidInsync := 4,
      thread := t, upto := upto)
  }

  function Ahead(backups: seq<Node>): (r: Replica) {
    Took(2, 1, ["r"]).(vidCommit := 4, inviewchange := true, primary := "b", vidInsync := 4, insync := true,
                       backups := backups, upto := 4)
  }

  lemma Meets(s0: Sys, s: Sys) returns (t: Sys)
    requires Leads(s0, s)
    requires Two(s, Calls(2, 1, R2(1, Good), false).(vidCommit := 4, inviewchange := true, primary := "b"),
                 Took(2, 1, ["r"]).(vidCommit := 4, inviewchange := true, primary := "b"))
    ensures Leads(s0, t) && Two(t, Behind(Pulling("b"), 2), Ahead(["a"]))
  {
    assert s.views[3] == ["b"] && s.views[4] == ["b", "a"]
      && "b" in s.views[3] && "b" in s.views[4] && "a" in s.views[4];
    Removals();
    t := Go(s0, s, BeginSync("b"));
    t := Go(s0, t, BeginSync("a"));
  }

  /** The transfer is skipped, because the viewstamps agree, and both enter view 4. */
  lemma EntersWithJob(s0: Sys, s: Sys) returns (t: Sys)
    requires Leads(s0, s) && Two(s, Behind(Pulled("b"), 4), Ahead(["a"]))
    ensures Leads(s0, t)
    ensures Two(t, Behind(Resting, 4).(inviewchange := false, myvs := Stamp(4, 1)),
                Ahead([]).(insync := false, inviewchange := false, myvs := Stamp(4, 1)))
  {
    Removals();
    t := Go(s0, s, TellDone("a"));
    t := Go(s0, t, Activate("a"));
    t := Go(s0, t, FinishSync("b"));
  }

  /** "a" executes the request of the new primary first. */
  lemma NewFirst(s0: Sys, s: Sys) returns (t: Sys)
    requires Leads(s0, s)
    requires Two(s, Behind(Resting, 4).(inviewchange := false, myvs := Stamp(4, 1)),
                 Ahead([]).(insync := false, inviewchange := false, myvs := Stamp(4, 1)))
    ensures Leads(s0, t)
    ensures Two(t, Behind(Resting, 4).(inviewchange := false, last := Stamp(4, 1), myvs := Stamp(4, 2), hist := ["q"]),
                Ahead([]).(insync := false, inviewchange := false, last := Stamp(4, 1), myvs := Stamp(4, 2),
                           job := Job("q", ["b", "a"], 1, Good)))
  {
    assert s.views[4] == ["b", "a"];
    Seeks();
    t := Go(s0, s, StartInvoke("b", "q"));
    assert Behind(Resting, 4).hist + ["q"] == ["q"];
    t := Go(s0, t, CallArrives("b"));
  }

  /** Each then executes its own. */
  lemma TwoOrders(s0: Sys, s: Sys) returns (t: Sys)
    requires Leads(s0, s)
    requires Two(s, Behind(Resting, 4).(inviewchange := false, last := Stamp(4, 1), myvs := Stamp(4, 2), hist := ["q"]),
                 Ahead([]).(insync := false, inviewchange := false, last := Stamp(4, 1), myvs := Stamp(4, 2),
                            job := Job("q", ["b", "a"], 1, Good)))
    ensures Leads(s0, t) && "a" in t.node && "b" in t.node
    ensures t.node["a"].hist == ["q", "r"] && t.node["b"].hist == ["r", "q"]
    ensures !t.node["a"].inviewchange && !t.node["b"].inviewchange
  {
    Seeks();
    assert ["q"] + ["r"] == ["q", "r"] && ["r"] + ["q"] == ["r", "q"];
    t := Go(s0, s, Proceed("a"));
    t := Go(s0, t, ExecuteIt("a"));
    t := Go(s0, t, Proceed("b"));
    t := Go(s0, t, ExecuteIt("b"));
  }

  /** If a replica is synchronized in the middle of its own multicast, it can execute
      the requests of the new view before its own old one: two active replicas have
      executed the same requests in different orders. */
  lemma TransferInMulticastDiverges() returns (s: Sys, e: Event, t: Sys)
    ensures Reachable(s) && Enabled(s, e) && e.Transfer? && !Orderly(s, e)
    ensures Leads(Next(s, e), t)
    ensures "a" in t.node && "b" in t.node && !t.node["a"].inviewchange && !t.node["b"].inviewchange
      && t.node["a"].hist == ["q", "r"] && t.node["b"].hist == ["r", "q"]
  {
    var s0;
    s0, s := HalfWay2();
    s := JoinsAgain(s0, s);
    s := Meets(s0, s);
    e := Transfer("a");
    var u := Next(s, e);
    Still(u);
    t := EntersWithJob(u, u);
    t := NewFirst(u, t);
    t := TwoOrders(u, t);
  }

  // ----------------------------------------------------- a primary that left and came back

  const BACK: seq<seq<Node>> := [["b", "c"], ["b", "c", "a"], ["c", "a"], ["c", "a", "b"]]

  lemma GoodBack()
    ensures GoodViews("a", Views3(BACK))
  {
    var v, u := Views3(BACK), Views3(OUT);
    Good3(OUT);
    assert forall k :: 0 <= k < 7 ==> v[k] == u[k];
    assert StepTo(v[6], v[7], Add("b"));
    assert OneChange(v[6], v[7]);
    forall k | 2 <= k < |v|
      ensures OneChange(v[k - 1], v[k])
    {
      if k < 7 { assert OneChange(u[k - 1], u[k]); }
    }
  }

  lemma StartBack() returns (s: Sys)
    ensures Init(s) && Three(s, BACK, Committed(0), Committed(0), Committed(0)) && P(s, 4) == "b" && P(s, 7) == "c"
    ensures Pick("a", s.views[3], s.views[4]) == Some("b") && Pick("b", s.views[6], s.views[7]) == Some("b")
  {
    var f := Fresh("a");
    s := Sys("a", Views3(BACK), map["a" := f, "b" := f, "c" := f], map[], map[], map[], {}, {}, map[]);
    GoodBack();
    PrimaryIs(s, 3);
    PrimaryIs(s, 4);
    PrimaryIs(s, 7);
  }

  /** A replica that skips views can keep a primary that lost its place and came back, in
      an orderly run: "a" learns of view 4 and then of view 7, and takes "b" for the
      primary, while everybody else goes with "c". It asks "b" for its state in vain. */
  lemma KeepsReturnedPrimary() returns (s: Sys)
    ensures Reachable(s) && "a" in s.node && s.node["a"].vidCommit == 7 && s.node["a"].thread == Pulling("b")
    ensures s.node["a"].primary == "b" && P(s, 7) == "c" && ClientStatus(s.node["a"], "a") == BUSY
  {
    var s0 := StartBack();
    Still(s0);
    s := Go(s0, s0, CommitView("a", 4));
    s := Go(s0, s, CommitView("a", 7));
    assert s.views[7] == ["c", "a", "b"] && "a" in s.views[7];
    s := Go(s0, s, BeginSync("a"));
  }
}
