/** Why runs must respect the rules of agreement: for each rule a run that breaks it
    once, after which two values are chosen in one instance. */
module PaxosBreaks {
  import opened Views
  import opened Proposals
  import opened AcceptorModel
  import opened Quorum
  import opened ProposerModel
  import opened PaxosSystem
  import opened PaxosSafety
  import opened PaxosSteps
  import opened PaxosTheorems
  import opened PaxosRuns

  // ---------------------------------------------------------------------- three nodes

  /** The acceptor's last committed view is `l`, number `h`. */
  predicate Seat(a: Acceptor, h: nat, l: seq<Node>) {
    a.instanceH == h && h in a.values && Members(a.values[h]) == l
  }

  /** No promise and no vote in the open instance. */
  predicate Clear(a: Acceptor) { a.nH.n == 0 && a.nA.n == 0 && a.vA == "" }

  predicate Idles(s: Sys, p: Node, k: nat) { p in s.pro && s.pro[p] == Proposer(Prop(k, p), Idle) }

  /** Five nodes of different, proper names; "a" is the first node. */
  datatype Cast = Cast(a: Node, b: Node, c: Node, d: Node, e: Node)

  predicate Good(z: Cast) {
    && TextStream.IsToken(z.a) && TextStream.IsToken(z.b) && TextStream.IsToken(z.c)
    && TextStream.IsToken(z.d) && TextStream.IsToken(z.e)
    && z.a != z.b && z.a != z.c && z.a != z.d && z.a != z.e && z.b != z.c && z.b != z.d && z.b != z.e
    && z.c != z.d && z.c != z.e && z.d != z.e
  }

  lemma Begin(z: Cast) returns (s: Sys)
    requires Good(z)
    ensures Init(s) && s.first == z.a && z.a in s.acc && z.b in s.acc && z.c in s.acc && s.acc[z.a].me == z.a
    ensures Seat(s.acc[z.a], 1, [z.a]) && Clear(s.acc[z.a]) && s.acc[z.a].log == [Done(1, z.a)]
    ensures s.acc[z.b] == Initial(z.b) && s.acc[z.c] == Initial(z.c)
    ensures Idles(s, z.a, 0) && Idles(s, z.c, 0)
  {
    var a, b, c := Boot(z.a, true, z.a, []), Boot(z.b, false, z.a, []), Boot(z.c, false, z.a, []);
    s := Sys(z.a, map[z.a := a, z.b := b, z.c := c],
             map[z.a := Proposer(Prop(0, z.a), Idle), z.b := Proposer(Prop(0, z.b), Idle),
                 z.c := Proposer(Prop(0, z.c), Idle)],
             {}, map[], map[]);
    FirstView(z);
  }

  lemma LeadsReachable(s0: Sys, s: Sys)
    requires Init(s0) && Leads(s0, s)
    ensures Reachable(s)
  {
    var es :| Run(s0, es, s);
  }

  lemma LeadsDurable(s0: Sys, s: Sys, x: Node)
    requires Init(s0) && Leads(s0, s) && x in s.acc
    ensures Durable(s.acc[x]) && forall j :: j in s.acc[x].values <==> 1 <= j <= s.acc[x].instanceH
  {
    LeadsReachable(s0, s);
    ReachableInv(s);
    assert AcceptorOk(s, s.acc[x]);
  }

  lemma ReadBack(z: Cast)
    requires Good(z)
    ensures Members(Value([z.a, z.c])) == [z.a, z.c] && Members(Value([z.a, z.c, z.b])) == [z.a, z.c, z.b]
  {
    MembersOfValue([z.a, z.c]);
    MembersOfValue([z.a, z.c, z.b]);
  }

  lemma Differ(z: Cast)
    requires Good(z)
    ensures Value([z.a, z.b]) != Value([z.a, z.c]) && Value(ACB(z) + [z.d]) != Value(ACB(z) + [z.e])
  {
    assert [z.a] + [z.b] == [z.a, z.b] && [z.a] + [z.c] == [z.a, z.c];
    DifferentViews([z.a], z.b, z.c);
    DifferentViews(ACB(z), z.d, z.e);
  }

  lemma FirstView(z: Cast)
    requires Good(z)
    ensures Members(z.a) == [z.a]
  {
    TextStream.ReadTokenOf(z.a, "");
    assert z.a + "" == z.a;
    assert Members("") == [];
  }

  // ------------------------------------------------------------- the first node alone

  /** "a" takes a run for instance 2 to its accept phase. */
  lemma Proposes(z: Cast, s0: Sys, s: Sys, k: nat, c: Node) returns (t: Sys)
    requires Good(z)
    requires Leads(s0, s) && z.a in s.acc && Seat(s.acc[z.a], 1, [z.a]) && s.acc[z.a].nH.n <= k
    requires s.acc[z.a].nA.n == 0 && s.acc[z.a].vA == "" && Idles(s, z.a, k) && c != z.a && TextStream.IsToken(c)
    ensures Leads(s0, t) && t.first == s.first && s.net <= t.net
    ensures var n, v, a := Prop(k + 1, z.a), Value([z.a, c]), s.acc[z.a];
      && t.acc == s.acc[z.a := a.(nH := n, log := a.log + [PropSeen(n)])]
      && t.pro == s.pro[z.a := Proposer(n, Accepting(2, [z.a], v, [z.a]))]
      && t.ballots == s.ballots[n := Ballot(2, [z.a], Add(c))]
      && AcceptMsg(z.a, 2, n, v) in t.net
  {
    assert [z.a] + [c] == [z.a, c];
    t := RunsAlone(s0, s, z.a, k, c, Value([z.a, c]));
  }

  lemma RunsAlone(s0: Sys, s: Sys, x: Node, k: nat, c: Node, v: Text) returns (t: Sys)
    requires Leads(s0, s) && x in s.acc && Seat(s.acc[x], 1, [x]) && s.acc[x].nH.n <= k && v == Value([x] + [c])
    requires s.acc[x].nA.n == 0 && s.acc[x].vA == "" && Idles(s, x, k) && c != x && TextStream.IsToken(c)
    ensures Leads(s0, t) && t.first == s.first && s.net <= t.net
    ensures var n, a := Prop(k + 1, x), s.acc[x];
      && t.acc == s.acc[x := a.(nH := n, log := a.log + [PropSeen(n)])]
      && t.pro == s.pro[x := Proposer(n, Accepting(2, [x], v, [x]))]
      && t.ballots == s.ballots[n := Ballot(2, [x], Add(c))]
      && AcceptMsg(x, 2, n, v) in t.net
  {
    assert x in [x];
    var u := StartOwn(s0, s, x, 2, c, [x], k, v);
    var n := Prop(k + 1, x);
    t := Gathers(s0, u, x, n, v, PrepareRes(false, true, s.acc[x].nA, ""));
    SetOver(s.pro, x, Proposer(n, Preparing(2, [x], v)), Proposer(n, Accepting(2, [x], v, [x])));
  }

  lemma SetOver<T>(m: map<Node, T>, x: Node, a: T, b: T)
    ensures m[x := a][x := b] == m[x := b]
  {
  }

  lemma Gathers(s0: Sys, s: Sys, x: Node, n: Prop, v: Text, r: PrepareRes) returns (t: Sys)
    requires Leads(s0, s) && x in s.acc && x in s.pro && s.pro[x] == Proposer(n, Preparing(2, [x], v))
    requires PrepareReply(x, 2, n, r) in s.net && Plain(Reply(r))
    ensures Leads(s0, t) && t.first == s.first && t.acc == s.acc && t.ballots == s.ballots && s.net <= t.net
    ensures t.pro == s.pro[x := Proposer(n, Accepting(2, [x], v, [x]))] && AcceptMsg(x, 2, n, v) in t.net
  {
    assert [x][..0] == [] && [Reply(r)][..0] == [];
    assert Answering([x][..0], [Reply(r)][..0]) == [];
    assert Answering([x], [Reply(r)]) == [x];
    MajorityOfOne(x, Elements([x]));
    assert x in [x];
    t := DoCollect(s0, s, x, [Reply(r)]);
  }

  /** The run's accept is delivered, and its answer counted or not. */
  lemma Votes(z: Cast, s0: Sys, s: Sys, n: Prop, v: Text, ok: bool) returns (t: Sys)
    requires Good(z)
    requires Leads(s0, s) && z.a in s.acc && s.acc[z.a].instanceH == 1 && s.acc[z.a].nH == n
    requires z.a in s.pro && s.pro[z.a] == Proposer(n, Accepting(2, [z.a], v, [z.a]))
      && AcceptMsg(z.a, 2, n, v) in s.net
    ensures Leads(s0, t) && t.first == s.first && s.net <= t.net && t.ballots == s.ballots
    ensures var a := s.acc[z.a]; t.acc == s.acc[z.a := a.(nA := n, vA := v, log := a.log + [Accepted(n, v)])]
    ensures t.pro == s.pro[z.a := Proposer(n, Idle)] && AcceptOk(z.a, 2, n, v) in t.net
    ensures ok ==> DecideMsg(z.a, 2, n, v) in t.net
  {
    GeIsGtOrEqual(n, n);
    t := DoVote(s0, s, z.a, 2, n, v);
    MajorityOfOne(z.a, Elements([z.a]));
    t := DoFinish(s0, t, z.a, ok);
    assert z.a in [z.a];
  }

  /** A whole run of "a", decided and committed. */
  lemma Commits(z: Cast, s0: Sys, s: Sys, k: nat, c: Node) returns (t: Sys)
    requires Good(z)
    requires Leads(s0, s) && z.a in s.acc && Seat(s.acc[z.a], 1, [z.a]) && s.acc[z.a].nH.n <= k && s.acc[z.a].me == z.a
    requires s.acc[z.a].nA.n == 0 && s.acc[z.a].vA == "" && Idles(s, z.a, k) && c != z.a && TextStream.IsToken(c)
    ensures Leads(s0, t) && t.first == s.first && s.net <= t.net
    ensures var n, v := Prop(k + 1, z.a), Value([z.a, c]);
      && t.ballots == s.ballots[n := Ballot(2, [z.a], Add(c))] && t.pro == s.pro[z.a := Proposer(n, Idle)]
      && z.a in t.acc && t.acc == s.acc[z.a := t.acc[z.a]] && t.acc[z.a].instanceH == 2 && t.acc[z.a].me == z.a
      && t.acc[z.a].values == s.acc[z.a].values[2 := v] && t.acc[z.a].nH == Prop(0, z.a) && Clear(t.acc[z.a])
      && AcceptOk(z.a, 2, n, v) in t.net
  {
    var n, v := Prop(k + 1, z.a), Value([z.a, c]);
    t := Proposes(z, s0, s, k, c);
    t := Votes(z, s0, t, n, v, true);
    t := DoDecide(s0, t, z.a, 2, n, v);
  }

  // ------------------------------------------------------------------- a stale accept

  /** A first run is abandoned before its accept arrives. */
  lemma Abandons(z: Cast, s0: Sys, s: Sys) returns (t: Sys)
    requires Good(z)
    requires Leads(s0, s) && z.a in s.acc && Seat(s.acc[z.a], 1, [z.a]) && Clear(s.acc[z.a]) && Idles(s, z.a, 0)
    ensures Leads(s0, t) && z.a in t.acc && Seat(t.acc[z.a], 1, [z.a]) && t.acc[z.a].nH == Prop(1, z.a)
    ensures t.acc[z.a].me == s.acc[z.a].me
    ensures t.acc[z.a].nA.n == 0 && t.acc[z.a].vA == "" && Idles(t, z.a, 1)
    ensures AcceptMsg(z.a, 2, Prop(1, z.a), Value([z.a, z.b])) in t.net && HasBallot(t, Prop(1, z.a), 2, [z.a])
  {
    t := Proposes(z, s0, s, 0, z.b);
    MajorityOfOne(z.a, Elements([z.a]));
    t := DoFinish(s0, t, z.a, false);
  }

  /** A second run is decided and committed. */
  lemma Decides(z: Cast, s0: Sys, s: Sys) returns (t: Sys)
    requires Good(z)
    requires Leads(s0, s) && z.a in s.acc && Seat(s.acc[z.a], 1, [z.a]) && s.acc[z.a].nH == Prop(1, z.a)
    requires s.acc[z.a].nA.n == 0 && s.acc[z.a].vA == "" && Idles(s, z.a, 1) && s.acc[z.a].me == z.a
    ensures var n, w := Prop(2, z.a), Value([z.a, z.c]);
      && Leads(s0, t) && s.net <= t.net && t.ballots == s.ballots[n := Ballot(2, [z.a], Add(z.c))]
      && z.a in t.acc && t.acc[z.a].instanceH == 2 && t.acc[z.a].nH == Prop(0, z.a) && AcceptOk(z.a, 2, n, w) in t.net
  {
    t := Commits(z, s0, s, 1, z.c);
  }

  /** One stale accept is enough: in a state of an orderly run, the delivery of an accept
      from an earlier, abandoned run of a committed instance makes a second value
      chosen. */
  lemma StaleAcceptBreaksAgreement(z: Cast) returns (s: Sys, e: Event)
    requires Good(z)
    ensures Reachable(s) && Enabled(s, e) && e.DeliverAccept? && !Orderly(s, e)
    ensures OneChosen(s) && !OneChosen(Next(s, e))
  {
    var s0 := Begin(z);
    Still(s0);
    s := Abandons(z, s0, s0);
    s := Decides(z, s0, s);
    LeadsReachable(s0, s);
    PaxosAgreement(s);
    e := DeliverAccept(z.a, 2, Prop(1, z.a), Value([z.a, z.b]));
    StaleVote(z, s, e);
  }

  lemma StaleVote(z: Cast, s: Sys, e: Event)
    requires Good(z)
    requires e == DeliverAccept(z.a, 2, Prop(1, z.a), Value([z.a, z.b])) && Enabled(s, e)
    requires s.acc[z.a].instanceH == 2 && s.acc[z.a].nH == Prop(0, z.a)
    requires HasBallot(s, Prop(1, z.a), 2, [z.a]) && HasBallot(s, Prop(2, z.a), 2, [z.a])
    requires AcceptOk(z.a, 2, Prop(2, z.a), Value([z.a, z.c])) in s.net
    ensures !Orderly(s, e) && !OneChosen(Next(s, e))
  {
    var t := Next(s, e);
    ChosenByOne(t, Prop(1, z.a), 2, z.a, Value([z.a, z.b]));
    ChosenByOne(t, Prop(2, z.a), 2, z.a, Value([z.a, z.c]));
    Differ(z);
    TwoChosen(t, 2, Value([z.a, z.b]), Value([z.a, z.c]));
  }

  // ------------------------------------------------- a log taken over an open promise

  /** "c" takes over the log of "a" while nothing but the first view is in it. */
  lemma Copies(z: Cast, s0: Sys, s: Sys) returns (t: Sys)
    requires Good(z)
    requires Leads(s0, s) && z.a in s.acc && z.c in s.acc && s.acc[z.a].instanceH == 1
    requires s.acc[z.a].log == [Done(1, z.a)] && s.acc[z.c] == Initial(z.c)
    ensures Leads(s0, t) && t.first == s.first && t.pro == s.pro && t.ballots == s.ballots
    ensures z.c in t.acc && t.acc == s.acc[z.c := t.acc[z.c]]
    ensures t.acc[z.c].instanceH == 1 && t.acc[z.c].log == [Done(1, z.a)] && LogMsg(t.acc[z.c]) in t.net
  {
    t := Go(s0, s, Dump(z.a));
    t := Go(s0, t, Rejoin(z.c, s.acc[z.a]));
    OneRecord(z, s.acc[z.c]);
    t := Go(s0, t, Dump(z.c));
  }

  lemma OneRecord(z: Cast, x: Acceptor)
    requires Good(z)
    ensures var r := Restore(x, [Done(1, z.a)]);
      && r.instanceH == 1 && r.values == x.values[1 := z.a] && Clear(r) && r.log == [Done(1, z.a)]
  {
    var l := [Done(1, z.a)];
    assert l[..0] == [];
    assert Replay(x, l[..0]) == x;
    assert Replay(x, l) == ReplayRecord(x, l[0]);
  }

  /** "a" has voted in instance 2, and if `decided` also committed it. */
  lemma VotesFirst(z: Cast, s0: Sys, s: Sys, decided: bool) returns (t: Sys)
    requires Good(z)
    requires Init(s0) && Leads(s0, s) && s.first == z.a && z.a in s.acc && z.c in s.acc
    requires Seat(s.acc[z.a], 1, [z.a]) && Clear(s.acc[z.a]) && Idles(s, z.a, 0)
    requires s.acc[z.c].instanceH == 1 && s.acc[z.c].log == [Done(1, z.a)]
    ensures var n, v := Prop(1, z.a), Value([z.a, z.b]);
      && Leads(s0, t) && s.net <= t.net && z.a in t.acc && z.c in t.acc && t.acc[z.c] == s.acc[z.c] && t.first == z.a
      && t.acc[z.a].instanceH == (if decided then 2 else 1) && (decided || t.acc[z.a].nH == n)
      && HasBallot(t, n, 2, [z.a]) && AcceptOk(z.a, 2, n, v) in t.net && Idles(t, z.a, 1)
  {
    var n, v := Prop(1, z.a), Value([z.a, z.b]);
    t := Proposes(z, s0, s, 0, z.b);
    t := Votes(z, s0, t, n, v, decided);
    if decided { t := DoDecide(s0, t, z.a, 2, n, v); }
  }

  /** After its vote is forgotten, "a" votes for another value. */
  lemma VotesAgain(z: Cast, s0: Sys, s: Sys) returns (t: Sys)
    requires Good(z)
    requires Leads(s0, s) && z.a in s.acc && Seat(s.acc[z.a], 1, [z.a]) && Clear(s.acc[z.a]) && Idles(s, z.a, 1)
    requires HasBallot(s, Prop(1, z.a), 2, [z.a]) && AcceptOk(z.a, 2, Prop(1, z.a), Value([z.a, z.b])) in s.net
    ensures Leads(s0, t) && !OneChosen(t)
  {
    var n, v, w := Prop(2, z.a), Value([z.a, z.b]), Value([z.a, z.c]);
    t := Proposes(z, s0, s, 1, z.c);
    t := Votes(z, s0, t, n, w, false);
    ChosenByOne(t, Prop(1, z.a), 2, z.a, v);
    ChosenByOne(t, n, 2, z.a, w);
    Differ(z);
    TwoChosen(t, 2, v, w);
  }

  /** Taking over a log makes a node forget what it voted for: with a promise of its own
      in the open instance, or if the log holds fewer commits. In both cases a run that
      is orderly but for this event chooses two values. */
  lemma RejoinBreaksAgreement(z: Cast, lower: bool) returns (s: Sys, e: Event, t: Sys)
    requires Good(z)
    ensures Reachable(s) && Enabled(s, e) && e.Rejoin? && !Orderly(s, e)
    ensures if lower then e.dumped.instanceH < s.acc[e.b].instanceH
            else e.dumped.instanceH == s.acc[e.b].instanceH && s.acc[e.b].nH.n > 0
    ensures Leads(Next(s, e), t) && !OneChosen(t)
  {
    var s0 := Begin(z);
    Still(s0);
    s := Copies(z, s0, s0);
    s := VotesFirst(z, s0, s, lower);
    LeadsReachable(s0, s);
    e := Rejoin(z.a, s.acc[z.c]);
    var u := Forgets(z, s);
    Still(u);
    t := VotesAgain(z, u, u);
  }

  lemma Forgets(z: Cast, s: Sys) returns (u: Sys)
    requires Good(z)
    requires z.a in s.acc && z.c in s.acc && s.acc[z.c].log == [Done(1, z.a)] && LogMsg(s.acc[z.c]) in s.net
    ensures Enabled(s, Rejoin(z.a, s.acc[z.c])) && u == Next(s, Rejoin(z.a, s.acc[z.c]))
    ensures u.pro == s.pro && u.net == s.net && u.ballots == s.ballots
    ensures z.a in u.acc && Seat(u.acc[z.a], 1, [z.a]) && Clear(u.acc[z.a])
  {
    OneRecord(z, s.acc[z.a]);
    FirstView(z);
    u := Next(s, Rejoin(z.a, s.acc[z.c]));
  }

  // ------------------------------------------------------------ a prepare granted ahead

  /** "a" adds "c". */
  lemma AddsC(z: Cast, s0: Sys, s: Sys) returns (t: Sys)
    requires Good(z)
    requires Leads(s0, s) && z.a in s.acc && Seat(s.acc[z.a], 1, [z.a]) && Clear(s.acc[z.a])
      && s.acc[z.a].me == z.a && Idles(s, z.a, 0)
    ensures Leads(s0, t) && t.first == s.first && z.a in t.acc && t.acc == s.acc[z.a := t.acc[z.a]]
    ensures Seat(t.acc[z.a], 2, [z.a, z.c]) && Clear(t.acc[z.a]) && t.acc[z.a].me == z.a
      && t.pro == s.pro[z.a := Proposer(Prop(1, z.a), Idle)]
  {
    t := Commits(z, s0, s, 0, z.c);
    ReadBack(z);
  }

  /** A node that is behind takes over a log without an open promise. */
  lemma Joins(z: Cast, s0: Sys, s: Sys, x: Node, from: Node, l: seq<Node>) returns (t: Sys)
    requires Good(z)
    requires Leads(s0, s) && x in s.acc && from in s.acc
      && s.acc[x] == Initial(x).(nH := s.acc[x].nH, log := s.acc[x].log)
    requires s.acc[from].instanceH >= 1 && Seat(s.acc[from], s.acc[from].instanceH, l) && Clear(s.acc[from])
    requires Durable(s.acc[from]) && forall j :: j in s.acc[from].values <==> 1 <= j <= s.acc[from].instanceH
    ensures Leads(s0, t) && t.first == s.first && t.pro == s.pro && t.ballots == s.ballots && s.net <= t.net
    ensures x in t.acc && t.acc == s.acc[x := t.acc[x]]
    ensures Seat(t.acc[x], s.acc[from].instanceH, l) && Clear(t.acc[x]) && t.acc[x].me == x
  {
    t := Go(s0, s, Dump(from));
    t := Go(s0, t, Rejoin(x, s.acc[from]));
    RestoreIs(s.acc[x], s.acc[from]);
  }

  /** "a" and "c" are members of view `h`, and neither has promised anything. */
  ghost predicate Pair(z: Cast, s: Sys, h: nat, l: seq<Node>) {
    && z.a in s.acc && z.c in s.acc && z.b in s.acc && s.acc[z.b] == Initial(z.b)
    && Seat(s.acc[z.a], h, l) && Clear(s.acc[z.a]) && s.acc[z.a].me == z.a
    && Seat(s.acc[z.c], h, l) && Clear(s.acc[z.c]) && s.acc[z.c].me == z.c
    && Idles(s, z.c, 0)
  }

  lemma ViewOf2(z: Cast) returns (s0: Sys, t: Sys)
    requires Good(z)
    ensures Init(s0) && Leads(s0, t) && t.first == z.a && z.a in t.acc && z.b in t.acc && z.c in t.acc
    ensures Seat(t.acc[z.a], 2, [z.a, z.c]) && Clear(t.acc[z.a]) && t.acc[z.a].me == z.a
    ensures t.acc[z.b] == Initial(z.b) && t.acc[z.c] == Initial(z.c) && Idles(t, z.a, 1) && Idles(t, z.c, 0)
  {
    s0 := Begin(z);
    Still(s0);
    t := AddsC(z, s0, s0);
  }

  lemma PairOf2(z: Cast) returns (s0: Sys, t: Sys)
    requires Good(z)
    ensures Init(s0) && Leads(s0, t) && t.first == z.a && Pair(z, t, 2, [z.a, z.c]) && Idles(t, z.a, 1)
  {
    s0, t := ViewOf2(z);
    LeadsDurable(s0, t, z.a);
    t := Joins(z, s0, t, z.c, z.a, [z.a, z.c]);
  }

  /** Both promise to "a" in instance 3. */
  lemma Promise3(z: Cast, s0: Sys, s: Sys) returns (t: Sys)
    requires Good(z)
    requires Leads(s0, s) && Pair(z, s, 2, [z.a, z.c]) && Idles(s, z.a, 1)
    ensures var n, v := Prop(2, z.a), Value([z.a, z.c, z.b]);
      && Leads(s0, t) && t.first == s.first && z.a in t.acc && z.c in t.acc
      && t.acc == s.acc[z.a := t.acc[z.a]][z.c := t.acc[z.c]]
      && t.acc[z.a] == s.acc[z.a].(nH := n, log := t.acc[z.a].log)
      && t.acc[z.c] == s.acc[z.c].(nH := n, log := t.acc[z.c].log)
      && t.pro == s.pro[z.a := Proposer(n, Preparing(3, [z.a, z.c], v))]
      && PrepareReply(z.a, 3, n, PrepareRes(false, true, s.acc[z.a].nA, "")) in t.net
      && PrepareReply(z.c, 3, n, PrepareRes(false, true, s.acc[z.c].nA, "")) in t.net
  {
    var n := Prop(2, z.a);
    assert [z.a, z.c] + [z.b] == [z.a, z.c, z.b];
    t := StartAdd(s0, s, z.a, 3, z.b, [z.a, z.c], 1);
    assert z.a in [z.a, z.c] && z.c in [z.a, z.c];
    t := DoPromise(s0, t, z.a, 3, n);
    t := DoPromise(s0, t, z.c, 3, n);
  }

  lemma BothAnswer(z: Cast, nodes: seq<Node>, p: Outcome, q: Outcome)
    requires Good(z)
    requires |nodes| == 2 && p.Reply? && q.Reply?
    ensures Answering(nodes, [p, q]) == nodes
  {
    var os := [p, q];
    assert nodes[..1][..0] == [] && os[..1][..0] == [];
    assert Answering(nodes[..1], os[..1]) == [nodes[0]];
  }

  lemma Vote3(z: Cast, s0: Sys, s: Sys, rA: PrepareRes, rC: PrepareRes) returns (t: Sys)
    requires Good(z)
    requires var n, v := Prop(2, z.a), Value([z.a, z.c, z.b]);
      && Leads(s0, s) && z.a in s.acc && z.c in s.acc && s.acc[z.a].instanceH == 2 && s.acc[z.c].instanceH == 2
      && s.acc[z.a].nH == n && s.acc[z.c].nH == n
      && z.a in s.pro && s.pro[z.a] == Proposer(n, Preparing(3, [z.a, z.c], v))
      && PrepareReply(z.a, 3, n, rA) in s.net && PrepareReply(z.c, 3, n, rC) in s.net
    requires Plain(Reply(rA)) && Plain(Reply(rC))
    ensures var n, v := Prop(2, z.a), Value([z.a, z.c, z.b]);
      && Leads(s0, t) && t.first == s.first && z.a in t.acc && z.c in t.acc
      && t.acc == s.acc[z.a := t.acc[z.a]][z.c := t.acc[z.c]] && t.pro == s.pro[z.a := Proposer(n, Idle)]
      && t.acc[z.a] == s.acc[z.a].(nA := n, vA := v, log := t.acc[z.a].log)
      && t.acc[z.c] == s.acc[z.c].(nA := n, vA := v, log := t.acc[z.c].log)
      && DecideMsg(z.a, 3, n, v) in t.net && DecideMsg(z.c, 3, n, v) in t.net
  {
    var n, v := Prop(2, z.a), Value([z.a, z.c, z.b]);
    GeIsGtOrEqual(n, n);
    BothAnswer(z, [z.a, z.c], Reply(rA), Reply(rC));
    MajorityOfTwo([z.a, z.c], 0, 1, Elements([z.a, z.c]));
    assert z.a in [z.a, z.c] && z.c in [z.a, z.c];
    t := TwoVotes(s0, s, z.a, z.a, z.c, s.pro[z.a].phase, n, [Reply(rA), Reply(rC)]);
    t := DoFinish(s0, t, z.a, true);
  }

  lemma PairOf3(z: Cast, s0: Sys, s: Sys) returns (t: Sys)
    requires Good(z)
    requires Leads(s0, s) && Pair(z, s, 2, [z.a, z.c]) && Idles(s, z.a, 1)
    ensures Leads(s0, t) && t.first == s.first && Pair(z, t, 3, [z.a, z.c, z.b]) && Idles(t, z.a, 2)
  {
    var n, v := Prop(2, z.a), Value([z.a, z.c, z.b]);
    t := Promise3(z, s0, s);
    t := Vote3(z, s0, t, PrepareRes(false, true, s.acc[z.a].nA, ""), PrepareRes(false, true, s.acc[z.c].nA, ""));
    t := DoDecide(s0, t, z.a, 3, n, v);
    t := DoDecide(s0, t, z.c, 3, n, v);
    ReadBack(z);
  }

  function ACB(z: Cast): (l: seq<Node>) { [z.a, z.c, z.b] }

  /** "a" starts a run for instance 4 and promises to itself. */
  lemma Start4(z: Cast, s0: Sys, s: Sys) returns (t: Sys)
    requires Good(z)
    requires Leads(s0, s) && Pair(z, s, 3, ACB(z)) && Idles(s, z.a, 2)
    ensures var n, w := Prop(3, z.a), Value(ACB(z) + [z.d]);
      && Leads(s0, t) && t.first == s.first && z.a in t.acc && t.acc == s.acc[z.a := t.acc[z.a]]
      && t.acc[z.a] == s.acc[z.a].(nH := n, log := t.acc[z.a].log)
      && t.pro == s.pro[z.a := Proposer(n, Preparing(4, ACB(z), w))] && HasBallot(t, n, 4, ACB(z))
      && PrepareReply(z.a, 4, n, PrepareRes(false, true, s.acc[z.a].nA, "")) in t.net
      && PrepareMsg(z.b, 4, n) in t.net
  {
    var n := Prop(3, z.a);
    t := StartAdd(s0, s, z.a, 4, z.d, ACB(z), 2);
    assert z.a in ACB(z) && z.b in ACB(z);
    t := DoPromise(s0, t, z.a, 4, n);
  }

  /** What the run of "a" has in hand after "b" has promised ahead of its instance. */
  ghost predicate InHand(z: Cast, s: Sys, w: Text) {
    var n := Prop(3, z.a);
    && z.a in s.acc && s.acc[z.a].instanceH == 3 && s.acc[z.a].nH == n && z.b in s.acc
    && z.a in s.pro && s.pro[z.a] == Proposer(n, Preparing(4, ACB(z), w)) && HasBallot(s, n, 4, ACB(z))
    && (exists r :: Plain(Reply(r)) && PrepareReply(z.a, 4, n, r) in s.net)
    && (exists r :: Plain(Reply(r)) && PrepareReply(z.b, 4, n, r) in s.net)
  }

  lemma Early(z: Cast, s: Sys, u: Sys, w: Text)
    requires Good(z)
    requires var n := Prop(3, z.a);
      && z.b in s.acc && s.acc[z.b] == Initial(z.b) && PrepareMsg(z.b, 4, n) in s.net
      && z.a in s.acc && s.acc[z.a].instanceH == 3 && s.acc[z.a].nH == n && z.a in s.pro
      && s.pro[z.a] == Proposer(n, Preparing(4, ACB(z), w)) && HasBallot(s, n, 4, ACB(z))
      && PrepareReply(z.a, 4, n, PrepareRes(false, true, s.acc[z.a].nA, "")) in s.net
      && u == Next(s, DeliverPrepare(z.b, 4, n))
    ensures Enabled(s, DeliverPrepare(z.b, 4, Prop(3, z.a))) && !Orderly(s, DeliverPrepare(z.b, 4, Prop(3, z.a)))
    ensures InHand(z, u, w) && u.first == s.first && u.pro == s.pro && u.acc == s.acc[z.b := u.acc[z.b]]
    ensures u.acc[z.b] == Initial(z.b).(nH := u.acc[z.b].nH, log := u.acc[z.b].log)
  {
    var n := Prop(3, z.a);
    assert Plain(Reply(PrepareRes(false, true, s.acc[z.a].nA, "")));
    var r := PrepareRes(false, true, Prop(0, z.b), "");
    assert Plain(Reply(r)) && PrepareReply(z.b, 4, n, r) in u.net;
  }

  lemma StillInHand(z: Cast, s: Sys, t: Sys, w: Text)
    requires Good(z)
    requires InHand(z, s, w) && s.net <= t.net && z.a in t.acc && t.acc[z.a] == s.acc[z.a] && z.b in t.acc
    requires z.a in t.pro && t.pro[z.a] == s.pro[z.a] && HasBallot(t, Prop(3, z.a), 4, ACB(z))
    ensures InHand(z, t, w)
  {
  }

  /** "c" starts a run of the same instance with a lower number; "c" and "b", whose
      promise was reset with the commit, promise to it. */
  lemma Rivals(z: Cast, s0: Sys, s: Sys, l: seq<Node>) returns (t: Sys)
    requires Good(z)
    requires Leads(s0, s) && z.c in s.acc && Seat(s.acc[z.c], 3, l) && Clear(s.acc[z.c]) && Idles(s, z.c, 0)
    requires z.b in s.acc && s.acc[z.b].instanceH == 3 && Clear(s.acc[z.b]) && z.c in l && z.b in l && z.e !in l
    ensures var m := Prop(1, z.c);
      && Leads(s0, t) && t.first == s.first && s.net <= t.net
      && t.acc == s.acc[z.c := s.acc[z.c].(nH := m, log := s.acc[z.c].log + [PropSeen(m)])]
                       [z.b := s.acc[z.b].(nH := m, log := s.acc[z.b].log + [PropSeen(m)])]
      && t.pro == s.pro[z.c := Proposer(m, Preparing(4, l, Value(l + [z.e])))]
      && t.ballots == s.ballots[m := Ballot(4, l, Add(z.e))]
      && PrepareReply(z.c, 4, m, PrepareRes(false, true, s.acc[z.c].nA, "")) in t.net
      && PrepareReply(z.b, 4, m, PrepareRes(false, true, s.acc[z.b].nA, "")) in t.net
  {
    t := StartPair(s0, s, z.c, z.b, 4, z.e, l, Value(l + [z.e]));
  }

  /** A first run of `p`, promised by `p` and `x`. */
  lemma StartPair(s0: Sys, s: Sys, p: Node, x: Node, i: nat, e: Node, l: seq<Node>, v: Text) returns (t: Sys)
    requires i >= 2 && x != p && TextStream.IsToken(e) && v == Value(l + [e])
    requires Leads(s0, s) && p in s.acc && Seat(s.acc[p], i - 1, l) && Clear(s.acc[p]) && Idles(s, p, 0)
    requires x in s.acc && s.acc[x].instanceH == i - 1 && Clear(s.acc[x]) && p in l && x in l && e !in l
    ensures var m := Prop(1, p);
      && Leads(s0, t) && t.first == s.first && s.net <= t.net
      && t.acc == s.acc[p := s.acc[p].(nH := m, log := s.acc[p].log + [PropSeen(m)])]
                       [x := s.acc[x].(nH := m, log := s.acc[x].log + [PropSeen(m)])]
      && t.pro == s.pro[p := Proposer(m, Preparing(i, l, v))]
      && t.ballots == s.ballots[m := Ballot(i, l, Add(e))]
      && PrepareReply(p, i, m, PrepareRes(false, true, s.acc[p].nA, "")) in t.net
      && PrepareReply(x, i, m, PrepareRes(false, true, s.acc[x].nA, "")) in t.net
  {
    var u := StartOwn(s0, s, p, i, e, l, 0, v);
    assert u.acc[x] == s.acc[x] && Gt(Prop(1, p), s.acc[x].nH) && PrepareMsg(x, i, Prop(1, p)) in u.net;
    t := DoPromise(s0, u, x, i, Prop(1, p));
  }

  lemma TwoAnswer(z: Cast, p: Outcome, q: Outcome, r: Outcome)
    requires Good(z)
    requires q.Reply? != p.Reply? && r.Reply?
    ensures Answering(ACB(z), [p, q, r]) == if p.Reply? then [z.a, z.b] else [z.c, z.b]
  {
    var os := [p, q, r];
    assert ACB(z)[..2][..1][..0] == [] && os[..2][..1][..0] == [];
    assert ACB(z)[..2][..1] == [z.a] && os[..2][..1] == [p];
    assert Answering(ACB(z)[..2][..1], os[..2][..1]) == if p.Reply? then [z.a] else [];
    assert ACB(z)[..2] == [z.a, z.c] && os[..2] == [p, q];
  }

  /** The run of "c" gets a majority of votes. */
  lemma Chosen4(z: Cast, s0: Sys, s: Sys, v: Text, rC: PrepareRes, rB: PrepareRes) returns (t: Sys)
    requires Good(z)
    requires var m := Prop(1, z.c);
      && Leads(s0, s) && z.c in s.acc && s.acc[z.c].instanceH == 3 && s.acc[z.c].nH == m
      && z.b in s.acc && s.acc[z.b].instanceH == 3 && s.acc[z.b].nH == m
      && z.c in s.pro && s.pro[z.c] == Proposer(m, Preparing(4, ACB(z), v))
      && PrepareReply(z.c, 4, m, rC) in s.net && PrepareReply(z.b, 4, m, rB) in s.net
    requires Plain(Reply(rC)) && Plain(Reply(rB))
    ensures var m := Prop(1, z.c);
      && Leads(s0, t) && t.first == s.first && s.net <= t.net && t.ballots == s.ballots
      && z.b in t.acc && z.c in t.acc && t.acc == s.acc[z.c := t.acc[z.c]][z.b := t.acc[z.b]]
      && t.acc[z.b].instanceH == 3 && t.acc[z.b].nH == m && z.c in t.pro && t.pro == s.pro[z.c := t.pro[z.c]]
      && AcceptOk(z.c, 4, m, v) in t.net && AcceptOk(z.b, 4, m, v) in t.net
  {
    var m := Prop(1, z.c);
    GeIsGtOrEqual(m, m);
    TwoAnswer(z, Failed, Reply(rC), Reply(rB));
    assert z.c in [z.c, z.b] && z.b in [z.c, z.b];
    MajorityOfTwo(ACB(z), 1, 2, Elements([z.c, z.b]));
    t := TwoVotes(s0, s, z.c, z.c, z.b, s.pro[z.c].phase, m, [Failed, Reply(rC), Reply(rB)]);
  }

  /** The run of "a", whose promise from "b" was worth nothing, gets one too. */
  lemma VotedTwice(z: Cast, s0: Sys, s: Sys, w: Text) returns (t: Sys)
    requires Good(z)
    requires Leads(s0, s) && InHand(z, s, w) && s.acc[z.b].instanceH == 3 && s.acc[z.b].nH == Prop(1, z.c)
    ensures var n := Prop(3, z.a);
      && Leads(s0, t) && s.net <= t.net && t.ballots == s.ballots && t.acc.Keys == s.acc.Keys
      && AcceptOk(z.a, 4, n, w) in t.net && AcceptOk(z.b, 4, n, w) in t.net
  {
    var n := Prop(3, z.a);
    var rA :| Plain(Reply(rA)) && PrepareReply(z.a, 4, n, rA) in s.net;
    var rB :| Plain(Reply(rB)) && PrepareReply(z.b, 4, n, rB) in s.net;
    GeIsGtOrEqual(n, n);
    TwoAnswer(z, Reply(rA), Failed, Reply(rB));
    assert z.a in [z.a, z.b] && z.b in [z.a, z.b];
    MajorityOfTwo(ACB(z), 0, 2, Elements([z.a, z.b]));
    t := TwoVotes(s0, s, z.a, z.a, z.b, s.pro[z.a].phase, n, [Reply(rA), Failed, Reply(rB)]);
  }

  lemma ChosenTwice(z: Cast, s: Sys)
    requires Good(z)
    requires var n, w := Prop(3, z.a), Value(ACB(z) + [z.d]);
      && HasBallot(s, n, 4, ACB(z)) && z.a in s.acc
      && AcceptOk(z.a, 4, n, w) in s.net && AcceptOk(z.b, 4, n, w) in s.net
    requires var m, v := Prop(1, z.c), Value(ACB(z) + [z.e]);
      && HasBallot(s, m, 4, ACB(z)) && z.c in s.acc
      && AcceptOk(z.c, 4, m, v) in s.net && AcceptOk(z.b, 4, m, v) in s.net
    requires z.b in s.acc
    ensures !OneChosen(s)
  {
    var w, v := Value(ACB(z) + [z.d]), Value(ACB(z) + [z.e]);
    ChosenByTwo(s, Prop(1, z.c), 4, ACB(z), 1, 2, v);
    ChosenByTwo(s, Prop(3, z.a), 4, ACB(z), 0, 2, w);
    Differ(z);
    TwoChosen(s, 4, w, v);
  }

  /** A promise ahead of the acceptor's instance is worth nothing: the commit in between
      resets it. In a run that is orderly but for one prepare granted ahead, the node
      then votes under a lower number and after that under the higher one, and two
      values are chosen. */
  lemma EarlyPrepareBreaksAgreement(z: Cast) returns (s: Sys, e: Event, t: Sys)
    requires Good(z)
    ensures Reachable(s) && Enabled(s, e) && e.DeliverPrepare? && !Orderly(s, e)
    ensures Leads(Next(s, e), t) && !OneChosen(t)
  {
    var s0;
    s0, s := PairOf2(z);
    s := PairOf3(z, s0, s);
    s := Start4(z, s0, s);
    LeadsReachable(s0, s);
    LeadsDurable(s0, s, z.c);
    e := DeliverPrepare(z.b, 4, Prop(3, z.a));
    var u := Next(s, e);
    Early(z, s, u, Value(ACB(z) + [z.d]));
    t := TwoMajorities(z, u, Value(ACB(z) + [z.d]));
  }

  /** The rival run, up to its majority. */
  lemma FirstMajority(z: Cast, u: Sys, v: Text) returns (t: Sys)
    requires Good(z) && v == Value(ACB(z) + [z.e])
    requires z.c in u.acc && Seat(u.acc[z.c], 3, ACB(z)) && Clear(u.acc[z.c]) && Idles(u, z.c, 0)
    requires z.b in u.acc && u.acc[z.b].instanceH == 3 && Clear(u.acc[z.b])
    ensures var m := Prop(1, z.c);
      && Leads(u, t) && u.net <= t.net && t.ballots == u.ballots[m := Ballot(4, ACB(z), Add(z.e))]
      && z.b in t.acc && z.c in t.acc && t.acc == u.acc[z.c := t.acc[z.c]][z.b := t.acc[z.b]]
      && t.acc[z.b].instanceH == 3 && t.acc[z.b].nH == m && z.c in t.pro && t.pro == u.pro[z.c := t.pro[z.c]]
      && AcceptOk(z.c, 4, m, v) in t.net && AcceptOk(z.b, 4, m, v) in t.net
  {
    Still(u);
    assert z.c in ACB(z) && z.b in ACB(z);
    var r := Rivals(z, u, u, ACB(z));
    t := Chosen4(z, u, r, v, PrepareRes(false, true, u.acc[z.c].nA, ""), PrepareRes(false, true, u.acc[z.b].nA, ""));
    SetTwice(u.acc, z.c, z.b, r.acc[z.c], r.acc[z.b], t.acc[z.c], t.acc[z.b]);
  }

  lemma SetTwice(acc: map<Node, Acceptor>, c: Node, b: Node, x: Acceptor, y: Acceptor, x': Acceptor, y': Acceptor)
    requires c != b
    ensures acc[c := x][b := y][c := x'][b := y'] == acc[c := x'][b := y']
  {
  }

  lemma TwoMajorities(z: Cast, u: Sys, w: Text) returns (t: Sys)
    requires Good(z) && w == Value(ACB(z) + [z.d])
    requires InHand(z, u, w) && z.c in u.acc && Seat(u.acc[z.c], 3, ACB(z)) && Clear(u.acc[z.c]) && Idles(u, z.c, 0)
    requires u.acc[z.b] == Initial(z.b).(nH := u.acc[z.b].nH, log := u.acc[z.b].log)
    requires Durable(u.acc[z.c]) && forall j :: j in u.acc[z.c].values <==> 1 <= j <= 3
    ensures Leads(u, t) && !OneChosen(t)
  {
    Still(u);
    var r := Joins(z, u, u, z.b, z.c, ACB(z));
    t := FirstMajority(z, r, Value(ACB(z) + [z.e]));
    LeadsOn(u, r, t);
    StillInHand(z, u, t, w);
    t := VotedTwice(z, u, t, w);
    ChosenTwice(z, t);
  }
}
