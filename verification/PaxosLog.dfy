/** The durable log of an acceptor: replay after any history, and its text form. */
module PaxosLog {
  import opened Views
  import opened TextStream
  import opened Proposals
  import opened AcceptorModel

  // ------------------------------------------------------------- replay over histories

  /** What can happen to one acceptor. */
  datatype Op =
    | PrepareOp(i: nat, n: Prop)
    | AcceptOp(n: Prop, v: Text)
    | CommitOp(i: nat, v: Text)

  datatype Answer = Promised(r: PrepareRes) | Voted(ok: bool) | Silent

  function Step(a: Acceptor, op: Op): (r: (Acceptor, Answer)) {
    match op
    case PrepareOp(i, n) => var r := Prepare(a, i, n); (r.0, Promised(r.1))
    case AcceptOp(n, v) => var r := Accept(a, n, v); (r.0, Voted(r.1))
    case CommitOp(i, v) => (Commit(a, i, v), Silent)
  }

  function Perform(a: Acceptor, ops: seq<Op>): (r: (Acceptor, seq<Answer>))
    decreases ops
  {
    if ops == [] then (a, [])
    else
      var x := Step(a, ops[0]);
      var y := Perform(x.0, ops[1..]);
      (y.0, [x.1] + y.1)
  }

  /** Answers that a proposer cannot tell apart. */
  predicate SameAnswer(x: Answer, y: Answer) {
    if x.Promised? && y.Promised? then
      && x.r.oldinstance == y.r.oldinstance && x.r.accept == y.r.accept
      && SameProp(x.r.nA, y.r.nA) && x.r.vA == y.r.vA
    else x == y
  }

  predicate SameAnswers(xs: seq<Answer>, ys: seq<Answer>) {
    |xs| == |ys| && forall k :: 0 <= k < |xs| ==> SameAnswer(xs[k], ys[k])
  }

  /** Proposers number their proposals from 1. */
  predicate FromProposers(ops: seq<Op>) {
    forall k :: 0 <= k < |ops| ==>
      (ops[k].PrepareOp? ==> ops[k].n.n >= 1) && (ops[k].AcceptOp? ==> ops[k].n.n >= 1)
  }

  lemma {:induction false} PerformDurable(a: Acceptor, ops: seq<Op>)
    requires Durable(a)
    ensures Durable(Perform(a, ops).0)
    decreases ops
  {
    if ops != [] {
      match ops[0] {
        case PrepareOp(i, n) => HandlersAreDurable(a, i, n, "");
        case AcceptOp(n, v) => HandlersAreDurable(a, 0, n, v);
        case CommitOp(i, v) => HandlersAreDurable(a, i, a.nH, v);
      }
      PerformDurable(Step(a, ops[0]).0, ops[1..]);
    }
  }

  /** Durable replay: after any sequence of promises, votes and commits, the log read
      into the initial fields gives the live fields. */
  lemma ReplayRebuilds(me: Node, first: bool, value: Text, ops: seq<Op>)
    ensures var a := Perform(Boot(me, first, value, []), ops).0;
      Same(Replay(Initial(me), a.log), a)
  {
    BootIsDurable(me, first, value, []);
    PerformDurable(Boot(me, first, value, []), ops);
    PerformMe(Boot(me, first, value, []), ops);
  }

  lemma {:induction false} PerformMe(a: Acceptor, ops: seq<Op>)
    ensures Perform(a, ops).0.me == a.me
    decreases ops
  {
    if ops != [] { PerformMe(Step(a, ops[0]).0, ops[1..]); }
  }

  lemma {:induction false} SameFuture(a: Acceptor, b: Acceptor, ops: seq<Op>)
    requires Same(a, b) && FromProposers(ops)
    ensures Same(Perform(a, ops).0, Perform(b, ops).0)
    ensures SameAnswers(Perform(a, ops).1, Perform(b, ops).1)
    ensures a.log == b.log ==> Perform(a, ops).0.log == Perform(b, ops).0.log
    decreases ops
  {
    if ops != [] {
      var p := Prop(1, "");
      match ops[0] {
        case PrepareOp(i, n) => SameDecisions(a, b, i, n, "");
        case AcceptOp(n, v) => SameDecisions(a, b, 0, n, v);
        case CommitOp(i, v) => SameDecisions(a, b, i, p, v);
      }
      SameFuture(Step(a, ops[0]).0, Step(b, ops[0]).0, ops[1..]);
    }
  }

  lemma {:induction false} InstanceMonotone(a: Acceptor, ops: seq<Op>)
    ensures Perform(a, ops).0.instanceH >= a.instanceH
    decreases ops
  {
    if ops != [] { InstanceMonotone(Step(a, ops[0]).0, ops[1..]); }
  }

  /** A crash at any point is invisible: the restarted acceptor gives every later
      request the answer the old one would have given, and ends in the same state with
      the same log. */
  lemma RestartIsInvisible(me: Node, first: bool, value: Text, before: seq<Op>, later: seq<Op>)
    requires FromProposers(later)
    ensures var a := Perform(Boot(me, first, value, []), before).0;
      var x, y := Perform(Boot(me, first, value, a.log), later), Perform(a, later);
      SameAnswers(x.1, y.1) && Same(x.0, y.0) && x.0.log == y.0.log
  {
    var a := Perform(Boot(me, first, value, []), before).0;
    ReplayRebuilds(me, first, value, before);
    InstanceMonotone(Boot(me, first, value, []), before);
    PerformMe(Boot(me, first, value, []), before);
    SameFuture(Boot(me, first, value, a.log), a, later);
  }

  // ----------------------------------------------------------------------- text form

  /** One line of the file, as `loginstance`, `logprop` and `logaccept` write it. */
  function Line(r: Record): (s: string) {
    match r
    case Done(i, v) => "done" + " " + Decimal(i) + " " + v + "\n"
    case PropSeen(n) => "propseen" + " " + Decimal(n.n) + " " + n.m + "\n"
    case Accepted(n, v) => "accepted" + " " + Decimal(n.n) + " " + n.m + " " + v + "\n"
  }

  function File(log: seq<Record>): (s: string) {
    if log == [] then "" else Line(log[0]) + File(log[1..])
  }

  datatype Read = End | Bad | One(r: Record, rest: string)

  function DropChar(s: string): (r: string) {
    if s == "" then "" else s[1..]
  }

  /** One turn of the reading loop; an unknown record type aborts. */
  function ReadRecord(s: string): (r: Read)
    ensures r.One? ==> |r.rest| < |s|
  {
    var t := ReadToken(s);
    if t.0 == "" then End
    else if t.0 == "done" then
      var i := ReadNumber(t.1);
      var v := ReadLine(DropChar(i.1));
      ReadLineShrinks(DropChar(i.1));
      One(Done(i.0, v.0), v.1)
    else if t.0 == "propseen" then
      var n := ReadNumber(t.1);
      var m := ReadToken(n.1);
      One(PropSeen(Prop(n.0, m.0)), m.1)
    else if t.0 == "accepted" then
      var n := ReadNumber(t.1);
      var m := ReadToken(n.1);
      var v := ReadLine(DropChar(m.1));
      ReadLineShrinks(DropChar(m.1));
      One(Accepted(Prop(n.0, m.0), v.0), v.1)
    else Bad
  }

  lemma {:induction false} ReadLineShrinks(s: string)
    ensures |ReadLine(s).1| <= |s|
  {
    if s != "" && s[0] != '\n' { ReadLineShrinks(s[1..]); }
  }

  datatype Parsed = Aborted | Records(log: seq<Record>)

  function ReadFile(s: string): (r: Parsed)
    decreases |s|
  {
    match ReadRecord(s)
    case End => Records([])
    case Bad => Aborted
    case One(r, rest) =>
      match ReadFile(rest)
      case Aborted => Aborted
      case Records(log) => Records([r] + log)
  }

  /** What the acceptor writes: node names are tokens, values are single lines. */
  predicate Writable(r: Record) {
    match r
    case Done(i, v) => '\n' !in v
    case PropSeen(n) => IsToken(n.m)
    case Accepted(n, v) => IsToken(n.m) && '\n' !in v
  }

  /** The record type and the number that every line starts with. */
  lemma ReadHead(tag: string, i: nat, u: string)
    requires IsToken(tag) && u != "" && u[0] == ' '
    ensures ReadToken(tag + (" " + (Decimal(i) + u))) == (tag, " " + (Decimal(i) + u))
    ensures ReadNumber(" " + (Decimal(i) + u)) == (i, u)
  {
    ReadTokenOf(tag, " " + (Decimal(i) + u));
    ReadPastBlank(Decimal(i) + u);
    ReadNumberOf(i, u);
  }

  /** The value that ends a line. */
  lemma ReadTail(v: string, rest: string)
    requires '\n' !in v
    ensures ReadLine(DropChar(" " + (v + ("\n" + rest)))) == (v, rest)
  {
    var w := v + ("\n" + rest);
    assert (" " + w)[1..] == w;
    assert w == v + "\n" + rest;
    ReadLineExact(v, rest);
  }

  lemma ReadName(m: Node, w: string)
    requires IsToken(m) && w != "" && IsSpace(w[0])
    ensures ReadToken(" " + (m + w)) == (m, w)
  {
    ReadPastBlank(m + w);
    ReadTokenOf(m, w);
  }

  lemma ReadDone(i: nat, v: Text, rest: string)
    requires '\n' !in v
    ensures ReadRecord(Line(Done(i, v)) + rest) == One(Done(i, v), rest)
  {
    var u := " " + (v + ("\n" + rest));
    Assoc5("done", " ", Decimal(i), " ", v, "\n", rest);
    ReadHead("done", i, u);
    ReadTail(v, rest);
  }

  lemma ReadPropSeen(n: Prop, rest: string)
    requires IsToken(n.m)
    ensures ReadRecord(Line(PropSeen(n)) + rest) == One(PropSeen(n), "\n" + rest)
  {
    var u := " " + (n.m + ("\n" + rest));
    Assoc5("propseen", " ", Decimal(n.n), " ", n.m, "\n", rest);
    ReadHead("propseen", n.n, u);
    ReadName(n.m, "\n" + rest);
  }

  lemma ReadAccepted(n: Prop, v: Text, rest: string)
    requires IsToken(n.m) && '\n' !in v
    ensures ReadRecord(Line(Accepted(n, v)) + rest) == One(Accepted(n, v), rest)
  {
    var w := " " + (v + ("\n" + rest));
    var u := " " + (n.m + w);
    Assoc7("accepted", " ", Decimal(n.n), " ", n.m, " ", v, "\n", rest);
    ReadHead("accepted", n.n, u);
    ReadName(n.m, w);
    ReadTail(v, rest);
  }

  lemma Assoc5(a: string, b: string, c: string, d: string, e: string, f: string, g: string)
    ensures a + b + c + d + e + f + g == a + (b + (c + (d + (e + (f + g)))))
  {
  }

  lemma Assoc7(a: string, b: string, c: string, d: string, e: string, f: string, g: string, h: string, i: string)
    ensures a + b + c + d + e + f + g + h + i == a + (b + (c + (d + (e + (f + (g + (h + i)))))))
  {
  }

  /** A newline left over in front of the next record is skipped. */
  lemma ReadFilePastNewline(s: string)
    ensures ReadFile("\n" + s) == ReadFile(s)
  {
    assert ("\n" + s)[1..] == s;
    assert SkipSpace("\n" + s) == SkipSpace(s);
    assert ReadToken("\n" + s) == ReadToken(s);
    assert ReadRecord("\n" + s) == ReadRecord(s);
  }

  /** One record off the front, when what follows reads as `rest` does. */
  lemma ReadFileStep(s: string, r: Record, tail: string, rest: string)
    requires ReadRecord(s) == One(r, tail) && ReadFile(tail) == ReadFile(rest) && ReadFile(rest).Records?
    ensures ReadFile(s) == Records([r] + ReadFile(rest).log)
  {
  }

  /** The file is read back as exactly the records that were written. */
  lemma {:induction false} ReadFileOf(log: seq<Record>)
    requires forall k :: 0 <= k < |log| ==> Writable(log[k])
    ensures ReadFile(File(log)) == Records(log)
  {
    if log != [] {
      var rest := File(log[1..]);
      ReadFileOf(log[1..]);
      match log[0] {
        case Done(i, v) =>
          ReadDone(i, v, rest);
          ReadFileStep(File(log), log[0], rest, rest);
        case PropSeen(n) =>
          ReadPropSeen(n, rest);
          ReadFilePastNewline(rest);
          ReadFileStep(File(log), log[0], "\n" + rest, rest);
        case Accepted(n, v) =>
          ReadAccepted(n, v, rest);
          ReadFileStep(File(log), log[0], rest, rest);
      }
      assert [log[0]] + log[1..] == log;
    }
  }

  // ------------------------------------------------------------------ dump and restore

  /** `log::dump`: the lines of the file, each with a newline. */
  function Dump(s: string): (r: string)
    decreases |s|
  {
    if s == "" then ""
    else
      var l := ReadLine(s);
      ReadLineSplits(s);
      l.0 + "\n" + Dump(l.1)
  }

  lemma {:induction false} ReadLineSplits(s: string)
    requires s != ""
    ensures var l := ReadLine(s);
      |l.1| < |s| && (s == l.0 + "\n" + l.1 || (s == l.0 && l.1 == "" && '\n' !in s))
  {
    if s[0] != '\n' {
      if s[1..] == "" {
        assert s == [s[0]];
        assert ReadLine(s) == ([s[0]] + "", "");
      } else {
        ReadLineSplits(s[1..]);
        var l := ReadLine(s[1..]);
        assert s == [s[0]] + s[1..];
        if s[1..] == l.0 + "\n" + l.1 {
          assert s == ([s[0]] + l.0) + "\n" + l.1;
        }
      }
    } else {
      assert s == "" + "\n" + s[1..];
    }
  }

  /** A dump is the file itself exactly when the file is empty or ends a line. */
  lemma {:induction false} DumpExact(s: string)
    ensures Dump(s) == s <==> s == "" || s[|s| - 1] == '\n'
    ensures Dump(s) == s || Dump(s) == s + "\n"
    decreases |s|
  {
    if s != "" {
      ReadLineSplits(s);
      var l := ReadLine(s);
      DumpExact(l.1);
      if s == l.0 + "\n" + l.1 {
        if l.1 == "" {
          assert s[|s| - 1] == '\n';
        } else {
          assert s[|s| - 1] == l.1[|l.1| - 1];
        }
        if Dump(l.1) == l.1 + "\n" {
          assert Dump(s) == s + "\n";
        }
      } else {
        assert Dump(s) == s + "\n" + "" == s + "\n";
        assert s[|s| - 1] in s;
      }
    }
  }

  lemma {:induction false} FileEndsLine(log: seq<Record>)
    ensures File(log) == "" || File(log)[|File(log)| - 1] == '\n'
  {
    if log != [] { FileEndsLine(log[1..]); }
  }

  /** A node that restores another node's dump holds exactly its records. */
  lemma RestoreOfDump(log: seq<Record>)
    requires forall k :: 0 <= k < |log| ==> Writable(log[k])
    ensures Dump(File(log)) == File(log) && ReadFile(Dump(File(log))) == Records(log)
  {
    FileEndsLine(log);
    DumpExact(File(log));
    ReadFileOf(log);
  }

  /** The loop has read the records `done` off `text`, and `rest` is left. */
  predicate ReadSoFar(text: string, done: seq<Record>, rest: string) {
    ReadFile(text) == match ReadFile(rest) case Aborted => Aborted case Records(log) => Records(done + log)
  }

  lemma ReadOneMore(text: string, done: seq<Record>, rest: string)
    requires ReadSoFar(text, done, rest) && ReadRecord(rest).One?
    ensures ReadSoFar(text, done + [ReadRecord(rest).r], ReadRecord(rest).rest)
  {
    var r := ReadRecord(rest);
    var tail := ReadFile(r.rest);
    if tail.Records? {
      ReadFileStep(rest, r.r, r.rest, r.rest);
      assert done + ([r.r] + tail.log) == (done + [r.r]) + tail.log;
    }
  }

  lemma ReadNoMore(text: string, done: seq<Record>, rest: string)
    requires ReadSoFar(text, done, rest) && !ReadRecord(rest).One?
    ensures ReadFile(text) == if ReadRecord(rest).End? then Records(done) else Aborted
  {
    assert done + [] == done;
  }

  /** The reading loop of `log::logread` on the text itself: it overwrites the
      fields record by record, and `ok` is false where it aborts. */
  method ReadLogText(a: Acceptor, text: string) returns (a': Acceptor, ok: bool)
    ensures ok <==> ReadFile(text).Records?
    ensures ok ==> a' == Replay(a, ReadFile(text).log)
  {
    a' := a;
    var rest := text;
    ghost var done: seq<Record> := [];
    var r := ReadRecord(rest);
    while r.One?
      invariant r == ReadRecord(rest)
      invariant a' == Replay(a, done) && ReadSoFar(text, done, rest)
      decreases |rest|
    {
      ReplayAppend(a, done, r.r);
      ReadOneMore(text, done, rest);
      a' := ReplayRecord(a', r.r);
      done := done + [r.r];
      rest := r.rest;
      r := ReadRecord(rest);
    }
    ReadNoMore(text, done, rest);
    ok := r.End?;
  }

  /** From the live acceptor to its file and back: reading the text that the
      handlers wrote rebuilds the live fields. */
  lemma FileRebuilds(me: Node, first: bool, value: Text, ops: seq<Op>)
    requires var a := Perform(Boot(me, first, value, []), ops).0;
      forall k :: 0 <= k < |a.log| ==> Writable(a.log[k])
    ensures var a := Perform(Boot(me, first, value, []), ops).0;
      && ReadFile(File(a.log)) == Records(a.log)
      && Same(Replay(Initial(me), ReadFile(File(a.log)).log), a)
  {
    ReplayRebuilds(me, first, value, ops);
    ReadFileOf(Perform(Boot(me, first, value, []), ops).0.log);
  }
}
