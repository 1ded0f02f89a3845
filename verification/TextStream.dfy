/** Formatted input and output on character streams, as far as the view values
    and the Paxos log use it: whitespace-separated tokens, decimal numbers, and
    whole lines. */
module TextStream {

  /** The characters that `istream >> string` skips and stops at. */
  predicate IsSpace(c: char) {
    c == ' ' || c == '\t' || c == '\n' || c == '\r' || c == (11 as char) || c == (12 as char)
  }

  /** A string that survives being written and read back as one token. */
  predicate IsToken(s: string) {
    s != "" && forall k :: 0 <= k < |s| ==> !IsSpace(s[k])
  }

  function SkipSpace(s: string): (r: string)
    ensures |r| <= |s|
  {
    if s != "" && IsSpace(s[0]) then SkipSpace(s[1..]) else s
  }

  function TokenLength(s: string): (n: nat)
    ensures n <= |s|
  {
    if s != "" && !IsSpace(s[0]) then 1 + TokenLength(s[1..]) else 0
  }

  /** `in >> token`: the token (empty at the end of the stream) and what is left. */
  function ReadToken(s: string): (r: (string, string))
    ensures r.0 != "" ==> |r.1| < |s|
  {
    var t := SkipSpace(s);
    (t[..TokenLength(t)], t[TokenLength(t)..])
  }

  /** `getline(in, line)`: up to the next newline, which is consumed. */
  function ReadLine(s: string): (r: (string, string)) {
    if s == "" then ("", "")
    else if s[0] == '\n' then ("", s[1..])
    else var r := ReadLine(s[1..]); ([s[0]] + r.0, r.1)
  }

  function Digit(d: nat): (c: char)
    requires d < 10
  {
    (d + '0' as int) as char
  }

  /** `out << n` for an unsigned number. */
  function Decimal(n: nat): (s: string) {
    if n < 10 then [Digit(n)] else Decimal(n / 10) + [Digit(n % 10)]
  }

  predicate IsDigit(c: char) { '0' <= c <= '9' }

  /** The value of a run of digits. */
  function DigitsValue(s: string): (n: nat)
    requires forall k :: 0 <= k < |s| ==> IsDigit(s[k])
  {
    if s == "" then 0
    else
      assert IsDigit(s[|s| - 1]);
      10 * DigitsValue(s[..|s| - 1]) + (s[|s| - 1] as int - '0' as int)
  }

  function DigitsLength(s: string): (n: nat)
    ensures n <= |s|
    ensures forall k :: 0 <= k < n ==> IsDigit(s[k])
  {
    if s != "" && IsDigit(s[0]) then 1 + DigitsLength(s[1..]) else 0
  }

  /** `in >> n`: skips blanks and reads the longest run of digits. */
  function ReadNumber(s: string): (r: (nat, string)) {
    var t := SkipSpace(s);
    (DigitsValue(t[..DigitsLength(t)]), t[DigitsLength(t)..])
  }

  // ---------------------------------------------------------------- properties

  lemma {:induction false} TokenLengthOf(t: string, rest: string)
    requires IsToken(t) || t == ""
    requires rest == "" || IsSpace(rest[0])
    ensures TokenLength(t + rest) == |t|
  {
    if t == "" {
      assert t + rest == rest;
    } else {
      assert (t + rest)[1..] == t[1..] + rest;
      TokenLengthOf(t[1..], rest);
    }
  }

  /** A written token is read back, up to the blank that ends it. */
  lemma ReadTokenOf(t: string, rest: string)
    requires IsToken(t)
    requires rest == "" || IsSpace(rest[0])
    ensures ReadToken(t + rest) == (t, rest)
  {
    TokenLengthOf(t, rest);
    assert SkipSpace(t + rest) == t + rest;
  }

  lemma {:induction false} TokenLengthClean(s: string)
    ensures forall k :: 0 <= k < TokenLength(s) ==> !IsSpace(s[k])
  {
    if s != "" && !IsSpace(s[0]) {
      TokenLengthClean(s[1..]);
      forall k | 0 <= k < TokenLength(s)
        ensures !IsSpace(s[k])
      {
        if k > 0 { assert s[k] == s[1..][k - 1]; }
      }
    }
  }

  /** Whatever the stream holds, a token that was read has no blank in it. */
  lemma ReadTokenClean(s: string)
    ensures ReadToken(s).0 != "" ==> IsToken(ReadToken(s).0)
  {
    TokenLengthClean(SkipSpace(s));
  }

  /** A line is read back exactly when it holds no newline. */
  lemma {:induction false} ReadLineExact(v: string, rest: string)
    ensures ReadLine(v + "\n" + rest) == (v, rest) <==> '\n' !in v
  {
    if v == "" {
      assert v + "\n" + rest == "\n" + rest;
      assert ("\n" + rest)[1..] == rest;
    } else {
      var s := v + "\n" + rest;
      assert s[1..] == v[1..] + "\n" + rest;
      assert v == [v[0]] + v[1..];
      ReadLineExact(v[1..], rest);
      if v[0] == '\n' {
        assert ReadLine(s).0 == "";
      } else {
        assert ReadLine(s) == ([v[0]] + ReadLine(s[1..]).0, ReadLine(s[1..]).1);
        assert '\n' in v <==> '\n' in v[1..];
        if ReadLine(s) == (v, rest) {
          assert ReadLine(s[1..]).0 == ReadLine(s).0[1..] == v[1..];
        }
      }
    }
  }

  lemma {:induction false} DecimalDigits(n: nat)
    ensures Decimal(n) != ""
    ensures forall k :: 0 <= k < |Decimal(n)| ==> IsDigit(Decimal(n)[k])
    ensures DigitsValue(Decimal(n)) == n
  {
    if n >= 10 {
      DecimalDigits(n / 10);
      var s := Decimal(n);
      assert s[..|s| - 1] == Decimal(n / 10);
    } else {
      var s := Decimal(n);
      assert s[..|s| - 1] == "";
    }
  }

  lemma {:induction false} DigitsLengthOf(d: string, rest: string)
    requires forall k :: 0 <= k < |d| ==> IsDigit(d[k])
    requires rest == "" || !IsDigit(rest[0])
    ensures DigitsLength(d + rest) == |d|
  {
    if d == "" {
      assert d + rest == rest;
    } else {
      assert (d + rest)[1..] == d[1..] + rest;
      DigitsLengthOf(d[1..], rest);
    }
  }

  lemma ReadNumberOf(n: nat, rest: string)
    requires rest == "" || !IsDigit(rest[0])
    ensures ReadNumber(Decimal(n) + rest) == (n, rest)
  {
    DecimalDigits(n);
    DigitsLengthOf(Decimal(n), rest);
    var s := Decimal(n) + rest;
    assert SkipSpace(s) == s;
    assert s[..|Decimal(n)|] == Decimal(n);
  }

  /** A blank in front of a token or a number is skipped. */
  lemma ReadPastBlank(s: string)
    ensures ReadToken(" " + s) == ReadToken(s)
    ensures ReadNumber(" " + s) == ReadNumber(s)
  {
    assert (" " + s)[1..] == s;
  }
}
