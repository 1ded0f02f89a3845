/** The byte codecs of the RPC layer: a growing output buffer, an input cursor, and
    the encodings of numbers and strings. */
module Marshall {

  type Byte = x: nat | x < 256

  const TWO32 := 0x1_0000_0000
  const TWO64 := 0x1_0000_0000_0000_0000

  /** A string as the source has it: one byte per character. */
  predicate Narrow(s: string) {
    forall k :: 0 <= k < |s| ==> s[k] as int < 256
  }

  // ------------------------------------------------------------------------- encoding

  /** The bytes of a number of 32 bits, most significant first: network order. */
  function Digit(x: nat, k: nat): (d: Byte) {
    if k == 0 then (x / 0x100_0000) % 256
    else if k == 1 then (x / 0x1_0000) % 256
    else if k == 2 then (x / 0x100) % 256
    else x % 256
  }

  function EncU32(x: nat): (b: seq<Byte>)
    ensures |b| == 4
  {
    seq(4, k requires 0 <= k < 4 => Digit(x, k))
  }

  function EncU64(x: nat): (b: seq<Byte>)
    ensures |b| == 8
  {
    EncU32(x / TWO32) + EncU32(x % TWO32)
  }

  function EncBool(x: bool): (b: seq<Byte>) { [if x then 1 else 0] }

  function Raw(s: string): (b: seq<Byte>)
    ensures |b| == |s|
  {
    seq(|s|, k requires 0 <= k < |s| => s[k] as int % 256)
  }

  function EncString(s: string): (b: seq<Byte>) { EncU32(|s|) + Raw(s) }

  // ------------------------------------------------------------------------- decoding

  /** What is left to read; `ok` turns false, for good, at a read past the end. */
  datatype Reader = Reader(rest: seq<Byte>, ok: bool)

  /** A byte past the end reads as zero. */
  function At(b: seq<Byte>, k: nat): (x: nat) { if k < |b| then b[k] else 0 }

  function Skip(r: Reader, n: nat): (t: Reader) {
    if n <= |r.rest| then r.(rest := r.rest[n..]) else Reader([], false)
  }

  function Number(b: seq<Byte>): (x: nat)
    ensures x < TWO32
  {
    At(b, 0) * 0x100_0000 + At(b, 1) * 0x1_0000 + At(b, 2) * 0x100 + At(b, 3)
  }

  function DecU32(r: Reader): (p: (nat, Reader)) { (Number(r.rest), Skip(r, 4)) }

  function DecU64(r: Reader): (p: (nat, Reader))
    ensures p.0 < TWO64
  {
    var h := DecU32(r);
    var l := DecU32(h.1);
    (h.0 * TWO32 + l.0, l.1)
  }

  function DecBool(r: Reader): (p: (bool, Reader)) {
    (At(r.rest, 0) != 0, Skip(r, 1))
  }

  function Text(b: seq<Byte>): (s: string)
    ensures |s| == |b|
  {
    seq(|b|, k requires 0 <= k < |b| => b[k] as char)
  }

  /** A string that does not fit leaves the variable as it was. */
  function DecString(r: Reader, was: string): (p: (string, Reader)) {
    var n := DecU32(r);
    if !n.1.ok then (was, n.1)
    else if n.0 > |n.1.rest| then (was, n.1.(ok := false))
    else (Text(n.1.rest[..n.0]), n.1.(rest := n.1.rest[n.0..]))
  }

  // ---------------------------------------------------------------------- round trips

  lemma Digits(x: nat)
    requires x < TWO32
    ensures Digit(x, 0) * 0x100_0000 + Digit(x, 1) * 0x1_0000 + Digit(x, 2) * 0x100 + Digit(x, 3) == x
  {
    var y := x / 0x100;
    var z := y / 0x100;
    assert x == 0x100 * y + Digit(x, 3);
    assert x / 0x1_0000 == z && y == 0x100 * z + Digit(x, 2);
    assert x / 0x100_0000 == z / 0x100 && z == 0x100 * (z / 0x100) + Digit(x, 1);
    assert z / 0x100 < 0x100;
  }

  /** Numbers are in network order, the most significant byte first, and a 64-bit number
      is its high word before its low word. */
  lemma NetworkOrder(x: nat)
    ensures x < TWO32 ==> var b := EncU32(x);
      (b[0] as int) * 0x100_0000 + (b[1] as int) * 0x1_0000 + (b[2] as int) * 0x100 + b[3] as int == x
    ensures x < TWO64 ==> EncU64(x)[..4] == EncU32(x / TWO32) && EncU64(x)[4..] == EncU32(x % TWO32)
  {
    if x < TWO32 { Digits(x); }
  }

  /** A string is its length and its bytes. */
  lemma StringLayout(s: string)
    requires Narrow(s)
    ensures var b := EncString(s);
      |b| == 4 + |s| && b[..4] == EncU32(|s|) && forall k :: 0 <= k < |s| ==> b[4 + k] == s[k] as int
  {
  }

  lemma DecU32Of(x: nat, rest: seq<Byte>, ok: bool)
    requires x < TWO32
    ensures DecU32(Reader(EncU32(x) + rest, ok)) == (x, Reader(rest, ok))
  {
    var b := EncU32(x) + rest;
    assert b[0] == Digit(x, 0) && b[1] == Digit(x, 1) && b[2] == Digit(x, 2) && b[3] == Digit(x, 3);
    Digits(x);
    assert b[4..] == rest;
  }

  lemma DecU64Of(x: nat, rest: seq<Byte>, ok: bool)
    requires x < TWO64
    ensures DecU64(Reader(EncU64(x) + rest, ok)) == (x, Reader(rest, ok))
  {
    assert EncU64(x) + rest == EncU32(x / TWO32) + (EncU32(x % TWO32) + rest);
    DecU32Of(x / TWO32, EncU32(x % TWO32) + rest, ok);
    DecU32Of(x % TWO32, rest, ok);
  }

  lemma DecBoolOf(x: bool, rest: seq<Byte>, ok: bool)
    ensures DecBool(Reader(EncBool(x) + rest, ok)) == (x, Reader(rest, ok))
  {
    assert (EncBool(x) + rest)[1..] == rest;
  }

  lemma TextOfRaw(s: string)
    requires Narrow(s)
    ensures Text(Raw(s)) == s
  {
  }

  lemma DecStringFrom(r: Reader, body: seq<Byte>, rest: seq<Byte>, was: string)
    requires DecU32(r) == (|body|, Reader(body + rest, true))
    ensures DecString(r, was) == (Text(body), Reader(rest, true))
  {
    assert (body + rest)[..|body|] == body && (body + rest)[|body|..] == rest;
  }

  lemma DecStringOf(s: string, rest: seq<Byte>, was: string)
    requires Narrow(s) && |s| < TWO32
    ensures DecString(Reader(EncString(s) + rest, true), was) == (s, Reader(rest, true))
  {
    assert EncString(s) + rest == EncU32(|s|) + (Raw(s) + rest);
    DecU32Of(|s|, Raw(s) + rest, true);
    DecStringFrom(Reader(EncString(s) + rest, true), Raw(s), rest, was);
    TextOfRaw(s);
  }

  // --------------------------------------------------------------------- output buffer

  const HEADER := 24
  const DEFAULT_SIZE := 1024

  /** `marshall`: the buffer is replaced by a larger one when it is full. */
  class Output {
    var buf: array<Byte>
    var ind: nat

    ghost predicate Valid()
      reads this, buf
    {
      HEADER <= ind <= buf.Length
    }

    /** What was written, without the space for the header. */
    ghost function Contents(): (c: seq<Byte>)
      reads this, buf
      requires Valid()
    {
      buf[HEADER..ind]
    }

    constructor ()
      ensures Valid() && Contents() == [] && fresh(buf)
    {
      buf := new Byte[DEFAULT_SIZE](_ => 0);
      ind := HEADER;
    }

    /** `realloc`: a larger buffer with the same bytes. */
    method Grow(capacity: nat)
      requires Valid() && capacity >= buf.Length
      modifies this
      ensures Valid() && fresh(buf) && buf.Length == capacity && ind == old(ind)
      ensures Contents() == old(Contents())
    {
      var bigger := new Byte[capacity](_ => 0);
      var k := 0;
      while k < buf.Length
        invariant 0 <= k <= buf.Length && buf == old(buf) && ind == old(ind) && Valid()
        invariant bigger[..k] == buf[..k] && fresh(bigger)
      {
        bigger[k] := buf[k];
        k := k + 1;
      }
      assert bigger[..ind] == buf[..ind];
      assert buf[HEADER..ind] == buf[..ind][HEADER..] == bigger[..ind][HEADER..] == bigger[HEADER..ind];
      buf := bigger;
    }

    method RawByte(x: Byte)
      requires Valid()
      modifies this, buf
      ensures Valid() && (buf == old(buf) || fresh(buf))
      ensures Contents() == old(Contents()) + [x]
    {
      if ind >= buf.Length { Grow(2 * buf.Length); }
      assert ind < buf.Length;
      ghost var before := buf[HEADER..ind];
      buf[ind] := x;
      ind := ind + 1;
      assert buf[HEADER..ind] == before + [x];
    }

    /** Doubling or adding always makes room for all `n` bytes. */
    method RawBytes(p: seq<Byte>)
      requires Valid()
      modifies this, buf
      ensures Valid() && (buf == old(buf) || fresh(buf))
      ensures Contents() == old(Contents()) + p
    {
      var n := |p|;
      if ind + n > buf.Length {
        Grow(if buf.Length > n then 2 * buf.Length else buf.Length + n);
      }
      assert ind + n <= buf.Length;
      ghost var before := buf[HEADER..ind];
      var start := ind;
      var k := 0;
      while k < n
        invariant 0 <= k <= n && ind == start && start + n <= buf.Length && Valid()
        invariant buf == old(buf) || fresh(buf)
        invariant buf[HEADER..start + k] == before + p[..k]
      {
        ghost var done := buf[HEADER..start + k];
        buf[start + k] := p[k];
        k := k + 1;
        assert buf[HEADER..start + k] == done + [p[k - 1]];
        assert p[..k] == p[..k - 1] + [p[k - 1]];
      }
      ind := ind + n;
      assert p[..n] == p;
    }

    method PutU32(x: nat)
      requires Valid()
      modifies this, buf
      ensures Valid() && (buf == old(buf) || fresh(buf))
      ensures Contents() == old(Contents()) + EncU32(x)
    {
      RawByte(Digit(x, 0));
      RawByte(Digit(x, 1));
      RawByte(Digit(x, 2));
      RawByte(Digit(x, 3));
      assert EncU32(x) == [Digit(x, 0), Digit(x, 1), Digit(x, 2), Digit(x, 3)];
    }

    method PutU64(x: nat)
      requires Valid()
      modifies this, buf
      ensures Valid() && (buf == old(buf) || fresh(buf))
      ensures Contents() == old(Contents()) + EncU64(x)
    {
      PutU32(x / TWO32);
      PutU32(x % TWO32);
    }

    method PutBool(x: bool)
      requires Valid()
      modifies this, buf
      ensures Valid() && (buf == old(buf) || fresh(buf))
      ensures Contents() == old(Contents()) + EncBool(x)
    {
      RawByte(if x then 1 else 0);
    }

    method PutString(s: string)
      requires Valid()
      modifies this, buf
      ensures Valid() && (buf == old(buf) || fresh(buf))
      ensures Contents() == old(Contents()) + EncString(s)
    {
      PutU32(|s|);
      RawBytes(Raw(s));
    }
  }

  // ----------------------------------------------------------------------- input cursor

  /** `unmarshall`: a read head over a buffer that stays as it is. */
  class Input {
    const buf: seq<Byte>
    var ind: nat
    var ok: bool

    ghost predicate Valid()
      reads this
    {
      ind <= |buf|
    }

    ghost function State(): (r: Reader)
      reads this
      requires Valid()
    {
      Reader(buf[ind..], ok)
    }

    constructor (content: seq<Byte>)
      ensures Valid() && State() == Reader(content, true)
    {
      buf, ind, ok := content, 0, true;
    }

    method RawByte() returns (x: nat)
      requires Valid()
      modifies this
      ensures Valid() && x == At(old(State()).rest, 0) && x < 256 && State() == Skip(old(State()), 1)
    {
      x := 0;
      if ind >= |buf| {
        ok := false;
      } else {
        x := buf[ind];
        assert buf[ind..][1..] == buf[ind + 1..];
        ind := ind + 1;
      }
    }

    method GetU32() returns (x: nat)
      requires Valid()
      modifies this
      ensures Valid() && (x, State()) == DecU32(old(State()))
    {
      var a := RawByte();
      var b := RawByte();
      var c := RawByte();
      var d := RawByte();
      x := a * 0x100_0000 + b * 0x1_0000 + c * 0x100 + d;
    }

    method GetU64() returns (x: nat)
      requires Valid()
      modifies this
      ensures Valid() && (x, State()) == DecU64(old(State()))
    {
      var h := GetU32();
      var l := GetU32();
      x := h * TWO32 + l;
    }

    method GetBool() returns (x: bool)
      requires Valid()
      modifies this
      ensures Valid() && (x, State()) == DecBool(old(State()))
    {
      var b := RawByte();
      x := b != 0;
    }

    method GetString(was: string) returns (s: string)
      requires Valid()
      modifies this
      ensures Valid() && (s, State()) == DecString(old(State()), was)
    {
      s := was;
      var n := GetU32();
      if ok {
        if ind + n > |buf| {
          ok := false;
        } else {
          s := Text(buf[ind..ind + n]);
          assert buf[ind..][..n] == buf[ind..ind + n] && buf[ind..][n..] == buf[ind + n..];
          ind := ind + n;
        }
      }
    }
  }
}
