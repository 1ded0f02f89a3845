/** The inode bitmap: numbers 1, 2, ... in words of 64, a set bit for a number in use. */
module Inodes {

  import opened Bits
  import Directory

  const WORDS := 16384
  const FULL := 0xffff_ffff_ffff_ffff
  const FILE_BIT := 0x8000_0000

  // ----------------------------------------------------------------- one word

  /** The search has shifted out `pos` set bits; the next `h` bits are not all set. */
  predicate Window(bitMap: nat, w: nat, pos: nat, h: nat) {
    w == Shr(bitMap, pos) && LowOnes(bitMap, pos) && pos + h <= 64 && !LowOnes(w, h)
  }

  /** One step of the search: if the lower half of the window is full, go on in the
      upper half. */
  method Halve(w: nat, pos: nat, h: nat, ghost bitMap: nat) returns (v: nat, at: nat)
    requires Window(bitMap, w, pos, 2 * h)
    ensures Window(bitMap, v, at, h)
  {
    v, at := w, pos;
    LowOnesSplit(w, h, h);
    if LowOnes(w, h) {
      LowOnesSplit(bitMap, pos, h);
      ShrShr(bitMap, pos, h);
      v := Shr(v, h);
      at := at + h;
    }
  }

  /** The lowest clear bit, by halving. */
  method FindZeroBitPos(bitMap: nat) returns (pos: nat)
    requires bitMap < Pow2(64) && bitMap != FULL
    ensures pos < 64 && !Bit(bitMap, pos) && forall j: nat :: j < pos ==> Bit(bitMap, j)
  {
    pos := 0;
    var w := bitMap;
    PowSixtyFour();
    FullWord(bitMap, 64);
    w, pos := Halve(w, pos, 32, bitMap);
    w, pos := Halve(w, pos, 16, bitMap);
    w, pos := Halve(w, pos, 8, bitMap);
    w, pos := Halve(w, pos, 4, bitMap);
    w, pos := Halve(w, pos, 2, bitMap);
    w, pos := Halve(w, pos, 1, bitMap);
    assert !LowOnes(w, 1);
    ShrBit(bitMap, pos, 0);
    LowOnesAre(bitMap, pos);
  }

  lemma PowSixtyFour()
    ensures Pow2(64) == FULL + 1
  {
    assert Pow2(8) == 256;
    assert Pow2(16) == 0x1_0000 by { assert Pow2(12) == 4096; }
    assert Pow2(24) == 0x100_0000 by { assert Pow2(20) == 0x10_0000; }
    assert Pow2(32) == 0x1_0000_0000 by { assert Pow2(28) == 0x1000_0000; }
    assert Pow2(48) == 0x1_0000_0000_0000 by { assert Pow2(40) == 0x100_0000_0000; }
    assert Pow2(56) == 0x100_0000_0000_0000;
  }

  // ---------------------------------------------------------------- the whole map

  predicate BitMap(s: seq<nat>) { |s| == WORDS && forall i :: 0 <= i < |s| ==> s[i] < Pow2(64) }

  /** The set of numbers in use. */
  predicate Live(s: seq<nat>, inum: nat) {
    1 <= inum <= 64 * |s| && Bit(s[(inum - 1) / 64], (inum - 1) % 64)
  }

  /** The numbers in use of `t` are those of `s` and `inum`. */
  ghost predicate Added(s: seq<nat>, t: seq<nat>, inum: nat) {
    forall j: nat :: Live(t, j) <==> j == inum || Live(s, j)
  }

  lemma WordFull(s: seq<nat>, i: nat, inum: nat)
    requires BitMap(s) && i < |s| && s[i] == FULL && 64 * i < inum <= 64 * (i + 1)
    ensures Live(s, inum)
  {
    PowSixtyFour();
    FullWord(s[i], 64);
    LowOnesAre(s[i], 64);
    assert (inum - 1) / 64 == i;
  }

  /** `FindIdelInodeNum`: the least number not in use, 0 if there is none. */
  method FindIdle(a: array<nat>) returns (inum: nat)
    requires BitMap(a[..])
    ensures inum <= 64 * WORDS && (inum > 0 ==> !Live(a[..], inum))
    ensures forall j: nat :: 1 <= j <= 64 * WORDS && (inum == 0 || j < inum) ==> Live(a[..], j)
  {
    ghost var s := a[..];
    var i := 0;
    while i < WORDS
      invariant 0 <= i <= WORDS
      invariant forall j: nat :: 1 <= j <= 64 * i ==> Live(s, j)
    {
      assert s[i] == a[i];
      if a[i] != FULL {
        var pos := FindZeroBitPos(a[i]);
        inum := i * 64 + pos + 1;
        forall j: nat | 1 <= j < inum ensures Live(s, j) {
          if j > 64 * i { assert (j - 1) / 64 == i && Bit(s[i], (j - 1) % 64); }
        }
        return;
      }
      forall j: nat | 1 <= j <= 64 * (i + 1) ensures Live(s, j) {
        if j > 64 * i { WordFull(s, i, j); }
      }
      i := i + 1;
    }
    inum := 0;
  }

  /** The word, as a 32-bit index. */
  function Section(inum: nat): (i: nat)
    requires inum > 0
  {
    Low32((inum - 1) / 64)
  }

  function Low32(x: nat): (y: nat)
    ensures x < 0x1_0000_0000 ==> y == x
  {
    if x < 0x1_0000_0000 then x else x % 0x1_0000_0000
  }

  function Place(inum: nat): (b: nat)
    requires inum > 0
    ensures b < 64
  {
    (inum - 1) % 64
  }

  /** The index lies in the map; beyond it the source touches other memory. */
  predicate Inside(inum: nat) { inum == 0 || Section(inum) < WORDS }

  /** The number whose bit is meant: itself, for every number the map has. */
  function Slot(inum: nat): (j: nat)
    requires inum > 0 && Inside(inum)
    ensures 1 <= j <= 64 * WORDS && Section(j) == Section(inum) && Place(j) == Place(inum)
    ensures inum <= 64 * WORDS ==> j == inum
  {
    64 * Section(inum) + Place(inum) + 1
  }

  lemma SetAdds(s: seq<nat>, inum: nat)
    requires BitMap(s) && 1 <= inum <= 64 * WORDS
    ensures var t := s[Section(inum) := SetBit(s[Section(inum)], Place(inum))];
            BitMap(t) && Added(s, t, inum)
  {
    var i, b := Section(inum), Place(inum);
    var t := s[i := SetBit(s[i], b)];
    WidthKept(s[i], b, 64);
    forall j: nat ensures Live(t, j) <==> j == inum || Live(s, j) {
      if 1 <= j <= 64 * WORDS && Section(j) == i {
        BitOfSet(s[i], b, Place(j));
      }
    }
  }

  lemma ClearRemoves(s: seq<nat>, inum: nat)
    requires BitMap(s) && Live(s, inum)
    ensures var t := s[Section(inum) := ClearBit(s[Section(inum)], Place(inum))];
            BitMap(t) && !Live(t, inum) && Added(t, s, inum)
  {
    var i, b := Section(inum), Place(inum);
    var t := s[i := ClearBit(s[i], b)];
    WidthKept(s[i], b, 64);
    forall j: nat ensures Live(t, j) <==> j != inum && Live(s, j) {
      if 1 <= j <= 64 * WORDS && Section(j) == i {
        BitOfClear(s[i], b, Place(j));
      }
    }
  }

  /** `SetInodeBitMap`; `inside` is false where the source leaves the map. */
  method SetInode(a: array<nat>, inum: nat) returns (ret: int, inside: bool)
    requires BitMap(a[..])
    modifies a
    ensures BitMap(a[..]) && inside == Inside(inum)
    ensures inside ==> ret == if inum == 0 then -1 else if Live(old(a[..]), Slot(inum)) then -2 else 0
    ensures !inside || ret != 0 ==> a[..] == old(a[..])
    ensures inside && ret == 0 ==>
      && Added(old(a[..]), a[..], Slot(inum))
      && a[..] == old(a[..])[Section(inum) := SetBit(old(a[..])[Section(inum)], Place(inum))]
  {
    if inum == 0 { return -1, true; }
    var section, bitPos := Section(inum), Place(inum);
    if section >= WORDS { return -1, false; }
    assert a[..][section] == a[section];
    ghost var slot := Slot(inum);
    if Bit(a[section], bitPos) { return -2, true; }
    SetAdds(a[..], slot);
    ghost var t := a[..][section := SetBit(a[section], bitPos)];
    a[section] := SetBit(a[section], bitPos);
    assert a[..] == t;
    return 0, true;
  }

  /** `UnSetInodeBitMap`; `inside` is false where the source leaves the map. */
  method ClearInode(a: array<nat>, inum: nat) returns (ret: int, inside: bool)
    requires BitMap(a[..])
    modifies a
    ensures BitMap(a[..]) && inside == Inside(inum)
    ensures inside ==> ret == if inum == 0 then -1 else if Live(old(a[..]), Slot(inum)) then 0 else -2
    ensures !inside || ret != 0 ==> a[..] == old(a[..])
    ensures inside && ret == 0 ==>
      && !Live(a[..], Slot(inum)) && Added(a[..], old(a[..]), Slot(inum))
      && a[..] == old(a[..])[Section(inum) := ClearBit(old(a[..])[Section(inum)], Place(inum))]
  {
    if inum == 0 { return -1, true; }
    var section, bitPos := Section(inum), Place(inum);
    if section >= WORDS { return -1, false; }
    assert a[..][section] == a[section];
    ghost var slot := Slot(inum);
    if !Bit(a[section], bitPos) { return -2, true; }
    ClearRemoves(a[..], slot);
    ghost var t := a[..][section := ClearBit(a[section], bitPos)];
    a[section] := ClearBit(a[section], bitPos);
    assert a[..] == t;
    return 0, true;
  }

  // ------------------------------------------------------------------- the allocator

  class Allocator {
    const files: array<nat>
    const dirs: array<nat>

    ghost predicate Valid()
      reads files, dirs
    {
      files != dirs && BitMap(files[..]) && BitMap(dirs[..])
    }

    constructor (files: array<nat>, dirs: array<nat>)
      requires files != dirs && BitMap(files[..]) && BitMap(dirs[..])
      ensures Valid() && this.files == files && this.dirs == dirs
    {
      this.files, this.dirs := files, dirs;
    }

    /** `GetAvailInumNotUse`: the least free number of the kind, marked with the file
        bit for a file; 0 exactly when every number is in use. */
    method GetAvailInum(isFile: bool) returns (inum: nat)
      requires Valid()
      modifies files, dirs
      ensures Valid() && (if isFile then dirs else files)[..] == old((if isFile then dirs else files)[..])
      ensures inum != 0 ==> (Directory.IsFile(inum) <==> isFile)
      ensures var was, now := old((if isFile then files else dirs)[..]), (if isFile then files else dirs)[..];
              var n := if isFile then Unmarked(inum) else inum;
              if inum == 0 then now == was && forall j: nat :: 1 <= j <= 64 * WORDS ==> Live(was, j)
              else 1 <= n <= 64 * WORDS && inum == (if isFile then n + FILE_BIT else n)
                   && !Live(was, n) && (forall j: nat :: 1 <= j < n ==> Live(was, j)) && Added(was, now, n)
                   && now == was[Section(n) := SetBit(was[Section(n)], Place(n))]
    {
      var bits := if isFile then files else dirs;
      var idle := FindIdle(bits);
      if idle > 0 {
        var ret, inside := SetInode(bits, idle);
        if ret == 0 {
          UnmarkedOfMarked(idle);
          return if isFile then idle + FILE_BIT else idle;
        }
      }
      return 0;
    }

    /** The number without the file bit, `inum & ~0x80000000`. */
    static function Unmarked(inum: nat): (n: nat) {
      if (inum / FILE_BIT) % 2 == 1 then inum - FILE_BIT else inum
    }

    /** `RestoreInumNotUse`. */
    method RestoreInum(isFile: bool, inum: nat) returns (ret: int, inside: bool)
      requires Valid()
      modifies files, dirs
      ensures Valid() && (if isFile then dirs else files)[..] == old((if isFile then dirs else files)[..])
      ensures var was, now := old((if isFile then files else dirs)[..]), (if isFile then files else dirs)[..];
              var n := if isFile then Unmarked(inum) else inum;
              && inside == (inum == 0 || inum == FILE_BIT || Inside(n))
              && (!inside || ret != 0 ==> now == was)
              && (inside ==>
                    && ret == (if inum == 0 || inum == FILE_BIT then -3 else if Live(was, Slot(n)) then 0 else -2)
                    && (ret == 0 ==> !Live(now, Slot(n)) && Added(now, was, Slot(n)))
                    && (ret == 0 ==> now == was[Section(n) := ClearBit(was[Section(n)], Place(n))]))
    {
      if inum == 0 || inum == FILE_BIT { return -3, true; }
      var n := if isFile then Unmarked(inum) else inum;
      ret, inside := ClearInode(if isFile then files else dirs, n);
    }
  }

  /** Freeing undoes allocation: the bitmap is the old one word for word. */
  lemma FreeUndoes(s: seq<nat>, n: nat)
    requires BitMap(s) && 1 <= n <= 64 * WORDS && !Live(s, n)
    ensures var t := s[Section(n) := SetBit(s[Section(n)], Place(n))];
            t[Section(n) := ClearBit(t[Section(n)], Place(n))] == s
  {
    ClearOfSet(s[Section(n)], Place(n));
  }

  /** A number that was handed out unmarks to the number in the map. */
  lemma UnmarkedOfMarked(n: nat)
    requires 1 <= n <= 64 * WORDS
    ensures Allocator.Unmarked(n + FILE_BIT) == n && n + FILE_BIT != FILE_BIT
  {
  }
}
