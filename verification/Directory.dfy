/** Directories: a map from padded names to inode numbers, stored as bytes. */
module Directory {

  import opened FileData

  const NAME_LEN := 1024
  const ITEM_LEN := 1032

  type Dir = map<string, nat>

  /** `str_name.resize(MAX_ITEM_NAME_LEN)`. */
  function Pad(name: string): (p: string)
    ensures |p| == NAME_LEN
  {
    Resized(name, NAME_LEN)
  }

  /** A C string holds no zero. Two of at most 1024 bytes are told apart. */
  lemma PadInjective(a: string, b: string)
    requires '\0' !in a && '\0' !in b && |a| <= NAME_LEN && |b| <= NAME_LEN && Pad(a) == Pad(b)
    ensures a == b
  {
    if |b| < |a| {
      PadTells(a, b);
    } else if |a| < |b| {
      PadTells(b, a);
    } else {
      forall k | 0 <= k < |a| ensures a[k] == b[k] {
        assert Pad(a)[k] == Pad(b)[k];
      }
    }
  }

  lemma PadTells(a: string, b: string)
    requires '\0' !in a && |b| < |a| <= NAME_LEN
    ensures Pad(a) != Pad(b)
  {
    assert a[|b|] in a;
    assert Pad(a)[|b|] != Pad(b)[|b|];
  }

  // --------------------------------------------------------------- machine byte order

  function Pow256(k: nat): (p: nat)
    ensures p > 0
  {
    if k == 0 then 1 else 256 * Pow256(k - 1)
  }

  /** `k` bytes of `x`, least significant first. */
  function ToBytes(x: nat, k: nat): (s: string)
    ensures |s| == k
    decreases k
  {
    if k == 0 then "" else [(x % 256) as char] + ToBytes(x / 256, k - 1)
  }

  function FromBytes(s: string): (x: nat) {
    if s == "" then 0 else s[0] as int + 256 * FromBytes(s[1..])
  }

  lemma {:induction false} FromToBytes(x: nat, k: nat)
    requires x < Pow256(k)
    ensures FromBytes(ToBytes(x, k)) == x
    decreases k
  {
    if k > 0 {
      FromToBytes(x / 256, k - 1);
      assert ToBytes(x, k)[1..] == ToBytes(x / 256, k - 1);
    }
  }

  lemma DivUnique(x: nat, d: nat, m: nat, k: nat)
    requires d > 0 && x == d * m + k && k < d
    ensures x / d == m
  {
    var q, e := x / d, x % d;
    assert d * (m - q) == e - k;
    if q < m { AtLeastOnce(d, m - q); }
    if q > m { AtLeastOnce(d, q - m); }
  }

  lemma AtLeastOnce(d: nat, t: nat)
    requires t >= 1
    ensures d * t >= d
  {
  }

  lemma DivDiv(x: nat, p: nat)
    requires p > 0
    ensures (x / 256) / p == x / (256 * p)
  {
    var q := x / 256;
    var m, n := q / p, q % p;
    assert q == p * m + n;
    assert x == (256 * p) * m + (256 * n + x % 256);
    DivUnique(x, 256 * p, m, 256 * n + x % 256);
  }

  /** The bytes of a number in machine order: byte `j` has the weight 256 to the `j`. */
  lemma {:induction false} ByteOf(x: nat, k: nat, j: nat)
    requires j < k
    ensures ToBytes(x, k)[j] as int == (x / Pow256(j)) % 256
    decreases k
  {
    if j > 0 {
      ByteOf(x / 256, k - 1, j - 1);
      DivDiv(x, Pow256(j - 1));
    }
  }

  // -------------------------------------------------------------------------- reading

  /** The item count is a signed `int`. */
  function Count(data: string): (n: nat)
    requires |data| >= 4
  {
    var n := FromBytes(data[..4]);
    if n < 0x8000_0000 then n else 0
  }

  function NameAt(data: string, k: nat): (s: string)
    requires 4 + ITEM_LEN * (k + 1) <= |data|
  {
    data[4 + ITEM_LEN * k..][..NAME_LEN]
  }

  function InumAt(data: string, k: nat): (x: nat)
    requires 4 + ITEM_LEN * (k + 1) <= |data|
  {
    FromBytes(data[4 + ITEM_LEN * k..][NAME_LEN..ITEM_LEN])
  }

  /** `insert` keeps the binding that is already there. */
  function Insert(d: Dir, name: string, x: nat): (r: Dir) { if name in d then d else d[name := x] }

  function FirstItems(data: string, n: nat): (d: Dir)
    requires 4 + ITEM_LEN * n <= |data|
  {
    if n == 0 then map[] else Insert(FirstItems(data, n - 1), NameAt(data, n - 1), InumAt(data, n - 1))
  }

  /** The count and the items the loop reads lie in the data: up to the count or to the
      end, whichever comes first. Data of four bytes has no items. */
  predicate Whole(data: string) {
    |data| == 4 || (|data| > 4 && (4 + ITEM_LEN * Count(data) <= |data| || (|data| - 4) % ITEM_LEN == 0))
  }

  function ItemsIn(data: string): (n: nat)
    requires Whole(data)
    ensures |data| > 4 ==> 4 + ITEM_LEN * n <= |data|
  {
    if |data| == 4 then 0
    else if 4 + ITEM_LEN * Count(data) <= |data| then Count(data)
    else (|data| - 4) / ITEM_LEN
  }

  /** Data too short for a count has no items either, whatever is read as the count. */
  predicate Readable(data: string) { |data| < 4 || Whole(data) }

  function Parse(data: string): (d: Dir)
    requires Readable(data)
  {
    if |data| <= 4 then map[] else FirstItems(data, ItemsIn(data))
  }

  /** `StringToDirForm`; `inside` is false where the source reads past the data, which it
      does exactly if the data ends inside the count or inside an item that the loop
      reaches. */
  method StringToDirForm(data: string) returns (d: Dir, inside: bool)
    ensures inside == Whole(data)
    ensures Readable(data) ==> d == Parse(data)
  {
    d := map[];
    if |data| < 4 { return map[], false; }
    var count := Count(data);
    var pos, i := 4, 0;
    while i < count && pos < |data|
      invariant 0 <= i <= count && pos == 4 + ITEM_LEN * i && (|data| == 4 ==> i == 0)
      invariant pos <= |data| && d == FirstItems(data, i)
    {
      if pos + ITEM_LEN > |data| {
        EndsInside(data, i);
        return d, false;
      }
      var name := data[pos..][..NAME_LEN];
      var inum := FromBytes(data[pos..][NAME_LEN..ITEM_LEN]);
      d := if name in d then d else d[name := inum];
      pos := pos + ITEM_LEN;
      i := i + 1;
    }
    AllRead(data, i);
    return d, true;
  }

  lemma EndsInside(data: string, i: nat)
    requires |data| > 4 && i < Count(data) && 4 + ITEM_LEN * i < |data| < 4 + ITEM_LEN * (i + 1)
    ensures !Whole(data)
  {
  }

  lemma AllRead(data: string, i: nat)
    requires |data| >= 4 && i <= Count(data) && 4 + ITEM_LEN * i <= |data| && (|data| == 4 ==> i == 0)
    requires i == Count(data) || 4 + ITEM_LEN * i == |data|
    ensures Whole(data) && (|data| > 4 ==> ItemsIn(data) == i)
  {
  }

  // -------------------------------------------------------------------------- writing

  /** A listing of a directory: the order in which its map is iterated. */
  type Listing = seq<(string, nat)>

  predicate Fits(l: Listing) {
    && |l| < 0x8000_0000
    && (forall k :: 0 <= k < |l| ==> |l[k].0| == NAME_LEN && l[k].1 < Pow256(8))
    && (forall j, k :: 0 <= j < k < |l| ==> l[j].0 != l[k].0)
  }

  function DirOf(l: Listing): (d: Dir) {
    if l == [] then map[] else DirOf(l[..|l| - 1])[l[|l| - 1].0 := l[|l| - 1].1]
  }

  function Item(p: (string, nat)): (s: string) { Pad(p.0) + ToBytes(p.1, 8) }

  function Items(l: Listing): (s: string)
    ensures |s| == ITEM_LEN * |l|
  {
    if l == [] then "" else Items(l[..|l| - 1]) + Item(l[|l| - 1])
  }

  function Format(l: Listing): (s: string) { ToBytes(|l|, 4) + Items(l) }

  /** The stored form of `d`, whatever the order of its items. */
  ghost predicate Stores(data: string, d: Dir) {
    exists l: Listing :: Fits(l) && DirOf(l) == d && data == Format(l)
  }

  // ---------------------------------------------------------------------- round trip

  lemma {:induction false} ItemsAt(l: Listing, k: nat)
    requires k < |l|
    ensures Items(l)[ITEM_LEN * k..][..ITEM_LEN] == Item(l[k])
  {
    var n := |l| - 1;
    var front := Items(l[..n]);
    if k == n {
      SliceOfLast(front, Item(l[n]));
    } else {
      ItemsAt(l[..n], k);
      SliceOfFront(front, Item(l[n]), ITEM_LEN * k);
    }
  }

  lemma SliceOfLast(front: string, last: string)
    ensures (front + last)[|front|..][..|last|] == last
  {
  }

  lemma SliceOfFront(front: string, last: string, at: nat)
    requires at + ITEM_LEN <= |front|
    ensures (front + last)[at..][..ITEM_LEN] == front[at..][..ITEM_LEN]
  {
  }

  lemma NameOfItem(data: string, l: Listing, k: nat)
    requires Fits(l) && data == Format(l) && k < |l|
    ensures NameAt(data, k) == l[k].0 && InumAt(data, k) == l[k].1
  {
    ItemsAt(l, k);
    var here := data[4 + ITEM_LEN * k..];
    assert here == Items(l)[ITEM_LEN * k..];
    assert here[..ITEM_LEN] == Item(l[k]);
    assert here[..NAME_LEN] == here[..ITEM_LEN][..NAME_LEN] == Pad(l[k].0);
    assert Pad(l[k].0) == l[k].0;
    assert here[NAME_LEN..ITEM_LEN] == here[..ITEM_LEN][NAME_LEN..] == ToBytes(l[k].1, 8);
    FromToBytes(l[k].1, 8);
  }

  /** Where the stored form of a directory has what: the number of items in four bytes,
      and for each item 1024 bytes of name and eight bytes of number, in machine order. */
  lemma FormatLayout(l: Listing, k: nat, j: nat)
    requires Fits(l) && k < |l| && j < 8
    ensures var data := Format(l);
      var at := 4 + 1032 * k;
      && |data| == 4 + 1032 * |l| && (j < 4 ==> data[j] as int == (|l| / Pow256(j)) % 256)
      && data[at..at + 1024] == l[k].0 && data[at + 1024 + j] as int == (l[k].1 / Pow256(j)) % 256
  {
    var data, at := Format(l), 4 + ITEM_LEN * k;
    ItemsAt(l, k);
    var here := data[at..];
    assert here == Items(l)[ITEM_LEN * k..];
    assert data[at..at + NAME_LEN] == here[..ITEM_LEN][..NAME_LEN] == Pad(l[k].0) == l[k].0;
    assert data[at + NAME_LEN + j] == here[..ITEM_LEN][NAME_LEN + j] == ToBytes(l[k].1, 8)[j];
    ByteOf(l[k].1, 8, j);
    if j < 4 { ByteOf(|l|, 4, j); }
  }

  lemma {:induction false} DirOfKeys(l: Listing, name: string)
    ensures name in DirOf(l) <==> exists k :: 0 <= k < |l| && l[k].0 == name
  {
    if l != [] {
      var n := |l| - 1;
      DirOfKeys(l[..n], name);
      if k :| 0 <= k < |l| && l[k].0 == name {
        assert k < n ==> l[..n][k].0 == name;
      }
    }
  }

  lemma {:induction false} FirstItemsOf(data: string, l: Listing, n: nat)
    requires Fits(l) && data == Format(l) && n <= |l|
    ensures FirstItems(data, n) == DirOf(l[..n])
  {
    if n > 0 {
      FirstItemsOf(data, l, n - 1);
      NameOfItem(data, l, n - 1);
      assert l[..n][..n - 1] == l[..n - 1];
      DirOfKeys(l[..n - 1], l[n - 1].0);
    }
  }

  lemma CountOf(l: Listing)
    requires |l| < 0x8000_0000
    ensures |Format(l)| >= 4 && Count(Format(l)) == |l|
  {
    assert Format(l)[..4] == ToBytes(|l|, 4);
    assert Pow256(4) == 0x1_0000_0000;
    FromToBytes(|l|, 4);
  }

  /** Decoding an encoded directory gives back the map, for every order of its items. */
  lemma ParseOfFormat(l: Listing)
    requires Fits(l)
    ensures Whole(Format(l)) && Parse(Format(l)) == DirOf(l)
  {
    CountOf(l);
    if l != [] {
      FirstItemsOf(Format(l), l, |l|);
    }
    assert l[..|l|] == l;
  }

  lemma ParseOfStored(data: string, d: Dir)
    requires Stores(data, d)
    ensures Whole(data) && Parse(data) == d
  {
    var l: Listing :| Fits(l) && DirOf(l) == d && data == Format(l);
    ParseOfFormat(l);
  }

  /** The stored form determines the directory. */
  lemma StoredUnique(data: string, d: Dir, e: Dir)
    requires Stores(data, d) && Stores(data, e)
    ensures d == e
  {
    ParseOfStored(data, d);
    ParseOfStored(data, e);
  }

  // ------------------------------------------------------------------------ operations

  predicate FitsDir(d: Dir) {
    |d| < 0x8000_0000 && forall name :: name in d ==> |name| == NAME_LEN && d[name] < Pow256(8)
  }

  /** What a directory extent holds: a new one is empty. */
  ghost predicate Holds(data: string, d: Dir) { (data == "" && d == map[]) || Stores(data, d) }

  lemma ParseOfHeld(data: string, d: Dir)
    requires Holds(data, d)
    ensures Readable(data) && Parse(data) == d
  {
    if Stores(data, d) { ParseOfStored(data, d); }
  }

  lemma {:induction false} DirOfSize(l: Listing)
    requires forall j, k :: 0 <= j < k < |l| ==> l[j].0 != l[k].0
    ensures |DirOf(l)| == |l|
  {
    if l != [] {
      var n := |l| - 1;
      DirOfSize(l[..n]);
      DirOfKeys(l[..n], l[n].0);
      assert DirOf(l).Keys == DirOf(l[..n]).Keys + {l[n].0};
    }
  }

  lemma {:induction false} DirOfValues(l: Listing, name: string)
    requires Fits(l) && name in DirOf(l)
    ensures |name| == NAME_LEN && DirOf(l)[name] < Pow256(8)
  {
    var n := |l| - 1;
    if name != l[n].0 { DirOfValues(l[..n], name); }
  }

  lemma HeldFits(data: string, d: Dir)
    requires Holds(data, d)
    ensures FitsDir(d)
  {
    if Stores(data, d) {
      var l: Listing :| Fits(l) && DirOf(l) == d && data == Format(l);
      DirOfSize(l);
      forall name | name in d ensures |name| == NAME_LEN && d[name] < Pow256(8) {
        DirOfValues(l, name);
      }
    }
  }

  ghost predicate Parts(d: Dir, done: Dir, left: Dir) {
    && (forall name :: name in d <==> name in done || name in left)
    && (forall name :: name in done ==> name !in left && done[name] == d[name])
    && (forall name :: name in left ==> left[name] == d[name])
  }

  lemma PartsStep(d: Dir, done: Dir, left: Dir, name: string)
    requires Parts(d, done, left) && name in left
    ensures name in d && name !in done
    ensures Parts(d, done[name := d[name]], left - {name})
    ensures |left - {name}| == |left| - 1
  {
    assert (left - {name}).Keys == left.Keys - {name};
    assert |(left - {name}).Keys| == |left.Keys| - 1;
  }

  /** The listing `l` and the bindings `left` make up `d`. */
  ghost predicate Divided(d: Dir, l: Listing, left: Dir) {
    Fits(l) && |l| + |left| == |d| && Parts(d, DirOf(l), left)
  }

  lemma DividedStep(d: Dir, l: Listing, left: Dir, name: string)
    requires FitsDir(d) && Divided(d, l, left) && name in left
    ensures name in d && Divided(d, l + [(name, d[name])], left - {name})
    ensures Items(l + [(name, d[name])]) == Items(l) + Item((name, d[name]))
    ensures |left - {name}| < |left|
  {
    PartsStep(d, DirOf(l), left, name);
    Extend(l, name, d[name]);
  }

  lemma DividedEnd(d: Dir, l: Listing)
    requires Divided(d, l, map[])
    ensures DirOf(l) == d && |l| == |d|
  {
  }

  lemma Append(a: string, b: string, c: string)
    ensures (a + b) + c == a + (b + c)
  {
  }

  /** `DirFormToString`: the map is gone through in some order. */
  method DirFormToString(d: Dir) returns (data: string)
    requires FitsDir(d)
    ensures Stores(data, d)
  {
    data := ToBytes(|d|, 4);
    var left := d;
    ghost var l: Listing := [];
    while left != map[]
      invariant Divided(d, l, left)
      invariant data == ToBytes(|d|, 4) + Items(l)
      decreases |left|
    {
      var name :| name in left;
      DividedStep(d, l, left, name);
      Append(ToBytes(|d|, 4), Items(l), Item((name, d[name])));
      data := data + Item((name, left[name]));
      l := l + [(name, d[name])];
      left := left - {name};
    }
    DividedEnd(d, l);
  }

  lemma Extend(l: Listing, name: string, x: nat)
    requires Fits(l) && name !in DirOf(l) && |name| == NAME_LEN && x < Pow256(8) && |l| + 1 < 0x8000_0000
    ensures Fits(l + [(name, x)]) && DirOf(l + [(name, x)]) == DirOf(l)[name := x]
    ensures Items(l + [(name, x)]) == Items(l) + Item((name, x))
  {
    var t := l + [(name, x)];
    assert t[..|t| - 1] == l;
    NewName(l, name, x);
  }

  lemma NewName(l: Listing, name: string, x: nat)
    requires Fits(l) && name !in DirOf(l) && |name| == NAME_LEN && x < Pow256(8) && |l| + 1 < 0x8000_0000
    ensures Fits(l + [(name, x)])
  {
    var t := l + [(name, x)];
    AbsentName(l, name);
    forall j, k | 0 <= j < k < |t| ensures t[j].0 != t[k].0 {
      assert t[j] == l[j] && (k < |l| ==> t[k] == l[k]);
    }
    assert forall k :: 0 <= k < |l| ==> t[k] == l[k];
  }

  lemma AbsentName(l: Listing, name: string)
    requires name !in DirOf(l)
    ensures forall k :: 0 <= k < |l| ==> l[k].0 != name
  {
    DirOfKeys(l, name);
  }

  datatype Status = Ok | NoEnt | Exist

  /** The bit that marks the inode number of a file. */
  predicate IsFile(inum: nat) { (inum / 0x8000_0000) % 2 == 1 }

  /** The directory part of `create` and `mkdir`: `inum` is the number the server chose,
      0 if it has none. On success exactly one binding is new; otherwise the stored
      bytes stay. */
  method Create(data: string, name: string, inum: nat, ghost d: Dir) returns (s: Status, after: string)
    requires Holds(data, d) && |d| + 1 < 0x8000_0000 && inum < Pow256(8)
    ensures s == Exist <==> Pad(name) in d
    ensures s == NoEnt <==> Pad(name) !in d && inum == 0
    ensures s == Ok ==> Holds(after, d[Pad(name) := inum])
    ensures s != Ok ==> after == data
  {
    ParseOfHeld(data, d);
    HeldFits(data, d);
    after := data;
    var block, inside := StringToDirForm(data);
    if Pad(name) in block { return Exist, data; }
    if inum == 0 { return NoEnt, data; }
    block := block[Pad(name) := inum];
    after := DirFormToString(block);
    s := Ok;
  }

  /** The directory part of `unlink`: a name that is missing or not a file is refused. */
  method Unlink(data: string, name: string, ghost d: Dir) returns (s: Status, after: string)
    requires Holds(data, d)
    ensures s == Ok <==> Pad(name) in d && IsFile(d[Pad(name)])
    ensures s == Ok ==> Holds(after, d - {Pad(name)})
    ensures s != Ok ==> s == NoEnt && after == data
  {
    ParseOfHeld(data, d);
    HeldFits(data, d);
    var block, inside := StringToDirForm(data);
    if Pad(name) !in block { return NoEnt, data; }
    if !IsFile(block[Pad(name)]) { return NoEnt, data; }
    assert (block - {Pad(name)}).Keys == block.Keys - {Pad(name)};
    block := block - {Pad(name)};
    after := DirFormToString(block);
    s := Ok;
  }

  /** `lookup`. */
  method Lookup(data: string, name: string, ghost d: Dir) returns (found: bool, inum: nat)
    requires Holds(data, d)
    ensures found <==> Pad(name) in d
    ensures found ==> inum == d[Pad(name)]
  {
    ParseOfHeld(data, d);
    var block, inside := StringToDirForm(data);
    found := Pad(name) in block;
    inum := if found then block[Pad(name)] else 0;
  }
}
