/** File contents: reading and writing ranges, and resizing. */
module FileData {

  /** `read`: what of the range lies in the file. */
  function ReadRange(data: string, off: nat, size: nat): (buf: string) {
    if off >= |data| then ""
    else if off + size > |data| then data[off..]
    else data[off..off + size]
  }

  /** The byte at `k`, which is zero between the old end and the written range. */
  function ByteAt(data: string, k: nat): (c: char) { if k < |data| then data[k] else '\0' }

  function Max(a: nat, b: nat): (m: nat) { if a < b then b else a }

  /** Byte by byte: the file after `buf` was written at `off`. */
  function Spliced(data: string, off: nat, buf: string): (r: string)
    ensures |r| == Max(|data|, off + |buf|)
  {
    seq(Max(|data|, off + |buf|), k requires k >= 0 =>
      if off <= k < off + |buf| then buf[k - off] else ByteAt(data, k))
  }

  /** `std::string::resize`. */
  function Resized(data: string, n: nat): (r: string)
    ensures |r| == n
  {
    seq(n, k requires 0 <= k < n => ByteAt(data, k))
  }

  /** `write`. A write of no bytes past the end still extends the file with zeros. */
  method Write(old_data: string, off: nat, buf: string) returns (written: string)
    ensures written == Spliced(old_data, off, buf)
  {
    var data := old_data;
    if off > |data| {
      data := Resized(data, off);
    }
    written := data[..off];
    if off + |buf| > |data| {
      written := written + buf;
    } else {
      written := written + buf;
      written := written + data[off + |buf|..];
    }
  }

  /** A read of any range after a write: each byte comes from the written range where
      the two overlap and from the old file, or the zero gap, elsewhere. */
  lemma ReadAfterWrite(data: string, off: nat, buf: string, at: nat, size: nat, k: nat)
    requires k < |ReadRange(Spliced(data, off, buf), at, size)|
    ensures ReadRange(Spliced(data, off, buf), at, size)[k]
         == if off <= at + k < off + |buf| then buf[at + k - off] else ByteAt(data, at + k)
  {
  }

  /** How much a read returns. */
  lemma ReadLength(data: string, at: nat, size: nat)
    ensures |ReadRange(data, at, size)| == if at >= |data| then 0 else if at + size > |data| then |data| - at else size
  {
  }

  /** What was written is read back whole, even past the old end. */
  lemma ReadBack(data: string, off: nat, buf: string)
    ensures ReadRange(Spliced(data, off, buf), off, |buf|) == buf
  {
    ReadLength(Spliced(data, off, buf), off, |buf|);
    forall k | 0 <= k < |buf| ensures ReadRange(Spliced(data, off, buf), off, |buf|)[k] == buf[k] {
      ReadAfterWrite(data, off, buf, off, |buf|, k);
    }
  }

  /** A range of the old file apart from the written one reads as before. */
  lemma ReadApart(data: string, off: nat, buf: string, at: nat, size: nat)
    requires at + size <= |data| && (at + size <= off || off + |buf| <= at)
    ensures ReadRange(Spliced(data, off, buf), at, size) == ReadRange(data, at, size)
  {
    ReadLength(Spliced(data, off, buf), at, size);
    forall k | 0 <= k < |ReadRange(data, at, size)|
      ensures k < |ReadRange(Spliced(data, off, buf), at, size)|
      ensures ReadRange(Spliced(data, off, buf), at, size)[k] == ReadRange(data, at, size)[k]
    {
      ReadAfterWrite(data, off, buf, at, size, k);
    }
  }

  /** Writing in two pieces is writing at once. */
  lemma WritesJoin(data: string, off: nat, a: string, b: string)
    ensures Spliced(Spliced(data, off, a), off + |a|, b) == Spliced(data, off, a + b)
  {
    var l, r := Spliced(Spliced(data, off, a), off + |a|, b), Spliced(data, off, a + b);
    assert |l| == |r|;
    forall k | 0 <= k < |l| ensures l[k] == r[k] {
    }
  }

  /** Writes to ranges apart from each other may come in either order. */
  lemma WritesCommute(data: string, off: nat, a: string, at: nat, b: string)
    requires off + |a| <= at
    ensures Spliced(Spliced(data, off, a), at, b) == Spliced(Spliced(data, at, b), off, a)
  {
    var l, r := Spliced(Spliced(data, off, a), at, b), Spliced(Spliced(data, at, b), off, a);
    assert |l| == |r|;
    forall k | 0 <= k < |l| ensures l[k] == r[k] {
    }
  }
}
