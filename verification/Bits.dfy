/** Bits of unsigned words, one bit at a time from the lowest. */
module Bits {

  /** `(w >> k) & 1`. */
  predicate Bit(w: nat, k: nat)
    decreases k
  {
    if k == 0 then w % 2 == 1 else Bit(w / 2, k - 1)
  }

  /** `w >> h`. */
  function Shr(w: nat, h: nat): (r: nat)
    decreases h
  {
    if h == 0 then w else Shr(w / 2, h - 1)
  }

  /** `(w & mask) == mask` for the mask of the lowest `k` bits. */
  predicate LowOnes(w: nat, k: nat)
    decreases k
  {
    k == 0 || (w % 2 == 1 && LowOnes(w / 2, k - 1))
  }

  /** `w | (1 << k)`. */
  function SetBit(w: nat, k: nat): (r: nat)
    decreases k
  {
    if k == 0 then w / 2 * 2 + 1 else SetBit(w / 2, k - 1) * 2 + w % 2
  }

  /** `w & ~(1 << k)`. */
  function ClearBit(w: nat, k: nat): (r: nat)
    decreases k
  {
    if k == 0 then w / 2 * 2 else ClearBit(w / 2, k - 1) * 2 + w % 2
  }

  function Pow2(k: nat): (p: nat)
    ensures p > 0
  {
    if k == 0 then 1 else 2 * Pow2(k - 1)
  }

  lemma {:induction false} ShrBit(w: nat, h: nat, k: nat)
    ensures Bit(Shr(w, h), k) == Bit(w, h + k)
    decreases h
  {
    if h > 0 { ShrBit(w / 2, h - 1, k); }
  }

  lemma {:induction false} LowOnesGive(w: nat, k: nat, j: nat)
    requires LowOnes(w, k) && j < k
    ensures Bit(w, j)
    decreases k
  {
    if j > 0 { LowOnesGive(w / 2, k - 1, j - 1); }
  }

  lemma {:induction false} SomeZero(w: nat, k: nat) returns (j: nat)
    requires !LowOnes(w, k)
    ensures j < k && !Bit(w, j)
    decreases k
  {
    if w % 2 == 1 {
      j := SomeZero(w / 2, k - 1);
      j := j + 1;
    } else {
      j := 0;
    }
  }

  lemma LowOnesAre(w: nat, k: nat)
    ensures LowOnes(w, k) <==> forall j: nat :: j < k ==> Bit(w, j)
  {
    if LowOnes(w, k) {
      forall j: nat | j < k ensures Bit(w, j) {
        LowOnesGive(w, k, j);
      }
    } else {
      var j := SomeZero(w, k);
    }
  }

  /** Low bits all set, in two parts. */
  lemma {:induction false} LowOnesSplit(w: nat, h: nat, k: nat)
    ensures LowOnes(w, h + k) <==> LowOnes(w, h) && LowOnes(Shr(w, h), k)
    decreases h
  {
    if h > 0 { LowOnesSplit(w / 2, h - 1, k); }
  }

  lemma {:induction false} ShrShr(w: nat, a: nat, b: nat)
    ensures Shr(Shr(w, a), b) == Shr(w, a + b)
    decreases a
  {
    if a > 0 { ShrShr(w / 2, a - 1, b); }
  }

  lemma {:induction false} BitOfSet(w: nat, b: nat, k: nat)
    ensures Bit(SetBit(w, b), k) <==> k == b || Bit(w, k)
    decreases b
  {
    if b > 0 && k > 0 { BitOfSet(w / 2, b - 1, k - 1); }
  }

  lemma {:induction false} BitOfClear(w: nat, b: nat, k: nat)
    ensures Bit(ClearBit(w, b), k) <==> k != b && Bit(w, k)
    decreases b
  {
    if b > 0 && k > 0 { BitOfClear(w / 2, b - 1, k - 1); }
  }

  lemma {:induction false} ClearOfSet(w: nat, b: nat)
    requires !Bit(w, b)
    ensures ClearBit(SetBit(w, b), b) == w
    decreases b
  {
    if b > 0 { ClearOfSet(w / 2, b - 1); }
  }

  /** Words keep their width. */
  lemma {:induction false} WidthKept(w: nat, b: nat, n: nat)
    requires b < n && w < Pow2(n)
    ensures SetBit(w, b) < Pow2(n) && ClearBit(w, b) < Pow2(n)
    decreases b
  {
    if b > 0 { WidthKept(w / 2, b - 1, n - 1); }
  }

  /** The word of all ones is the only full one. */
  lemma {:induction false} FullWord(w: nat, n: nat)
    requires w < Pow2(n)
    ensures LowOnes(w, n) <==> w == Pow2(n) - 1
    decreases n
  {
    if n > 0 { FullWord(w / 2, n - 1); }
  }
}
