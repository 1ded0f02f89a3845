/** Proposal numbers of Paxos and their order. */
module Proposals {
  import opened Views

  /** The order of `std::string`: by the first differing character, a proper
      prefix first. */
  predicate NameLess(a: Node, b: Node) {
    b != "" && (a == "" || a[0] < b[0] || (a[0] == b[0] && NameLess(a[1..], b[1..])))
  }

  /** A number with the name of the node that made it. */
  datatype Prop = Prop(n: nat, m: Node)

  predicate Gt(a: Prop, b: Prop) {
    a.n > b.n || (a.n == b.n && NameLess(b.m, a.m))
  }

  predicate Ge(a: Prop, b: Prop) {
    a.n > b.n || (a.n == b.n && !NameLess(a.m, b.m))
  }

  lemma {:induction false} NameLessTrans(a: Node, b: Node, c: Node)
    requires NameLess(a, b) && NameLess(b, c)
    ensures NameLess(a, c)
  {
    if a != "" && a[0] == b[0] && b[0] == c[0] {
      NameLessTrans(a[1..], b[1..], c[1..]);
    }
  }

  lemma {:induction false} NameLessTotal(a: Node, b: Node)
    ensures !(NameLess(a, b) && NameLess(b, a))
    ensures NameLess(a, b) || NameLess(b, a) || a == b
    ensures !NameLess(a, a)
  {
    if a != "" && b != "" && a[0] == b[0] {
      NameLessTotal(a[1..], b[1..]);
      assert a == [a[0]] + a[1..] && b == [b[0]] + b[1..];
    }
    NameLessIrreflexive(a);
  }

  lemma {:induction false} NameLessIrreflexive(a: Node)
    ensures !NameLess(a, a)
  {
    if a != "" { NameLessIrreflexive(a[1..]); }
  }

  /** `a` and `b` agree on their first `k` characters, and there `a` ends or has the
      smaller character. */
  predicate LessAt(a: Node, b: Node, k: nat) {
    && k <= |a| && k < |b| && a[..k] == b[..k]
    && (k == |a| || a[k] < b[k])
  }

  lemma {:induction false} NameLessAt(a: Node, b: Node) returns (k: nat)
    requires NameLess(a, b)
    ensures LessAt(a, b, k)
  {
    if a == "" || a[0] < b[0] {
      k := 0;
    } else {
      var j := NameLessAt(a[1..], b[1..]);
      k := j + 1;
      assert a[..k] == [a[0]] + a[1..][..j] && b[..k] == [b[0]] + b[1..][..j];
    }
  }

  lemma {:induction false} LessAtIsLess(a: Node, b: Node, k: nat)
    requires LessAt(a, b, k)
    ensures NameLess(a, b)
    decreases k
  {
    if k > 0 {
      assert a[0] == a[..k][0] == b[..k][0] == b[0];
      assert a[1..][..k - 1] == a[..k][1..] && b[1..][..k - 1] == b[..k][1..];
      LessAtIsLess(a[1..], b[1..], k - 1);
    }
  }

  /** Names are ordered by the first character in which they differ, a proper prefix
      first. */
  lemma NameOrderExact(a: Node, b: Node)
    ensures NameLess(a, b) <==> exists k: nat :: LessAt(a, b, k)
  {
    if NameLess(a, b) { var k := NameLessAt(a, b); }
    if exists k: nat :: LessAt(a, b, k) {
      var k: nat :| LessAt(a, b, k);
      LessAtIsLess(a, b, k);
    }
  }

  /** A proposal number is above another by its number, or with equal numbers by the
      first character in which the names differ. */
  lemma NumberOrderExact(a: Prop, b: Prop)
    ensures Gt(a, b) <==> a.n > b.n || (a.n == b.n && exists k: nat :: LessAt(b.m, a.m, k))
    ensures Ge(a, b) <==> a.n > b.n || (a.n == b.n && (a.m == b.m || exists k: nat :: LessAt(b.m, a.m, k)))
  {
    NameOrderExact(b.m, a.m);
    NameLessTotal(a.m, b.m);
  }

  /** Any two proposal numbers are comparable, and `>=` is `>` or equality. */
  lemma GeIsGtOrEqual(a: Prop, b: Prop)
    ensures Ge(a, b) <==> Gt(a, b) || a == b
    ensures Ge(a, b) <==> !Gt(b, a)
  {
    NameLessTotal(a.m, b.m);
  }

  lemma GtTrans(a: Prop, b: Prop, c: Prop)
    ensures Ge(a, b) && Ge(b, c) ==> Ge(a, c)
    ensures Gt(a, b) && Ge(b, c) ==> Gt(a, c)
    ensures Ge(a, b) && Gt(b, c) ==> Gt(a, c)
  {
    NameLessTotal(a.m, b.m);
    NameLessTotal(b.m, c.m);
    NameLessTotal(a.m, c.m);
    if NameLess(a.m, b.m) && NameLess(b.m, c.m) { NameLessTrans(a.m, b.m, c.m); }
    if NameLess(c.m, b.m) && NameLess(b.m, a.m) { NameLessTrans(c.m, b.m, a.m); }
    if NameLess(a.m, c.m) && NameLess(c.m, b.m) { NameLessTrans(a.m, c.m, b.m); }
    if NameLess(b.m, a.m) && NameLess(a.m, c.m) { NameLessTrans(b.m, a.m, c.m); }
  }

  /** The laws of the order, for all numbers at once. */
  lemma OrderLaws()
    ensures forall a, b :: Ge(a, b) <==> Gt(a, b) || a == b
    ensures forall a, b :: Ge(a, b) <==> !Gt(b, a)
    ensures forall a, b, c :: Ge(a, b) && Ge(b, c) ==> Ge(a, c)
    ensures forall a, b, c :: Gt(a, b) && Ge(b, c) ==> Gt(a, c)
    ensures forall a, b, c :: Ge(a, b) && Gt(b, c) ==> Gt(a, c)
  {
    forall a, b
      ensures Ge(a, b) <==> Gt(a, b) || a == b
      ensures Ge(a, b) <==> !Gt(b, a)
    { GeIsGtOrEqual(a, b); }
    forall a, b, c
      ensures Ge(a, b) && Ge(b, c) ==> Ge(a, c)
      ensures Gt(a, b) && Ge(b, c) ==> Gt(a, c)
      ensures Ge(a, b) && Gt(b, c) ==> Gt(a, c)
    { GtTrans(a, b, c); }
  }
}
