/** Majorities of a list of nodes, in which a node may be listed more than once. */
module Quorum {
  import opened Views

  function Elements(l: seq<Node>): (s: set<Node>)
    ensures forall x :: x in s <==> x in l
  {
    set x | x in l
  }

  /** How many places of the list hold a node of the set. */
  function CountIn(l: seq<Node>, s: set<Node>): (n: nat)
    ensures n <= |l|
  {
    if l == [] then 0 else (if l[0] in s then 1 else 0) + CountIn(l[1..], s)
  }

  predicate IsMajority(l: seq<Node>, s: set<Node>) {
    CountIn(l, s) >= |l| / 2 + 1
  }

  method IsAMember(m: Node, nodes: seq<Node>) returns (r: bool)
    ensures r <==> m in nodes
  {
    for i := 0 to |nodes|
      invariant m !in nodes[..i]
    {
      if nodes[i] == m { return true; }
    }
    return false;
  }

  /** The counting loop of `proposer::majority`. */
  method Majority(l1: seq<Node>, l2: seq<Node>) returns (r: bool)
    ensures r <==> IsMajority(l1, Elements(l2))
  {
    var n := 0;
    for i := 0 to |l1|
      invariant n + CountIn(l1[i..], Elements(l2)) == CountIn(l1, Elements(l2))
    {
      assert l1[i..][1..] == l1[i + 1..];
      var listed := IsAMember(l1[i], l2);
      if listed { n := n + 1; }
    }
    return n >= |l1| / 2 + 1;
  }

  lemma {:induction false} CountsOverlap(l: seq<Node>, s: set<Node>, t: set<Node>)
    requires forall k :: 0 <= k < |l| ==> !(l[k] in s && l[k] in t)
    ensures CountIn(l, s) + CountIn(l, t) <= |l|
  {
    if l != [] {
      assert !(l[0] in s && l[0] in t);
      forall k | 0 <= k < |l[1..]|
        ensures !(l[1..][k] in s && l[1..][k] in t)
      {
        assert l[1..][k] == l[k + 1];
      }
      CountsOverlap(l[1..], s, t);
    }
  }

  /** The places of the list that hold a node of the set. */
  function Places(l: seq<Node>, s: set<Node>): (r: set<nat>) {
    set k | 0 <= k < |l| && l[k] in s
  }

  lemma {:induction false} CountIsPlaces(l: seq<Node>, s: set<Node>)
    ensures CountIn(l, s) == |Places(l, s)|
  {
    if l != [] {
      var n := |l| - 1;
      CountLast(l, s);
      CountIsPlaces(l[..n], s);
      var front := Places(l[..n], s);
      assert Places(l, s) == if l[n] in s then front + {n} else front;
    }
  }

  lemma {:induction false} CountLast(l: seq<Node>, s: set<Node>)
    requires l != []
    ensures CountIn(l, s) == CountIn(l[..|l| - 1], s) + if l[|l| - 1] in s then 1 else 0
  {
    if |l| > 1 {
      CountLast(l[1..], s);
      assert l[..|l| - 1][1..] == l[1..][..|l| - 2];
    }
  }

  /** Exactly when a list of answers is a majority: more than half of the places of the
      list hold a node that answered. */
  lemma MajorityExact(l: seq<Node>, s: set<Node>)
    ensures IsMajority(l, s) <==> 2 * |Places(l, s)| > |l|
  {
    CountIsPlaces(l, s);
  }

  /** Any two majorities of one list have a listed node in common. */
  lemma MajoritiesMeet(l: seq<Node>, s: set<Node>, t: set<Node>)
    requires IsMajority(l, s) && IsMajority(l, t)
    ensures exists x :: x in l && x in s && x in t
  {
    if forall k :: 0 <= k < |l| ==> !(l[k] in s && l[k] in t) {
      CountsOverlap(l, s, t);
      assert false;
    }
    var k :| 0 <= k < |l| && l[k] in s && l[k] in t;
    assert l[k] in l;
  }

  lemma {:induction false} CountMonotone(l: seq<Node>, s: set<Node>, t: set<Node>)
    requires s <= t
    ensures CountIn(l, s) <= CountIn(l, t)
  {
    if l != [] { CountMonotone(l[1..], s, t); }
  }
}
