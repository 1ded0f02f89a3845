/** The view values that Paxos agrees on: a view is a list of node names, written
    with a blank after each name. */
module Views {
  import opened TextStream

  type Node = string

  // ------------------------------------------------------------ text of a view

  /** Every token of the text, in order. */
  function Members(value: string): (view: seq<Node>)
    decreases |value|
  {
    var r := ReadToken(value);
    if r.0 == "" then [] else [r.0] + Members(r.1)
  }

  /** Each name followed by a blank. */
  function Value(view: seq<Node>): (text: string) {
    if view == [] then "" else view[0] + " " + Value(view[1..])
  }

  predicate ProperNames(view: seq<Node>) {
    forall k :: 0 <= k < |view| ==> IsToken(view[k])
  }

  lemma {:induction false} MembersProper(value: string)
    ensures ProperNames(Members(value))
    decreases |value|
  {
    var r := ReadToken(value);
    if r.0 != "" {
      ReadTokenClean(value);
      MembersProper(r.1);
    }
  }

  lemma {:induction false} MembersSkipBlank(value: string)
    ensures Members(" " + value) == Members(value)
  {
    ReadPastBlank(value);
  }

  lemma {:induction false} MembersOfProper(view: seq<Node>)
    requires ProperNames(view)
    ensures Members(Value(view)) == view
  {
    if view != [] {
      var rest := Value(view[1..]);
      assert Value(view) == view[0] + (" " + rest);
      MembersOfFirst(view[0], rest);
      MembersOfProper(view[1..]);
      assert [view[0]] + view[1..] == view;
    }
  }

  lemma MembersOfFirst(name: Node, rest: string)
    requires IsToken(name)
    ensures Members(name + (" " + rest)) == [name] + Members(rest)
  {
    ReadTokenOf(name, " " + rest);
    MembersSkipBlank(rest);
  }

  /** A view survives being written and read back exactly when its names are
      non-empty and free of blanks. */
  lemma MembersOfValue(view: seq<Node>)
    ensures Members(Value(view)) == view <==> ProperNames(view)
  {
    if ProperNames(view) {
      MembersOfProper(view);
    } else if Members(Value(view)) == view {
      MembersProper(Value(view));
    }
  }

  lemma ValueEmpty(view: seq<Node>)
    ensures Value(view) == "" <==> view == []
  {
  }

  // --------------------------------------------------------- the loops of config

  method ReadMembers(value: string) returns (view: seq<Node>)
    ensures view == Members(value)
  {
    view := [];
    var r := ReadToken(value);
    while r.0 != ""
      invariant Members(value) == view + (if r.0 == "" then [] else [r.0] + Members(r.1))
      decreases |r.0| + |r.1|
    {
      view := view + [r.0];
      r := ReadToken(r.1);
    }
  }

  lemma {:induction false} ValueAppend(view: seq<Node>, m: Node)
    ensures Value(view + [m]) == Value(view) + m + " "
  {
    if view == [] {
      assert Value([m]) == m + " " + Value([]);
    } else {
      assert (view + [m])[1..] == view[1..] + [m];
      ValueAppend(view[1..], m);
    }
  }

  method WriteValue(view: seq<Node>) returns (text: string)
    ensures text == Value(view)
    ensures ProperNames(view) <==> Members(text) == view
  {
    text := "";
    for i := 0 to |view|
      invariant text == Value(view[..i])
    {
      assert view[..i + 1] == view[..i] + [view[i]];
      ValueAppend(view[..i], view[i]);
      text := text + view[i] + " ";
    }
    assert view[..|view|] == view;
    MembersOfValue(view);
  }

  // -------------------------------------------------------- membership changes

  /** Positions of a list of `n`, in increasing order. */
  predicate Picks(at: seq<nat>, n: nat) {
    && (forall j :: 0 <= j < |at| ==> at[j] < n)
    && forall i, j :: 0 <= i < j < |at| ==> at[i] < at[j]
  }

  lemma PicksNext(at: seq<nat>, n: nat)
    requires Picks(at, n)
    ensures Picks(at + [n], n + 1) && n !in at
    ensures forall k :: k in at + [n] <==> k in at || k == n
  {
  }

  datatype Change = Add(m: Node) | Remove(m: Node)

  function Without(view: seq<Node>, m: Node): (r: seq<Node>)
    ensures forall x :: x in r <==> x in view && x != m
  {
    if view == [] then []
    else if view[0] != m then [view[0]] + Without(view[1..], m)
    else Without(view[1..], m)
  }

  lemma {:induction false} WithoutLast(view: seq<Node>, m: Node)
    requires view != []
    ensures var n := |view| - 1;
      Without(view, m) == if view[n] == m then Without(view[..n], m) else Without(view[..n], m) + [view[n]]
  {
    if |view| > 1 {
      WithoutLast(view[1..], m);
      assert view[..|view| - 1][1..] == view[1..][..|view| - 2];
    }
  }

  /** What is left of a view are the other members, in their order. */
  lemma {:induction false} WithoutKeepsOrder(view: seq<Node>, m: Node) returns (at: seq<nat>)
    ensures Picks(at, |view|) && |at| == |Without(view, m)|
    ensures forall j :: 0 <= j < |at| ==> Without(view, m)[j] == view[at[j]]
    ensures forall k :: 0 <= k < |view| ==> (k in at <==> view[k] != m)
  {
    at := [];
    if view != [] {
      var n := |view| - 1;
      at := WithoutKeepsOrder(view[..n], m);
      WithoutLast(view, m);
      assert forall k :: 0 <= k < n ==> view[..n][k] == view[k];
      if view[n] != m {
        PicksNext(at, n);
        at := at + [n];
      }
    }
  }

  function Changed(view: seq<Node>, c: Change): (r: seq<Node>) {
    match c
    case Add(m) => view + [m]
    case Remove(m) => Without(view, m)
  }

  /** The removal loop of `config::remove_wo`. */
  method RemoveMember(view: seq<Node>, m: Node) returns (r: seq<Node>)
    ensures r == Without(view, m)
    ensures m !in r
  {
    r := [];
    for i := 0 to |view|
      invariant r + Without(view[i..], m) == Without(view, m)
    {
      assert view[i..][1..] == view[i + 1..];
      if view[i] != m { r := r + [view[i]]; }
    }
  }

  predicate Share(a: seq<Node>, b: seq<Node>) {
    exists x :: x in a && x in b
  }

  /** What a change of a non-empty view keeps: proper names stay proper, and if
      the result is not empty it has a member in common with the old view. */
  lemma ChangedShares(view: seq<Node>, c: Change)
    requires view != [] && ProperNames(view)
    requires c.Add? ==> IsToken(c.m)
    ensures ProperNames(Changed(view, c))
    ensures Share(view, Changed(view, c)) <==> Changed(view, c) != []
  {
    var r := Changed(view, c);
    forall k | 0 <= k < |r|
      ensures IsToken(r[k])
    {
      assert r[k] in r;
      if r[k] in view {
        var j :| 0 <= j < |view| && view[j] == r[k];
      }
    }
    if r != [] {
      if c.Add? {
        assert view[0] in view && view[0] in r;
      } else {
        assert r[0] in r && r[0] in view;
      }
    }
  }
}
