/** The client's side of at-most-once RPC: which transaction ids it has seen a
    reply for, reported to the server as one number. */
module RpcClient {

  predicate Sorted(w: seq<nat>) {
    forall j, k :: 0 <= j <= k < |w| ==> w[j] <= w[k]
  }

  /** `f` is the largest number such that every id from 1 to `f` is reported. */
  predicate IsFront(reported: set<nat>, f: nat) {
    f + 1 !in reported && forall x :: 1 <= x <= f ==> x in reported
  }

  /** What the list stands for: its front acknowledges every id up to it, and above
      the front it holds exactly the reported ids (possibly more than once). */
  ghost predicate Represents(w: seq<nat>, reported: set<nat>) {
    && w != [] && Sorted(w) && IsFront(reported, w[0])
    && forall x :: x > w[0] ==> (x in w <==> x in reported)
  }

  /** The front is determined by the set alone. */
  lemma FrontIsUnique(s: set<nat>, f: nat, g: nat)
    requires IsFront(s, f) && IsFront(s, g)
    ensures f == g
  {
  }

  /** Two lists for one set differ at most in repetitions. */
  lemma RepresentsIsCanonical(w: seq<nat>, u: seq<nat>, s: set<nat>)
    requires Represents(w, s) && Represents(u, s)
    ensures w[0] == u[0] && (set x | x in w) == (set x | x in u)
  {
    FrontIsUnique(s, w[0], u[0]);
    forall x
      ensures x in w <==> x in u
    {
      if x in w {
        var k :| 0 <= k < |w| && w[k] == x;
        assert w[0] <= w[k];
        if x == w[0] { assert u[0] in u; }
      }
      if x in u {
        var k :| 0 <= k < |u| && u[k] == x;
        assert u[0] <= u[k];
        if x == u[0] { assert w[0] in w; }
      }
    }
  }

  /** While the list is being compressed: the front may not be maximal yet, but no
      entry before position `i` could be absorbed. */
  ghost predicate Partial(w: seq<nat>, reported: set<nat>, i: nat) {
    && w != [] && Sorted(w) && i <= |w|
    && (forall x :: 1 <= x <= w[0] ==> x in reported)
    && (forall x :: x > w[0] ==> (x in w <==> x in reported))
    && (forall k :: 0 <= k < i ==> w[k] != w[0] + 1)
  }

  lemma PopKeepsPartial(w: seq<nat>, reported: set<nat>, i: nat)
    requires Partial(w, reported, i) && 1 <= i < |w| && w[0] + 1 == w[i]
    ensures Partial(w[1..], reported, i - 1)
  {
    var u := w[1..];
    assert w[0] <= w[1] <= w[i];
    forall x | 1 <= x <= u[0]
      ensures x in reported
    {
      if x > w[0] { assert w[i] in w; }
    }
    forall x | x > u[0]
      ensures x in u <==> x in reported
    {
      if x in w {
        var k :| 0 <= k < |w| && w[k] == x;
        assert u[k - 1] == x;
      }
    }
  }

  class Client {
    var xid: nat
    var window: seq<nat>
    ghost var reported: set<nat>

    ghost predicate Valid()
      reads this
    {
      xid >= 1 && Represents(window, reported)
    }

    constructor ()
      ensures Valid() && xid == 1 && reported == {} && window == [0]
    {
      xid, window, reported := 1, [0], {};
    }

    /** The header of the next call: its id and the acknowledged prefix. */
    method NextCall() returns (x: nat, rep: nat)
      requires Valid()
      modifies this`xid
      ensures Valid() && x == old(xid) && xid == x + 1
      ensures IsFront(reported, rep)
    {
      x := xid;
      xid := xid + 1;
      rep := window[0];
    }

    /** `update_xid_rep`; repeated reports of one id are allowed. */
    method UpdateXidRep(x: nat)
      requires Valid()
      modifies this`window, this`reported
      ensures Valid() && reported == old(reported) + {x}
    {
      reported := reported + {x};
      if x <= window[0] {
        return;
      }
      var j := 0;
      while j < |window| && window[j] <= x
        invariant 0 <= j <= |window|
        invariant forall k :: 0 <= k < j ==> window[k] <= x
      {
        j := j + 1;
      }
      InsertKeepsPartial(window, old(reported), x, j);
      window := window[..j] + [x] + window[j..];
      var i := 1;
      while i < |window|
        invariant 1 <= i <= |window| && Partial(window, reported, i) && reported == old(reported) + {x}
        decreases |window| - i
      {
        ghost var left := |window| - i;
        while window[0] + 1 == window[i]
          invariant 0 <= i < |window| && Partial(window, reported, i) && |window| - i == left
          invariant reported == old(reported) + {x}
          decreases i
        {
          PopKeepsPartial(window, reported, i);
          window := window[1..];
          i := i - 1;
        }
        i := i + 1;
      }
      PartialIsDone(window, reported);
    }
  }

  lemma InsertKeepsPartial(w: seq<nat>, reported: set<nat>, x: nat, j: nat)
    requires Represents(w, reported) && x > w[0] && j <= |w|
    requires forall k :: 0 <= k < j ==> w[k] <= x
    requires j < |w| ==> w[j] > x
    ensures Partial(w[..j] + [x] + w[j..], reported + {x}, 1)
  {
    var u := w[..j] + [x] + w[j..];
    assert j >= 1;
    forall y | y > u[0]
      ensures y in u <==> y in reported + {x}
    {
      if y in w {
        var k :| 0 <= k < |w| && w[k] == y;
        assert u[if k < j then k else k + 1] == y;
      }
      assert u[j] == x;
    }
  }

  lemma PartialIsDone(w: seq<nat>, reported: set<nat>)
    requires Partial(w, reported, |w|)
    ensures Represents(w, reported)
  {
    assert w[0] + 1 !in w;
  }
}
