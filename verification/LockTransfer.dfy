/** The state transfer of the lock server: what `marshal_state` writes on one replica,
    `unmarshal_state` turns into the same locks on another. */
module LockTransfer {

  import opened Marshall
  import opened LockServer

  /** One lock as the iteration over `map_lock_` meets it; the map of ids is given in
      the order in which its own iteration lists it. */
  datatype Entry = Entry(
    key: nat,
    locked: bool,
    lid: nat,
    user: Client,
    info: seq<(Client, nat)>,
    retryQ: seq<Client>,
    revokeQ: seq<Client>)

  /** The ids a listing stands for. */
  function InfoOf(l: seq<(Client, nat)>): (m: map<Client, nat>) {
    if l == [] then map[] else InfoOf(l[..|l| - 1])[l[|l| - 1].0 := l[|l| - 1].1]
  }

  function AsItem(e: Entry): (i: Item) {
    Item(e.locked, e.user, e.lid, InfoOf(e.info), e.retryQ, e.revokeQ)
  }

  /** The locks a listing stands for. */
  function LocksOf(l: seq<Entry>): (m: map<nat, Item>) {
    if l == [] then map[] else LocksOf(l[..|l| - 1])[l[|l| - 1].key := AsItem(l[|l| - 1])]
  }

  // --------------------------------------------------------------- what fits the format

  predicate FitsText(s: string) { Narrow(s) && |s| < TWO32 }

  predicate FitsQueue(q: seq<Client>) {
    |q| < TWO32 && forall k :: 0 <= k < |q| ==> FitsText(q[k])
  }

  predicate FitsInfo(l: seq<(Client, nat)>) {
    |l| < TWO32 && forall k :: 0 <= k < |l| ==> FitsText(l[k].0) && l[k].1 < TWO64
  }

  predicate Fits(e: Entry) {
    && e.key < TWO64 && e.lid < TWO64 && FitsText(e.user)
    && FitsInfo(e.info) && FitsQueue(e.retryQ) && FitsQueue(e.revokeQ)
  }

  predicate FitsAll(l: seq<Entry>) {
    |l| < TWO32 && forall k :: 0 <= k < |l| ==> Fits(l[k])
  }

  // --------------------------------------------------------------------------- writing

  function EncPair(p: (Client, nat)): (b: seq<Byte>) { EncString(p.0) + EncU64(p.1) }

  function EncPairs(l: seq<(Client, nat)>): (b: seq<Byte>) {
    if l == [] then [] else EncPairs(l[..|l| - 1]) + EncPair(l[|l| - 1])
  }

  function EncTexts(q: seq<Client>): (b: seq<Byte>) {
    if q == [] then [] else EncTexts(q[..|q| - 1]) + EncString(q[|q| - 1])
  }

  function EncHead(e: Entry): (b: seq<Byte>) {
    EncU64(e.key) + (EncBool(e.locked) + (EncU64(e.lid) + EncString(e.user)))
  }

  function EncTail(e: Entry): (b: seq<Byte>) {
    (EncU32(|e.info|) + EncPairs(e.info))
    + ((EncU32(|e.retryQ|) + EncTexts(e.retryQ)) + (EncU32(|e.revokeQ|) + EncTexts(e.revokeQ)))
  }

  function EncEntry(e: Entry): (b: seq<Byte>) { EncHead(e) + EncTail(e) }

  function EncEntries(l: seq<Entry>): (b: seq<Byte>) {
    if l == [] then [] else EncEntries(l[..|l| - 1]) + EncEntry(l[|l| - 1])
  }

  function EncState(l: seq<Entry>): (b: seq<Byte>) { EncU32(|l|) + EncEntries(l) }

  // --------------------------------------------------------------------------- reading

  function DecPairs(n: nat, r: Reader): (p: (map<Client, nat>, Reader)) {
    if n == 0 then (map[], r)
    else
      var m := DecPairs(n - 1, r);
      var key := DecString(m.1, "");
      var value := DecU64(key.1);
      (m.0[key.0 := value.0], value.1)
  }

  function DecTexts(n: nat, r: Reader): (p: (seq<Client>, Reader)) {
    if n == 0 then ([], r)
    else
      var q := DecTexts(n - 1, r);
      var s := DecString(q.1, "");
      (q.0 + [s.0], s.1)
  }

  function DecInfo(r: Reader): (p: (map<Client, nat>, Reader)) {
    var n := DecU32(r);
    DecPairs(n.0, n.1)
  }

  function DecQueue(r: Reader): (p: (seq<Client>, Reader)) {
    var n := DecU32(r);
    DecTexts(n.0, n.1)
  }

  /** The item of a key that was read before is overwritten; its user survives a
      string that does not fit. */
  function DecItem(r: Reader, was: Item): (p: (Item, Reader)) {
    var locked := DecBool(r);
    var lid := DecU64(locked.1);
    var user := DecString(lid.1, was.user);
    var info := DecInfo(user.1);
    var retryQ := DecQueue(info.1);
    var revokeQ := DecQueue(retryQ.1);
    (Item(locked.0, user.0, lid.0, info.0, retryQ.0, revokeQ.0), revokeQ.1)
  }

  function ItemAt(m: map<nat, Item>, key: nat): (i: Item) { if key in m then m[key] else NEW_ITEM }

  function DecEntry(m: map<nat, Item>, r: Reader): (p: (map<nat, Item>, Reader)) {
    var key := DecU64(r);
    var item := DecItem(key.1, ItemAt(m, key.0));
    (m[key.0 := item.0], item.1)
  }

  function DecItems(n: nat, r: Reader): (p: (map<nat, Item>, Reader)) {
    if n == 0 then (map[], r)
    else
      var m := DecItems(n - 1, r);
      DecEntry(m.0, m.1)
  }

  function DecState(r: Reader): (p: (map<nat, Item>, Reader)) {
    var n := DecU32(r);
    DecItems(n.0, n.1)
  }

  // ---------------------------------------------------------------------- round trips

  lemma Assoc(a: seq<Byte>, b: seq<Byte>, c: seq<Byte>)
    ensures (a + b) + c == a + (b + c)
  {
  }

  lemma {:induction false} DecPairsOf(l: seq<(Client, nat)>, rest: seq<Byte>)
    requires FitsInfo(l)
    ensures DecPairs(|l|, Reader(EncPairs(l) + rest, true)) == (InfoOf(l), Reader(rest, true))
  {
    if l == [] {
      assert EncPairs(l) + rest == rest;
    } else {
      var n := |l| - 1;
      var key, value := EncString(l[n].0), EncU64(l[n].1);
      assert EncPairs(l) + rest == EncPairs(l[..n]) + (key + (value + rest));
      DecPairsOf(l[..n], key + (value + rest));
      DecStringOf(l[n].0, value + rest, "");
      DecU64Of(l[n].1, rest, true);
    }
  }

  lemma MoreTexts(n: nat, r: Reader, q: seq<Client>, t: Reader)
    requires DecTexts(n, r) == (q, t)
    ensures DecTexts(n + 1, r) == (q + [DecString(t, "").0], DecString(t, "").1)
  {
  }

  lemma {:induction false} DecTextsOf(q: seq<Client>, rest: seq<Byte>)
    requires FitsQueue(q)
    ensures DecTexts(|q|, Reader(EncTexts(q) + rest, true)) == (q, Reader(rest, true))
  {
    if q == [] {
      assert EncTexts(q) + rest == rest;
    } else {
      var n := |q| - 1;
      var b := EncTexts(q[..n]);
      Assoc(b, EncString(q[n]), rest);
      DecTextsOf(q[..n], EncString(q[n]) + rest);
      DecStringOf(q[n], rest, "");
      MoreTexts(n, Reader(b + (EncString(q[n]) + rest), true), q[..n], Reader(EncString(q[n]) + rest, true));
      assert q[..n] + [q[n]] == q;
    }
  }

  lemma DecInfoOf(l: seq<(Client, nat)>, rest: seq<Byte>)
    requires FitsInfo(l)
    ensures DecInfo(Reader((EncU32(|l|) + EncPairs(l)) + rest, true)) == (InfoOf(l), Reader(rest, true))
  {
    Assoc(EncU32(|l|), EncPairs(l), rest);
    DecU32Of(|l|, EncPairs(l) + rest, true);
    DecPairsOf(l, rest);
  }

  lemma DecQueueOf(q: seq<Client>, rest: seq<Byte>)
    requires FitsQueue(q)
    ensures DecQueue(Reader((EncU32(|q|) + EncTexts(q)) + rest, true)) == (q, Reader(rest, true))
  {
    Assoc(EncU32(|q|), EncTexts(q), rest);
    DecU32Of(|q|, EncTexts(q) + rest, true);
    DecTextsOf(q, rest);
  }

  /** One lock, key first, comes back whatever the map held under that key. */
  lemma DecEntryOf(e: Entry, rest: seq<Byte>, m: map<nat, Item>)
    requires Fits(e)
    ensures DecEntry(m, Reader(EncEntry(e) + rest, true)) == (m[e.key := AsItem(e)], Reader(rest, true))
  {
    var was := ItemAt(m, e.key);
    var i := EncU32(|e.info|) + EncPairs(e.info);
    var t := EncU32(|e.retryQ|) + EncTexts(e.retryQ);
    var v := EncU32(|e.revokeQ|) + EncTexts(e.revokeQ);
    var tail := i + (t + (v + rest));
    assert EncEntry(e) + rest
        == EncU64(e.key) + (EncBool(e.locked) + (EncU64(e.lid) + (EncString(e.user) + tail)));
    DecU64Of(e.key, EncBool(e.locked) + (EncU64(e.lid) + (EncString(e.user) + tail)), true);
    DecBoolOf(e.locked, EncU64(e.lid) + (EncString(e.user) + tail), true);
    DecU64Of(e.lid, EncString(e.user) + tail, true);
    DecStringOf(e.user, tail, was.user);
    DecInfoOf(e.info, t + (v + rest));
    DecQueueOf(e.retryQ, v + rest);
    DecQueueOf(e.revokeQ, rest);
  }

  lemma {:induction false} DecItemsOf(l: seq<Entry>, rest: seq<Byte>)
    requires FitsAll(l)
    ensures DecItems(|l|, Reader(EncEntries(l) + rest, true)) == (LocksOf(l), Reader(rest, true))
  {
    if l == [] {
      assert EncEntries(l) + rest == rest;
    } else {
      var n := |l| - 1;
      Assoc(EncEntries(l[..n]), EncEntry(l[n]), rest);
      DecItemsOf(l[..n], EncEntry(l[n]) + rest);
      DecEntryOf(l[n], rest, LocksOf(l[..n]));
    }
  }

  /** State transfer: the receiver ends with the very locks of the sender, in whatever
      order the maps were listed, and has read the whole message. */
  lemma TransferKeepsLocks(l: seq<Entry>)
    requires FitsAll(l)
    ensures DecState(Reader(EncState(l), true)) == (LocksOf(l), Reader([], true))
  {
    var b := EncEntries(l);
    assert b + [] == b;
    DecU32Of(|l|, b, true);
    DecItemsOf(l, []);
  }

  /** After a transfer both replicas answer every further trace alike. */
  lemma TransferKeepsFuture(s: Server, l: seq<Entry>, ops: seq<Op>)
    requires FitsAll(l) && LocksOf(l) == s.locks
    ensures Run(s.(locks := DecState(Reader(EncState(l), true)).0), ops) == Run(s, ops)
  {
    TransferKeepsLocks(l);
  }

  /** Every map of ids has a listing. */
  lemma {:induction false} InfoListed(m: map<Client, nat>) returns (l: seq<(Client, nat)>)
    ensures InfoOf(l) == m && |l| == |m|
    decreases |m|
  {
    if m == map[] {
      l := [];
    } else {
      var k :| k in m;
      var rest := m - {k};
      assert rest.Keys == m.Keys - {k};
      assert |rest.Keys| == |m.Keys| - 1;
      var front := InfoListed(rest);
      l := front + [(k, m[k])];
      assert l[..|l| - 1] == front;
      assert rest[k := m[k]] == m;
    }
  }

  /** Every state of the lock server has a listing. */
  lemma {:induction false} LocksListed(m: map<nat, Item>) returns (l: seq<Entry>)
    ensures LocksOf(l) == m && |l| == |m|
    decreases |m|
  {
    if m == map[] {
      l := [];
    } else {
      var k :| k in m;
      var rest := m - {k};
      assert rest.Keys == m.Keys - {k};
      assert |rest.Keys| == |m.Keys| - 1;
      var front := LocksListed(rest);
      var i := m[k];
      var info := InfoListed(i.info);
      l := front + [Entry(k, i.locked, i.lid, i.user, info, i.retryQ, i.revokeQ)];
      assert l[..|l| - 1] == front;
      assert rest[k := m[k]] == m;
    }
  }

  // ----------------------------------------------------------- the source's own loops

  method PutPair(out: Output, p: (Client, nat))
    requires out.Valid()
    modifies out, out.buf
    ensures out.Valid() && (out.buf == old(out.buf) || fresh(out.buf))
    ensures out.Contents() == old(out.Contents()) + EncPair(p)
  {
    ghost var start := out.Contents();
    out.PutString(p.0);
    out.PutU64(p.1);
    Assoc(start, EncString(p.0), EncU64(p.1));
  }

  lemma MorePairs(l: seq<(Client, nat)>, k: nat)
    requires k < |l|
    ensures EncPairs(l[..k + 1]) == EncPairs(l[..k]) + EncPair(l[k])
  {
    assert l[..k + 1][..k] == l[..k];
  }

  method PutInfo(out: Output, l: seq<(Client, nat)>)
    requires out.Valid()
    modifies out, out.buf
    ensures out.Valid() && (out.buf == old(out.buf) || fresh(out.buf))
    ensures out.Contents() == old(out.Contents()) + (EncU32(|l|) + EncPairs(l))
  {
    out.PutU32(|l|);
    ghost var start := out.Contents();
    assert EncPairs(l[..0]) == [];
    var k := 0;
    while k < |l|
      invariant 0 <= k <= |l| && out.Valid() && (out.buf == old(out.buf) || fresh(out.buf))
      invariant out.Contents() == start + EncPairs(l[..k])
    {
      PutPair(out, l[k]);
      MorePairs(l, k);
      Assoc(start, EncPairs(l[..k]), EncPair(l[k]));
      k := k + 1;
    }
    assert l[..|l|] == l;
    Assoc(old(out.Contents()), EncU32(|l|), EncPairs(l));
  }

  lemma MoreTextsOut(q: seq<Client>, last: Client)
    ensures EncTexts(q + [last]) == EncTexts(q) + EncString(last)
  {
    assert (q + [last])[..|q|] == q;
  }

  method PutQueue(out: Output, queue: seq<Client>)
    requires out.Valid()
    modifies out, out.buf
    ensures out.Valid() && (out.buf == old(out.buf) || fresh(out.buf))
    ensures out.Contents() == old(out.Contents()) + (EncU32(|queue|) + EncTexts(queue))
  {
    var tmp := queue;
    out.PutU32(|tmp|);
    ghost var start := out.Contents();
    ghost var done: seq<Client> := [];
    while tmp != []
      invariant queue == done + tmp && out.Valid() && (out.buf == old(out.buf) || fresh(out.buf))
      invariant out.Contents() == start + EncTexts(done)
      decreases |tmp|
    {
      out.PutString(tmp[0]);
      MoreTextsOut(done, tmp[0]);
      Assoc(start, EncTexts(done), EncString(tmp[0]));
      done := done + [tmp[0]];
      tmp := tmp[1..];
    }
    assert done == queue;
    Assoc(old(out.Contents()), EncU32(|queue|), EncTexts(queue));
  }

  method PutHead(out: Output, e: Entry)
    requires out.Valid()
    modifies out, out.buf
    ensures out.Valid() && (out.buf == old(out.buf) || fresh(out.buf))
    ensures out.Contents() == old(out.Contents()) + EncHead(e)
  {
    ghost var start := out.Contents();
    out.PutU64(e.key);
    out.PutBool(e.locked);
    out.PutU64(e.lid);
    out.PutString(e.user);
    Chain(start, EncU64(e.key), EncBool(e.locked), EncU64(e.lid), EncString(e.user));
  }

  lemma Chain(a: seq<Byte>, b: seq<Byte>, c: seq<Byte>, d: seq<Byte>, e: seq<Byte>)
    ensures (((a + b) + c) + d) + e == a + (b + (c + (d + e)))
  {
  }

  method PutTail(out: Output, e: Entry)
    requires out.Valid()
    modifies out, out.buf
    ensures out.Valid() && (out.buf == old(out.buf) || fresh(out.buf))
    ensures out.Contents() == old(out.Contents()) + EncTail(e)
  {
    ghost var start := out.Contents();
    PutInfo(out, e.info);
    PutQueue(out, e.retryQ);
    PutQueue(out, e.revokeQ);
    Chain(start, EncU32(|e.info|) + EncPairs(e.info), EncU32(|e.retryQ|) + EncTexts(e.retryQ),
          EncU32(|e.revokeQ|) + EncTexts(e.revokeQ), []);
    assert (EncU32(|e.revokeQ|) + EncTexts(e.revokeQ)) + [] == EncU32(|e.revokeQ|) + EncTexts(e.revokeQ);
  }

  method PutEntry(out: Output, e: Entry)
    requires out.Valid()
    modifies out, out.buf
    ensures out.Valid() && (out.buf == old(out.buf) || fresh(out.buf))
    ensures out.Contents() == old(out.Contents()) + EncEntry(e)
  {
    ghost var start := out.Contents();
    PutHead(out, e);
    PutTail(out, e);
    Assoc(start, EncHead(e), EncTail(e));
  }

  method MarshalState(l: seq<Entry>) returns (b: seq<Byte>)
    ensures b == EncState(l)
  {
    var out := new Output();
    out.PutU32(|l|);
    ghost var size := EncU32(|l|);
    assert out.Contents() == size + EncEntries(l[..0]);
    var k := 0;
    while k < |l|
      invariant 0 <= k <= |l| && fresh(out) && fresh(out.buf) && out.Valid()
      invariant out.Contents() == size + EncEntries(l[..k])
    {
      PutEntry(out, l[k]);
      MoreEntries(l, k);
      Assoc(size, EncEntries(l[..k]), EncEntry(l[k]));
      k := k + 1;
    }
    assert l[..|l|] == l;
    b := out.buf[HEADER..out.ind];
  }

  lemma MoreEntries(l: seq<Entry>, k: nat)
    requires k < |l|
    ensures EncEntries(l[..k + 1]) == EncEntries(l[..k]) + EncEntry(l[k])
  {
    assert l[..k + 1][..k] == l[..k];
  }

  method GetInfo(rep: Input) returns (m: map<Client, nat>)
    requires rep.Valid()
    modifies rep
    ensures rep.Valid() && (m, rep.State()) == DecInfo(old(rep.State()))
  {
    var size := rep.GetU32();
    ghost var start := rep.State();
    m := map[];
    var j := 0;
    while j < size
      invariant 0 <= j <= size && rep.Valid() && (m, rep.State()) == DecPairs(j, start)
    {
      var key := rep.GetString("");
      var value := rep.GetU64();
      m := m[key := value];
      j := j + 1;
    }
  }

  method GetQueue(rep: Input) returns (q: seq<Client>)
    requires rep.Valid()
    modifies rep
    ensures rep.Valid() && (q, rep.State()) == DecQueue(old(rep.State()))
  {
    var size := rep.GetU32();
    ghost var start := rep.State();
    q := [];
    var k := 0;
    while k < size
      invariant 0 <= k <= size && rep.Valid() && (q, rep.State()) == DecTexts(k, start)
    {
      var item := rep.GetString("");
      q := q + [item];
      k := k + 1;
    }
  }

  method GetItem(rep: Input, was: Item) returns (i: Item)
    requires rep.Valid()
    modifies rep
    ensures rep.Valid() && (i, rep.State()) == DecItem(old(rep.State()), was)
  {
    var locked := rep.GetBool();
    var lid := rep.GetU64();
    var user := rep.GetString(was.user);
    var info := GetInfo(rep);
    var retryQ := GetQueue(rep);
    var revokeQ := GetQueue(rep);
    i := Item(locked, user, lid, info, retryQ, revokeQ);
  }

  method GetEntry(rep: Input, was: map<nat, Item>) returns (m: map<nat, Item>)
    requires rep.Valid()
    modifies rep
    ensures rep.Valid() && (m, rep.State()) == DecEntry(was, old(rep.State()))
  {
    var key := rep.GetU64();
    var item := GetItem(rep, ItemAt(was, key));
    m := was[key := item];
  }

  method UnmarshalState(state: seq<Byte>) returns (m: map<nat, Item>)
    ensures m == DecState(Reader(state, true)).0
  {
    var rep := new Input(state);
    var size := rep.GetU32();
    ghost var start := rep.State();
    m := map[];
    var i := 0;
    while i < size
      invariant 0 <= i <= size && rep.Valid() && (m, rep.State()) == DecItems(i, start)
    {
      m := GetEntry(rep, m);
      i := i + 1;
    }
    assert (m, rep.State()) == DecState(Reader(state, true));
  }

  /** The two programs, one after the other. */
  method Transfer(l: seq<Entry>) returns (m: map<nat, Item>)
    requires FitsAll(l)
    ensures m == LocksOf(l)
  {
    var state := MarshalState(l);
    m := UnmarshalState(state);
    TransferKeepsLocks(l);
  }
}
