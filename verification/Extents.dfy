/** The extent server and the write-back cache in front of it. */
module Extents {

  type Id = nat

  datatype Status = Ok | NoEnt

  type Files = map<Id, string>

  /** One cached extent: its bytes, and the size its attributes give. */
  datatype Entry = Entry(present: bool, dirty: bool, size: nat, content: string)

  type Cache = map<Id, Entry>

  const BLANK: Entry := Entry(false, false, 0, "")

  function EntryOf(c: Cache, id: Id): (e: Entry) { if id in c then c[id] else BLANK }

  // -------------------------------------------------------------- operations on values

  /** The reply is taken over also when the extent is missing: no bytes. */
  function ServerGet(f: Files, id: Id): (r: (Status, string)) {
    if id in f then (Ok, f[id]) else (NoEnt, "")
  }

  /** The handler leaves the attributes of a missing extent unset: they are `junk`. */
  function ServerSize(f: Files, id: Id, junk: nat): (r: (Status, nat)) {
    if id in f then (Ok, |f[id]|) else (NoEnt, junk)
  }

  /** The status of a miss is the status of the second call, for the attributes. */
  function CacheGet(c: Cache, f: Files, id: Id, junk: nat): (r: (Cache, Status, string)) {
    var e := EntryOf(c, id);
    if e.present then (c[id := e], Ok, e.content)
    else
      var bytes := ServerGet(f, id).1;
      var attr := ServerSize(f, id, junk);
      (c[id := e.(present := true, content := bytes, size := attr.1)], attr.0, bytes)
  }

  function CacheSize(c: Cache, f: Files, id: Id, junk: nat): (r: (Cache, Status, nat)) {
    var e := EntryOf(c, id);
    if e.present then (c[id := e], Ok, e.size)
    else (c[id := e], ServerSize(f, id, junk).0, ServerSize(f, id, junk).1)
  }

  function CachePut(c: Cache, id: Id, buf: string): (r: Cache) {
    c[id := Entry(true, true, |buf|, buf)]
  }

  /** An extent with an entry is dropped from the cache only. */
  function CacheRemove(c: Cache, f: Files, id: Id): (r: (Cache, Files)) {
    if id in c then (c - {id}, f) else (c, f - {id})
  }

  /** No entry means removed, whether or not it ever was. */
  function CacheFlush(c: Cache, f: Files, id: Id): (r: (Cache, Files)) {
    if id !in c then (c, f - {id})
    else (c[id := c[id].(present := false, dirty := false)],
          if c[id].dirty then f[id := c[id].content] else f)
  }

  // ------------------------------------------------------------------------- classes

  class Server {
    var files: Files

    constructor ()
      ensures files == map[1 := ""]
    {
      files := map[1 := ""];
    }

    method Put(id: Id, buf: string)
      modifies this
      ensures files == old(files)[id := buf]
    {
      files := files[id := buf];
    }

    method Get(id: Id) returns (s: Status, b: string)
      ensures (s, b) == ServerGet(files, id)
    {
      if id !in files { return NoEnt, ""; }
      return Ok, files[id];
    }

    method GetAttr(id: Id, junk: nat) returns (s: Status, a: nat)
      ensures (s, a) == ServerSize(files, id, junk)
    {
      if id !in files { return NoEnt, junk; }
      return Ok, |files[id]|;
    }

    method Remove(id: Id) returns (s: Status)
      modifies this
      ensures files == old(files) - {id} && (s == Ok <==> id in old(files))
    {
      if id !in files {
        assert files - {id} == files;
        return NoEnt;
      }
      files := files - {id};
      return Ok;
    }
  }

  class ClientCache {
    var entries: Cache
    const cl: Server

    constructor (server: Server)
      ensures entries == map[] && cl == server
    {
      entries, cl := map[], server;
    }

    /** `operator[]` makes an entry where there is none. */
    method Touch(id: Id)
      modifies this
      ensures entries == old(entries)[id := EntryOf(old(entries), id)]
    {
      if id !in entries { entries := entries[id := BLANK]; }
    }

    method Get(id: Id, junk: nat) returns (s: Status, b: string)
      modifies this
      ensures (entries, s, b) == CacheGet(old(entries), cl.files, id, junk)
    {
      Touch(id);
      if entries[id].present {
        return Ok, entries[id].content;
      }
      s, b := cl.Get(id);
      var size;
      s, size := cl.GetAttr(id, junk);
      entries := entries[id := entries[id].(size := size)];
      entries := entries[id := entries[id].(present := true)];
      entries := entries[id := entries[id].(content := b)];
      assert entries == CacheGet(old(entries), cl.files, id, junk).0;
    }

    method GetAttr(id: Id, junk: nat) returns (s: Status, a: nat)
      modifies this
      ensures (entries, s, a) == CacheSize(old(entries), cl.files, id, junk)
    {
      Touch(id);
      if entries[id].present {
        return Ok, entries[id].size;
      }
      s, a := cl.GetAttr(id, junk);
    }

    method Put(id: Id, buf: string)
      modifies this
      ensures entries == CachePut(old(entries), id, buf)
    {
      Touch(id);
      entries := entries[id := entries[id].(size := |buf|)];
      entries := entries[id := entries[id].(content := buf)];
      entries := entries[id := entries[id].(dirty := true)];
      entries := entries[id := entries[id].(present := true)];
    }

    method Remove(id: Id) returns (s: Status)
      modifies this, cl
      ensures (entries, cl.files) == CacheRemove(old(entries), old(cl.files), id)
      ensures s == Ok <==> id in old(entries) || id in old(cl.files)
    {
      if id in entries {
        entries := entries - {id};
        return Ok;
      }
      s := cl.Remove(id);
    }

    method Flush(id: Id) returns (s: Status)
      modifies this, cl
      ensures (entries, cl.files) == CacheFlush(old(entries), old(cl.files), id)
      ensures s == Ok <==> id in old(entries) || id in old(cl.files)
    {
      s := Ok;
      if id !in entries {
        s := cl.Remove(id);
        return;
      }
      if entries[id].dirty {
        cl.Put(id, entries[id].content);
      }
      entries := entries[id := entries[id].(dirty := false)];
      entries := entries[id := entries[id].(present := false)];
      assert entries == CacheFlush(old(entries), old(cl.files), id).0;
    }
  }

  // ------------------------------------------------------------------ several clients

  type Client = nat

  /** `holder`: who holds the lock of an extent. `pending`: extents that the holder
      removed in this tenure and has not put since. */
  datatype World = World(files: Files, caches: map<Client, Cache>, holder: map<Id, Client>, pending: set<Id>)

  const START: World := World(map[1 := ""], map[], map[], {})

  datatype Event =
    | Acquire(c: Client, id: Id)
    | Get(c: Client, id: Id, junk: nat)
    | GetAttr(c: Client, id: Id)
    | Put(c: Client, id: Id, buf: string)
    | Remove(c: Client, id: Id)
    | Release(c: Client, id: Id)

  function CacheOf(w: World, c: Client): (r: Cache) { if c in w.caches then w.caches[c] else map[] }

  /** The lock server gives a free lock; an extent is touched, flushed and given back by
      the holder of its lock only. */
  predicate Enabled(w: World, e: Event) {
    match e
    case Acquire(c, id) => id !in w.holder
    case _ => e.id in w.holder && w.holder[e.id] == e.c
  }

  /** Giving the lock back flushes first. */
  function Next(w: World, e: Event): (r: World) {
    match e
    case Acquire(c, id) => w.(holder := w.holder[id := c])
    case Get(c, id, junk) => w.(caches := w.caches[c := CacheGet(CacheOf(w, c), w.files, id, junk).0])
    case GetAttr(c, id) => w.(caches := w.caches[c := CacheSize(CacheOf(w, c), w.files, id, 0).0])
    case Put(c, id, buf) =>
      w.(caches := w.caches[c := CachePut(CacheOf(w, c), id, buf)], pending := w.pending - {id})
    case Remove(c, id) =>
      var r := CacheRemove(CacheOf(w, c), w.files, id);
      w.(caches := w.caches[c := r.0], files := r.1, pending := w.pending + {id})
    case Release(c, id) =>
      var r := CacheFlush(CacheOf(w, c), w.files, id);
      World(r.1, w.caches[c := r.0], w.holder - {id}, w.pending - {id})
  }

  /** A removed extent is not read before it is put again or the lock is given back;
      the lock of an extent the client knows nothing of is not given back. */
  predicate Orderly(w: World, e: Event) {
    match e
    case Get(c, id, junk) => id !in w.pending
    case GetAttr(c, id) => id !in w.pending
    case Release(c, id) => id in w.pending || id in CacheOf(w, c)
    case _ => true
  }

  function After(evs: seq<Event>): (w: World) {
    if evs == [] then START else Next(After(evs[..|evs| - 1]), evs[|evs| - 1])
  }

  predicate OrderlyRun(evs: seq<Event>) {
    evs == [] ||
    (var n := |evs| - 1;
     OrderlyRun(evs[..n]) && Enabled(After(evs[..n]), evs[n]) && Orderly(After(evs[..n]), evs[n]))
  }

  /** What one file system without caches and locks would hold. */
  function NextLatest(f: Files, e: Event): (g: Files) {
    match e
    case Put(c, id, buf) => f[id := buf]
    case Remove(c, id) => f - {id}
    case _ => f
  }

  function Latest(evs: seq<Event>): (f: Files) {
    if evs == [] then map[1 := ""] else NextLatest(Latest(evs[..|evs| - 1]), evs[|evs| - 1])
  }

  // ------------------------------------------------------------------------ invariant

  predicate SameAt(f: Files, g: Files, id: Id) {
    (id in f <==> id in g) && (id in f ==> f[id] == g[id])
  }

  /** What a client without the lock keeps is neither read nor written back. */
  predicate Idle(k: Cache, id: Id) { id in k ==> !k[id].present && !k[id].dirty }

  /** What the holder keeps of the extent, against the latest contents `f`. */
  predicate Held(w: World, k: Cache, f: Files, id: Id) {
    if id in w.pending then id !in f && id !in k
    else if id !in k || !k[id].present then
      SameAt(w.files, f, id) && (id in k ==> !k[id].dirty)
    else if k[id].dirty then
      id in f && f[id] == k[id].content && k[id].size == |k[id].content|
    else
      SameAt(w.files, f, id)
      && (if id in f then f[id] == k[id].content && k[id].size == |f[id]| else k[id].content == "")
  }

  ghost predicate At(w: World, f: Files, id: Id) {
    && (forall c :: (id in w.holder ==> w.holder[id] != c) ==> Idle(CacheOf(w, c), id))
    && (id !in w.holder ==> SameAt(w.files, f, id) && id !in w.pending)
    && (id in w.holder ==> Held(w, CacheOf(w, w.holder[id]), f, id))
  }

  ghost predicate Inv(w: World, f: Files) { forall id :: At(w, f, id) }

  lemma StepElsewhere(w: World, e: Event, f: Files, id: Id)
    requires At(w, f, id) && id != e.id
    ensures At(Next(w, e), NextLatest(f, e), id)
  {
    var t := Next(w, e);
    forall c
      ensures id in CacheOf(t, c) <==> id in CacheOf(w, c)
      ensures id in CacheOf(w, c) ==> CacheOf(t, c)[id] == CacheOf(w, c)[id]
    {
      CachedElsewhere(w, e, id, c);
    }
  }

  lemma CachedElsewhere(w: World, e: Event, id: Id, c: Client)
    requires id != e.id
    ensures id in CacheOf(Next(w, e), c) <==> id in CacheOf(w, c)
    ensures id in CacheOf(w, c) ==> CacheOf(Next(w, e), c)[id] == CacheOf(w, c)[id]
  {
  }

  lemma StepHere(w: World, e: Event, f: Files)
    requires At(w, f, e.id) && Enabled(w, e) && Orderly(w, e)
    ensures At(Next(w, e), NextLatest(f, e), e.id)
  {
    var t := Next(w, e);
    forall c | c != e.c ensures CacheOf(t, c) == CacheOf(w, c) {
    }
    assert e.Acquire? ==> Idle(CacheOf(w, e.c), e.id);
  }

  lemma {:induction false} RunKeepsInv(evs: seq<Event>)
    requires OrderlyRun(evs)
    ensures Inv(After(evs), Latest(evs))
  {
    if evs == [] {
      forall id ensures At(START, map[1 := ""], id) {
      }
    } else {
      var n := |evs| - 1;
      RunKeepsInv(evs[..n]);
      var w, f := After(evs[..n]), Latest(evs[..n]);
      forall id ensures At(Next(w, evs[n]), NextLatest(f, evs[n]), id) {
        if id == evs[n].id { StepHere(w, evs[n], f); } else { StepElsewhere(w, evs[n], f, id); }
      }
    }
  }

  // ------------------------------------------------------------------------- theorems

  /** Coherence: in every orderly run the holder's read of an existing extent returns
      the latest bytes any client put, and its size. */
  lemma GetReturnsLatest(evs: seq<Event>, c: Client, id: Id, junk: nat)
    requires OrderlyRun(evs) && Enabled(After(evs), Get(c, id, junk)) && id !in After(evs).pending
    requires id in Latest(evs)
    ensures var w := After(evs);
            && CacheGet(CacheOf(w, c), w.files, id, junk).1 == Ok
            && CacheGet(CacheOf(w, c), w.files, id, junk).2 == Latest(evs)[id]
            && CacheSize(CacheOf(w, c), w.files, id, junk).1 == Ok
            && CacheSize(CacheOf(w, c), w.files, id, junk).2 == |Latest(evs)[id]|
  {
    RunKeepsInv(evs);
    assert At(After(evs), Latest(evs), id);
  }

  /** A read of an extent that does not exist gives no bytes; it and a read of the
      attributes fail until the first read of the bytes in a tenure, and are reported as
      successes after that. */
  lemma MissingExact(evs: seq<Event>, c: Client, id: Id, junk: nat)
    requires OrderlyRun(evs) && Enabled(After(evs), Get(c, id, junk)) && id !in After(evs).pending
    requires id !in Latest(evs)
    ensures var w := After(evs);
            && CacheGet(CacheOf(w, c), w.files, id, junk).2 == ""
            && (CacheGet(CacheOf(w, c), w.files, id, junk).1 == NoEnt <==> !EntryOf(CacheOf(w, c), id).present)
            && (CacheSize(CacheOf(w, c), w.files, id, junk).1 == NoEnt <==> !EntryOf(CacheOf(w, c), id).present)
  {
    RunKeepsInv(evs);
    assert At(After(evs), Latest(evs), id);
  }

  /** Write-back: an extent whose lock is free is on the server exactly as the latest
      put or remove left it. */
  lemma FreeIsWrittenBack(evs: seq<Event>, id: Id)
    requires OrderlyRun(evs) && id !in After(evs).holder
    ensures SameAt(After(evs).files, Latest(evs), id)
  {
    RunKeepsInv(evs);
    assert At(After(evs), Latest(evs), id);
  }

  /** A tenure in which the extent was touched at least once may end: the rule for
      giving back is met after any read, write or remove. */
  lemma TouchedMayRelease(w: World, e: Event)
    requires Enabled(w, e) && !e.Acquire? && !e.Release?
    ensures Orderly(Next(w, e), Release(e.c, e.id))
  {
  }

  /** Giving back the lock of an untouched extent keeps it exactly when the client has
      an entry for it or there was no extent. */
  lemma UntouchedReleaseExact(evs: seq<Event>, c: Client, id: Id)
    requires OrderlyRun(evs) && id !in After(evs).holder
    ensures var w := Next(After(evs), Acquire(c, id));
            SameAt(Next(w, Release(c, id)).files, Latest(evs), id)
            <==> (id in CacheOf(w, c) || id !in Latest(evs))
  {
    RunKeepsInv(evs);
    assert At(After(evs), Latest(evs), id);
    assert Idle(CacheOf(After(evs), c), id);
  }

  /** A read right after a remove brings the extent back exactly when the client had an
      entry for it, so that the remove stayed in the cache, and the server had it. */
  lemma ReadAfterRemoveExact(evs: seq<Event>, c: Client, id: Id, junk: nat)
    requires OrderlyRun(evs) && Enabled(After(evs), Remove(c, id))
    ensures var w := After(evs);
            var t := Next(w, Remove(c, id));
            CacheGet(CacheOf(t, c), t.files, id, junk).1 == Ok
            <==> (id in CacheOf(w, c) && id in w.files)
  {
  }

  /** And then flushing keeps the extent that was removed. */
  lemma RemovedComesBack()
    ensures var evs := [Acquire(7, 1), Get(7, 1, 0), Remove(7, 1), Get(7, 1, 0), Release(7, 1)];
            && OrderlyRun(evs[..3]) && Enabled(After(evs[..3]), evs[3])
            && 1 !in Latest(evs) && 1 in After(evs).files && 1 !in After(evs).holder
  {
    var evs := [Acquire(7, 1), Get(7, 1, 0), Remove(7, 1), Get(7, 1, 0), Release(7, 1)];
    assert evs[..5] == evs;
    assert evs[..5][..4] == evs[..4] && evs[..4][..3] == evs[..3];
    assert evs[..3][..2] == evs[..2] && evs[..2][..1] == evs[..1] && evs[..1][..0] == [];
    assert After(evs[..1]) == Next(START, evs[0]);
    assert After(evs[..2]) == Next(After(evs[..1]), evs[1]);
    assert After(evs[..3]) == Next(After(evs[..2]), evs[2]);
    assert After(evs[..4]) == Next(After(evs[..3]), evs[3]);
    assert OrderlyRun(evs[..0]) && OrderlyRun(evs[..1]) && OrderlyRun(evs[..2]);
    assert Latest(evs[..1]) == map[1 := ""];
    assert Latest(evs[..2]) == map[1 := ""];
    assert 1 !in Latest(evs[..3]);
    assert 1 !in Latest(evs[..4]);
  }
}
