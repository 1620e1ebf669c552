/**
 * The block-store test suite as scenarios: each method builds one storage
 * location (manifest, persister, conjoiner), opens handles on it, runs the
 * test's sequence of operations and promises, in its postcondition, what
 * the test asserts.  Random payloads become parameters of the right size.
 */
module BlockStoreTests {
  import opened Wrappers
  import opened Chunks
  import opened Tables
  import opened Manifests
  import opened Conjoiners
  import opened BlockStore

  /** testMemTableSize. */
  const TestMemTableSize: nat := 256

  const Abc: Bytes := [97, 98, 99]
  const Def: Bytes := [100, 101, 102]
  const Ghi: Bytes := [103, 104, 105]
  const Gnu: Bytes := [103, 110, 117]

  /** The test payloads have distinct hashes, none of them the zero hash. */
  lemma TestHashesDistinct()
    ensures NewChunk(Abc).hash != NewChunk(Def).hash && NewChunk(Abc).hash != NewChunk(Ghi).hash
    ensures NewChunk(Def).hash != NewChunk(Ghi).hash
    ensures NewChunk(Abc).hash != ZeroHash && NewChunk(Def).hash != ZeroHash
  {
    HashOfInjective(Abc, Def);
    HashOfInjective(Def, Ghi);
    assert Abc[0] != Def[0] && Abc[0] != Ghi[0] && Def[0] != Ghi[0];
  }

  /** The shared objects of a fresh location: an empty manifest, an empty
      persister and a conjoiner with nothing queued. */
  method NewLocation() returns (m: Manifest, p: Persister, c: FakeConjoiner)
    ensures fresh(m) && fresh(p) && fresh(c)
    ensures m.Valid() && m.contents == EmptyContents && m.seed == EmptyContents
    ensures p.Valid() && p.tables == map[] && c.canned == []
  {
    m := new Manifest(EmptyContents);
    p := new Persister();
    c := new FakeConjoiner([]);
  }

  /** NewLocalStore on a fresh location: a handle in sync with an empty
      manifest, seeing nothing. */
  method NewStore() returns (store: NomsBlockStore)
    ensures fresh(store) && fresh(store.mt) && fresh(store.manifest) && fresh(store.persister) && fresh(store.conjoiner)
    ensures store.Valid() && store.InSync() && store.memTableSize == TestMemTableSize
    ensures store.upstream == EmptyContents && store.novel == [] && store.mt.records == map[]
    ensures store.putCount == 0 && store.Visible() == {} && store.conjoiner.canned == []
  {
    var m, p, c := NewLocation();
    store := new NomsBlockStore(m, p, c, TestMemTableSize);
  }

  /**
   * Commit from the cached root on a handle that is in sync with the
   * manifest: it succeeds, the manifest then holds exactly what the handle
   * saw, and its list gains the handle's flushed tables.
   */
  method CommitFromRoot(store: NomsBlockStore, newRoot: Hash) returns (committed: bool)
    requires store.Valid() && store.InSync()
    modifies store`upstream, store`novel, store`mt, store.persister, store.manifest, store.conjoiner
    ensures store.Valid() && store.InSync() && committed
    ensures store.Visible() == old(store.Visible()) && store.mt.records == map[] && store.novel == []
    ensures |store.ToSpecs()| == old(store.FlushedCount()) + |old(store.upstream.specs)|
    ensures store.putCount == old(store.putCount) && (store.mt == old(store.mt) || fresh(store.mt))
    ensures Extends(store.persister.tables, old(store.persister.tables))
  {
    var r := store.Commit(newRoot, store.Root());
    committed := r == Ok(true);
  }

  /** Put a chunk the handle accepts: it becomes visible, and the put
      counter advances unless the memtable already holds it. */
  method PutChunk(store: NomsBlockStore, c: Chunk)
    requires store.Valid() && c.hash == HashOf(c.data) && 0 < |c.data| <= store.memTableSize
    modifies store`novel, store`mt, store`putCount, store.persister, store.mt
    ensures store.Valid() && (store.mt == old(store.mt) || fresh(store.mt))
    ensures store.Visible() == old(store.Visible()) + {c.hash}
    ensures store.Pending() == old(store.Pending()) + {c.hash} && store.ManifestChunks() == old(store.ManifestChunks())
    ensures store.putCount == old(store.putCount) + if c.hash in old(store.mt.records) then 0 else 1
    ensures store.mt.records.Keys <= old(store.mt.records.Keys) + {c.hash}
    ensures Extends(store.persister.tables, old(store.persister.tables))
  {
    var ok := store.Put(c);
  }

  /** Put a chunk on an in-sync handle, commit it from the cached root and
      read it back. */
  method PutCommitGet(store: NomsBlockStore, c: Chunk) returns (committed: bool, got: Chunk)
    requires store.Valid() && store.InSync()
    requires c.hash == HashOf(c.data) && 0 < |c.data| <= store.memTableSize
    modifies store`upstream, store`novel, store`mt, store`putCount
    modifies store.persister, store.manifest, store.conjoiner, store.mt
    ensures store.Valid() && store.InSync() && store.mt.records == map[]
    ensures committed && got == c
    ensures store.Visible() == old(store.Visible()) + {c.hash}
    ensures store.putCount == old(store.putCount) + if c.hash in old(store.mt.records) then 0 else 1
    ensures store.mt == old(store.mt) || fresh(store.mt)
  {
    PutChunk(store, c);
    committed := CommitFromRoot(store, c.hash);
    got := GetBack(store, c);
  }

  /** Put a chunk on an in-sync handle, read it back before any commit, and
      commit it from the cached root. */
  method PutGetCommit(store: NomsBlockStore, c: Chunk) returns (got: Chunk, committed: bool)
    requires store.Valid() && store.InSync()
    requires c.hash == HashOf(c.data) && 0 < |c.data| <= store.memTableSize
    modifies store`upstream, store`novel, store`mt, store`putCount
    modifies store.persister, store.manifest, store.conjoiner, store.mt
    ensures store.Valid() && store.InSync() && store.mt.records == map[]
    ensures got == c && committed
    ensures store.Visible() == old(store.Visible()) + {c.hash}
    ensures store.putCount == old(store.putCount) + if c.hash in old(store.mt.records) then 0 else 1
  {
    PutChunk(store, c);
    got := GetBack(store, c);
    committed := CommitFromRoot(store, c.hash);
  }

  /**
   * TestChunkStorePut: a committed chunk reads back with its bytes; putting
   * the same chunk again after the commit counts as a second put, the chunk
   * reads back before the second commit, and that commit succeeds.
   */
  method ChunkStorePut() returns (committed: bool, got: Chunk, firstCount: nat,
                                  gotAgain: Chunk, again: bool, secondCount: nat)
    ensures committed && got == NewChunk(Abc) && firstCount == 1
    ensures gotAgain == NewChunk(Abc) && again && secondCount == 2
  {
    var store := NewStore();
    committed, got := PutCommitGet(store, NewChunk(Abc));
    firstCount := store.putCount;
    gotAgain, again := PutGetCommit(store, NewChunk(Abc));
    secondCount := store.putCount;
  }

  /** Put two chunks the handle accepts. */
  method PutPair(store: NomsBlockStore, c1: Chunk, c2: Chunk)
    requires store.Valid() && c1.hash == HashOf(c1.data) && c2.hash == HashOf(c2.data)
    requires 0 < |c1.data| <= store.memTableSize && 0 < |c2.data| <= store.memTableSize
    modifies store`novel, store`mt, store`putCount, store.persister, store.mt
    ensures store.Valid() && (store.mt == old(store.mt) || fresh(store.mt))
    ensures store.Visible() == old(store.Visible()) + {c1.hash, c2.hash}
    ensures old(store.mt.records) == map[] && c1.hash != c2.hash ==> store.putCount == old(store.putCount) + 2
    ensures Extends(store.persister.tables, old(store.persister.tables))
  {
    PutChunk(store, c1);
    PutChunk(store, c2);
  }

  /** Read back a chunk: what the handle can see comes back with its bytes. */
  method GetBack(store: NomsBlockStore, c: Chunk) returns (got: Chunk)
    requires store.Valid() && c.hash == HashOf(c.data) && c.hash in store.Visible()
    ensures got == c
  {
    got := store.Get(c.hash);
    HashOfInjective(got.data, c.data);
  }

  /** TestChunkStorePutMany: two chunks committed together both read back. */
  method PutPairCommit(store: NomsBlockStore, c1: Chunk, c2: Chunk) returns (committed: bool)
    requires store.Valid() && store.InSync() && c1.hash == HashOf(c1.data) && c2.hash == HashOf(c2.data)
    requires 0 < |c1.data| <= store.memTableSize && 0 < |c2.data| <= store.memTableSize
    modifies store`upstream, store`novel, store`mt, store`putCount
    modifies store.persister, store.manifest, store.conjoiner, store.mt
    ensures store.Valid() && committed
    ensures store.Visible() == old(store.Visible()) + {c1.hash, c2.hash}
    ensures old(store.mt.records) == map[] && c1.hash != c2.hash ==> store.putCount == old(store.putCount) + 2
  {
    PutPair(store, c1, c2);
    committed := CommitFromRoot(store, c1.hash);
  }

  method ChunkStorePutMany() returns (committed: bool, got1: Chunk, got2: Chunk, count: nat)
    ensures committed && got1 == NewChunk(Abc) && got2 == NewChunk(Def) && count == 2
  {
    var store := NewStore();
    TestHashesDistinct();
    committed := PutPairCommit(store, NewChunk(Abc), NewChunk(Def));
    count := store.putCount;
    got1, got2 := GetPair(store, NewChunk(Abc), NewChunk(Def));
  }

  /** TestChunkStoreGetNonExisting: a miss is the empty chunk. */
  method ChunkStoreGetNonExisting(h: Hash) returns (got: Chunk)
    ensures got.IsEmpty()
  {
    var store := NewStore();
    got := store.Get(h);
  }

  /** Read back two chunks. */
  method GetPair(store: NomsBlockStore, c1: Chunk, c2: Chunk) returns (got1: Chunk, got2: Chunk)
    requires store.Valid() && c1.hash == HashOf(c1.data) && c2.hash == HashOf(c2.data)
    requires c1.hash in store.Visible() && c2.hash in store.Visible()
    ensures got1 == c1 && got2 == c2
  {
    got1 := GetBack(store, c1);
    got2 := GetBack(store, c2);
  }

  /** Put a new chunk that fits beside what the memtable holds: it joins
      the memtable, which was empty, and no table is written. */
  method PutIntoEmpty(store: NomsBlockStore, c: Chunk)
    requires store.Valid() && store.mt.records == map[]
    requires c.hash == HashOf(c.data) && 0 < |c.data| <= store.memTableSize
    modifies store`novel, store`mt, store`putCount, store.persister, store.mt
    ensures store.Valid() && (store.mt == old(store.mt) || fresh(store.mt))
    ensures store.Visible() == old(store.Visible()) + {c.hash}
    ensures store.mt.records.Keys == {c.hash} && store.mt.totalData == |c.data|
    ensures |store.novel| == |old(store.novel)| && store.putCount == old(store.putCount) + 1
    ensures Extends(store.persister.tables, old(store.persister.tables))
  {
    var ok := store.Put(c);
  }

  /** Put a new chunk that overflows the memtable: the memtable is written
      as one more table and the chunk starts the next one. */
  method PutOverflowing(store: NomsBlockStore, c: Chunk)
    requires store.Valid() && c.hash !in store.mt.records
    requires c.hash == HashOf(c.data) && 0 < |c.data| <= store.memTableSize
    requires store.mt.totalData + |c.data| > store.memTableSize
    modifies store`novel, store`mt, store`putCount, store.persister, store.mt
    ensures store.Valid() && (store.mt == old(store.mt) || fresh(store.mt))
    ensures store.Visible() == old(store.Visible()) + {c.hash}
    ensures store.mt.records != map[] && |store.novel| == |old(store.novel)| + 1
    ensures store.putCount == old(store.putCount) + 1
    ensures Extends(store.persister.tables, old(store.persister.tables))
  {
    var ok := store.Put(c);
  }

  /** Put two new chunks that do not fit in one memtable together: the
      first memtable is persisted, the second holds the second chunk. */
  method PutOverflowingPair(store: NomsBlockStore, c1: Chunk, c2: Chunk)
    requires store.Valid() && store.mt.records == map[]
    requires c1.hash == HashOf(c1.data) && c2.hash == HashOf(c2.data) && c1.hash != c2.hash
    requires 0 < |c1.data| <= store.memTableSize && 0 < |c2.data| <= store.memTableSize
    requires |c1.data| + |c2.data| > store.memTableSize
    modifies store`novel, store`mt, store`putCount, store.persister, store.mt
    ensures store.Valid() && (store.mt == old(store.mt) || fresh(store.mt))
    ensures store.Visible() == old(store.Visible()) + {c1.hash, c2.hash}
    ensures store.putCount == old(store.putCount) + 2
    ensures store.FlushedCount() == |old(store.novel)| + 2
    ensures Extends(store.persister.tables, old(store.persister.tables))
  {
    PutIntoEmpty(store, c1);
    PutOverflowing(store, c2);
  }

  /** Put two chunks that overflow one memtable, and commit: the manifest
      then lists two tables. */
  method OverflowAndCommit(store: NomsBlockStore, c1: Chunk, c2: Chunk) returns (committed: bool)
    requires store.Valid() && store.InSync() && store.mt.records == map[] && store.novel == []
    requires store.upstream.specs == []
    requires c1.hash == HashOf(c1.data) && c2.hash == HashOf(c2.data) && c1.hash != c2.hash
    requires 0 < |c1.data| <= store.memTableSize && 0 < |c2.data| <= store.memTableSize
    requires |c1.data| + |c2.data| > store.memTableSize
    modifies store`upstream, store`novel, store`mt, store`putCount
    modifies store.persister, store.manifest, store.conjoiner, store.mt
    ensures store.Valid() && committed && |store.ToSpecs()| == 2
    ensures store.Visible() == old(store.Visible()) + {c1.hash, c2.hash}
    ensures store.putCount == old(store.putCount) + 2
  {
    PutOverflowingPair(store, c1, c2);
    committed := CommitFromRoot(store, c1.hash);
  }

  /**
   * TestChunkStorePutMoreThanMemTable: two chunks of just over half the
   * budget each end up in two tables, and both read back.
   */
  method ChunkStorePutMoreThanMemTable(input1: Bytes, input2: Bytes)
    returns (committed: bool, got1: Chunk, got2: Chunk, count: nat, tableCount: nat)
    requires |input1| == TestMemTableSize / 2 + 1 && |input2| == TestMemTableSize / 2 + 1
    requires input1 != input2
    ensures committed && got1 == NewChunk(input1) && got2 == NewChunk(input2)
    ensures count == 2 && tableCount == 2
  {
    var store := NewStore();
    HashOfInjective(input1, input2);
    committed := OverflowAndCommit(store, NewChunk(input1), NewChunk(input2));
    count := store.putCount;
    tableCount := |store.ToSpecs()|;
    got1, got2 := GetPair(store, NewChunk(input1), NewChunk(input2));
  }

  /** Put three chunks in turn. */
  method PutTriple(store: NomsBlockStore, c1: Chunk, c2: Chunk, c3: Chunk)
    requires store.Valid()
    requires c1.hash == HashOf(c1.data) && 0 < |c1.data| <= store.memTableSize
    requires c2.hash == HashOf(c2.data) && 0 < |c2.data| <= store.memTableSize
    requires c3.hash == HashOf(c3.data) && 0 < |c3.data| <= store.memTableSize
    modifies store`novel, store`mt, store`putCount, store.persister, store.mt
    ensures store.Valid() && (store.mt == old(store.mt) || fresh(store.mt))
    ensures store.Visible() == old(store.Visible()) + {c1.hash, c2.hash, c3.hash}
    ensures Extends(store.persister.tables, old(store.persister.tables))
  {
    PutPair(store, c1, c2);
    PutChunk(store, c3);
  }

  /**
   * TestChunkStoreGetMany: after committing three chunks, a GetMany of
   * their hashes returns each of them.
   */
  method ChunkStoreGetMany(input1: Bytes, input2: Bytes) returns (found: map<Hash, Bytes>)
    requires |input1| == TestMemTableSize / 2 + 1 && |input2| == TestMemTableSize / 2 + 1
    ensures found.Keys == {NewChunk(input1).hash, NewChunk(input2).hash, NewChunk(Abc).hash}
    ensures WellFormed(found)
  {
    var store := NewStore();
    PutTriple(store, NewChunk(input1), NewChunk(input2), NewChunk(Abc));
    var committed := CommitFromRoot(store, NewChunk(Abc).hash);
    found := store.GetMany({NewChunk(input1).hash, NewChunk(input2).hash, NewChunk(Abc).hash});
  }

  /** A fresh store with "abc" and "def" committed. */
  method StoreWithAbcDef() returns (store: NomsBlockStore, committed: bool)
    ensures store.Valid() && committed
    ensures store.Visible() == {NewChunk(Abc).hash, NewChunk(Def).hash}
  {
    store := NewStore();
    committed := PutPairCommit(store, NewChunk(Abc), NewChunk(Def));
  }

  /**
   * TestChunkStoreHasMany: after committing two chunks, HasMany of them
   * and a third reports only the third absent.
   */
  method ChunkStoreHasMany() returns (committed: bool, absent: set<Hash>)
    ensures committed && absent == {NewChunk(Ghi).hash}
  {
    var store;
    store, committed := StoreWithAbcDef();
    TestHashesDistinct();
    absent := store.HasMany({NewChunk(Abc).hash, NewChunk(Def).hash, NewChunk(Ghi).hash});
  }

  /**
   * TestBlockStoreConjoinOnCommit, NoConjoin: with nothing queued, a put
   * and a commit from the cached root succeed and the chunk is there.
   */
  method NoConjoin() returns (success: bool, ok: bool)
    ensures success && ok
  {
    var store := NewStore();
    PutChunk(store, NewChunk(Gnu));
    success := CommitFromRoot(store, NewChunk(Gnu).hash);
    ok := store.Has(NewChunk(Gnu).hash);
  }

  /** The hashes of a list of tables. */
  function KeysOf(ts: seq<Table>): (keys: set<Hash>)
  {
    if ts == [] then {} else KeysOf(ts[..|ts| - 1]) + ts[|ts| - 1].Keys
  }

  /** Test sources: well-formed tables with the given numbers of records. */
  ghost predicate TestSources(srcs: seq<Table>, counts: seq<nat>)
  {
    && |srcs| == |counts|
    && forall i :: 0 <= i < |srcs| ==> WellFormed(srcs[i]) && |srcs[i]| == counts[i] > 0
  }

  /** One more persisted source table: the list of specs grows by its spec
      and its hashes by the table's. */
  lemma PersistStep(before: map<nat, Table>, after: map<nat, Table>, specs: seq<TableSpec>, spec: TableSpec,
                    srcs: seq<Table>, i: nat)
    requires i < |srcs| && spec.name !in before && after == before[spec.name := srcs[i]]
    requires NamesIn(before, specs) && HashesOf(before, specs) == KeysOf(srcs[..i])
    ensures Extends(after, before) && NamesIn(after, specs + [spec])
    ensures HashesOf(after, specs + [spec]) == KeysOf(srcs[..i + 1])
  {
    HashesOfFrame(after, before, specs);
    HashesOfAppend(after, specs, [spec]);
    assert HashesOf(after, [spec]) == srcs[i].Keys;
    assert srcs[..i + 1][..i] == srcs[..i];
  }

  /** makeTestSrcs: persist each source table, listing their specs in order. */
  method PersistAll(p: Persister, srcs: seq<Table>) returns (specs: seq<TableSpec>)
    requires p.Valid() && forall i :: 0 <= i < |srcs| ==> WellFormed(srcs[i]) && |srcs[i]| > 0
    modifies p
    ensures p.Valid() && Extends(p.tables, old(p.tables)) && |specs| == |srcs|
    ensures NamesIn(p.tables, specs) && HashesOf(p.tables, specs) == KeysOf(srcs)
  {
    specs := [];
    var i := 0;
    while i < |srcs|
      invariant 0 <= i <= |srcs| && |specs| == i
      invariant p.Valid() && Extends(p.tables, old(p.tables))
      invariant NamesIn(p.tables, specs) && HashesOf(p.tables, specs) == KeysOf(srcs[..i])
    {
      ghost var before := p.tables;
      var spec := p.Persist(srcs[i]);
      PersistStep(before, p.tables, specs, spec, srcs, i);
      specs := specs + [spec];
      i := i + 1;
    }
    assert srcs[..i] == srcs;
  }

  /**
   * makeCanned(conjoinees, keepers): persist the conjoinees merged into one
   * table and queue a conjoin to that table followed by the keepers.
   */
  method MakeCanned(p: Persister, conjoinees: seq<TableSpec>, keepers: seq<TableSpec>) returns (canned: CannedConjoin)
    requires p.Valid() && |conjoinees| > 0 && NamesIn(p.tables, conjoinees) && NamesIn(p.tables, keepers)
    modifies p
    ensures p.Valid() && Extends(p.tables, old(p.tables)) && canned.should
    ensures NamesIn(p.tables, canned.specs) && NamesIn(old(p.tables), conjoinees + keepers)
    ensures HashesOf(p.tables, canned.specs) == HashesOf(old(p.tables), conjoinees + keepers)
  {
    var conjoined := p.ConjoinAll(conjoinees);
    ConjoinPreservesHashes(old(p.tables), conjoinees, keepers, conjoined);
    HashesOfAppend(old(p.tables), conjoinees, keepers);
    canned := CannedConjoin(true, [conjoined] + keepers);
  }

  /** Every queued conjoin is required and installs a list of persisted
      tables holding exactly the given hashes. */
  ghost predicate QueueHolds(tables: map<nat, Table>, canned: seq<CannedConjoin>, keys: set<Hash>)
  {
    forall cc :: cc in canned ==> cc.should && NamesIn(tables, cc.specs) && HashesOf(tables, cc.specs) == keys
  }

  /** A queue that holds still holds after the persister grew. */
  lemma QueueHoldsExtends(later: map<nat, Table>, earlier: map<nat, Table>, canned: seq<CannedConjoin>, keys: set<Hash>)
    requires QueueHolds(earlier, canned, keys) && Extends(later, earlier)
    ensures QueueHolds(later, canned, keys)
  {
    forall cc | cc in canned
      ensures NamesIn(later, cc.specs) && HashesOf(later, cc.specs) == keys
    {
      HashesOfFrame(later, earlier, cc.specs);
    }
  }

  /** Queue, for each split point, a conjoin of the tables before it. */
  method QueueConjoins(p: Persister, specs: seq<TableSpec>, splits: seq<nat>) returns (canned: seq<CannedConjoin>)
    requires p.Valid() && NamesIn(p.tables, specs)
    requires forall k :: 0 <= k < |splits| ==> 0 < splits[k] <= |specs|
    modifies p
    ensures p.Valid() && Extends(p.tables, old(p.tables)) && |canned| == |splits|
    ensures QueueHolds(p.tables, canned, HashesOf(old(p.tables), specs))
  {
    ghost var keys := HashesOf(p.tables, specs);
    canned := [];
    var k := 0;
    while k < |splits|
      invariant 0 <= k <= |splits| && |canned| == k
      invariant p.Valid() && Extends(p.tables, old(p.tables))
      invariant NamesIn(p.tables, specs) && HashesOf(p.tables, specs) == keys
      invariant QueueHolds(p.tables, canned, keys)
    {
      ghost var before := p.tables;
      assert specs[..splits[k]] + specs[splits[k]..] == specs;
      var next := MakeCanned(p, specs[..splits[k]], specs[splits[k]..]);
      HashesOfFrame(p.tables, before, specs);
      QueueHoldsExtends(p.tables, before, canned, keys);
      canned := canned + [next];
      k := k + 1;
    }
  }

  /**
   * A location whose manifest lists the persisted source tables (under a
   * lock no generated lock equals) and whose conjoiner queues, for each
   * split point, a conjoin of the tables before it.
   */
  method SeededLocation(srcs: seq<Table>, splits: seq<nat>) returns (m: Manifest, p: Persister, c: FakeConjoiner)
    requires forall i :: 0 <= i < |srcs| ==> WellFormed(srcs[i]) && |srcs[i]| > 0
    requires forall k :: 0 <= k < |splits| ==> 0 < splits[k] <= |srcs|
    ensures fresh(m) && fresh(p) && fresh(c)
    ensures m.Valid() && p.Valid() && m.contents == m.seed
    ensures m.contents.root == HashOf([0xef]) && m.contents.lock == Opaque([0xbe])
    ensures NamesIn(p.tables, m.contents.specs) && c.NamesPersisted(p.tables)
    ensures HashesOf(p.tables, m.contents.specs) == KeysOf(srcs)
    ensures |c.canned| == |splits| && forall cc :: cc in c.canned ==> cc.should
    ensures c.PreservesContentOf(p.tables, m.contents.specs)
  {
    p := new Persister();
    var specs := PersistAll(p, srcs);
    ghost var persisted := p.tables;
    var canned := QueueConjoins(p, specs, splits);
    HashesOfFrame(p.tables, persisted, specs);
    m := new Manifest(Contents(HashOf([0xef]), Opaque([0xbe]), specs));
    c := new FakeConjoiner(canned);
  }

  /**
   * Put a chunk on a handle in step with its manifest and commit it from the
   * cached root.  The queued conjoins keep every chunk, so the commit
   * succeeds and loses nothing the manifest held.
   */
  method PutCommitConjoining(store: NomsBlockStore, c: Chunk) returns (success: bool)
    requires store.Valid() && store.upstream == store.manifest.contents && store.ConjoinsPreserve()
    requires c.hash == HashOf(c.data) && 0 < |c.data| <= store.memTableSize
    modifies store`upstream, store`novel, store`mt, store`putCount, store.persister, store.mt, store.manifest, store.conjoiner
    ensures store.Valid() && success
    ensures old(store.ManifestChunks()) + {c.hash} <= store.Visible()
  {
    ghost var chunks0 := store.ManifestChunks();
    PutChunk(store, c);
    store.conjoiner.PreservesExtends(store.persister.tables, old(store.persister.tables), store.manifest.contents.specs);
    var r := store.Commit(c.hash, store.Root());
    success := r == Ok(true);
  }

  /** Has of one chunk and HasMany of a set. */
  method HasAll(store: NomsBlockStore, h: Hash, hs: set<Hash>) returns (ok: bool, absent: set<Hash>)
    requires store.Valid()
    ensures ok <==> h in store.Visible()
    ensures absent == hs - store.Visible()
  {
    ok := store.Has(h);
    absent := store.HasMany(hs);
  }

  /**
   * TestBlockStoreConjoinOnCommit with one queued conjoin (ConjoinSuccess,
   * source tables of 1, 1, 3 and 7 records; the first two conjoined) or two
   * (ConjoinRetry, source tables of 1, 1, 3, 7 and 13 records; the first two,
   * then the first four conjoined): the commit succeeds, the new chunk is
   * there, and so is every chunk of every source table.
   */
  method ConjoinOnCommit(srcs: seq<Table>, counts: seq<nat>, splits: seq<nat>) returns (success: bool, ok: bool, absent: set<Hash>)
    requires TestSources(srcs, counts)
    requires (counts == [1, 1, 3, 7] && splits == [2]) || (counts == [1, 1, 3, 7, 13] && splits == [2, 4])
    ensures success && ok && absent == {}
  {
    var m, p, c := SeededLocation(srcs, splits);
    var store := new NomsBlockStore(m, p, c, TestMemTableSize);
    success := PutCommitConjoining(store, NewChunk(Gnu));
    ok, absent := HasAll(store, NewChunk(Gnu).hash, KeysOf(srcs));
  }
}
