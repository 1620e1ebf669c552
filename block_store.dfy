/**
 * NomsBlockStore: one handle on a chunk store.
 *
 * A handle caches the manifest contents it last observed (its upstream),
 * holds the tables it flushed itself and has not committed yet (novel,
 * newest first) and an open memtable bounded by a byte budget.  Its table
 * set is novel followed by the upstream tables; reads consult the memtable
 * first and then the tables in order.  Several handles may share one
 * manifest and one persister; they take turns.
 */
module BlockStore {
  import opened Wrappers
  import opened Chunks
  import opened Tables
  import opened Manifests
  import opened Conjoiners
  import opened MemTables

  /**
   * The outcome of one attempt to update the manifest: success, the
   * caller's last root is not the handle's root, or the compare-and-swap
   * lost to another writer that moved the root, or only the tables (the
   * latter also after this handle's own conjoin, which is retried).  The
   * fake conjoiner's panic is an outcome of its own.
   */
  datatype UpdateOutcome = Updated | LastRootMismatch | LockFailedRoot | LockFailedTables | ConjoinPanicked

  /**
   * Persisting a memtable under a fresh name and putting that table in front
   * of a handle's table set changes no hash the handle can see, and leaves
   * every existing table list as it was.
   */
  lemma FlushFacts(before: map<nat, Table>, after: map<nat, Table>, spec: TableSpec, mem: Table,
                   novel: seq<TableSpec>, ups: seq<TableSpec>, committed: seq<TableSpec>)
    requires NamesIn(before, novel) && NamesIn(before, ups) && NamesIn(before, committed)
    requires spec.name !in before && after == before[spec.name := mem]
    ensures Extends(after, before)
    ensures NamesIn(after, [spec] + novel) && NamesIn(after, ups) && NamesIn(after, committed)
    ensures HashesOf(after, [spec] + novel) == HashesOf(before, novel) + mem.Keys
    ensures HashesOf(after, ups) == HashesOf(before, ups)
    ensures HashesOf(after, committed) == HashesOf(before, committed)
  {
    HashesOfFrame(after, before, novel);
    HashesOfFrame(after, before, ups);
    HashesOfFrame(after, before, committed);
    assert ([spec] + novel)[1..] == novel;
  }

  /**
   * Swapping a table set into the manifest: the proposed list holds exactly
   * the hashes of the novel and the upstream tables, and ends with the
   * upstream list; an emptied novel list holds nothing.
   */
  lemma SwapFacts(tables: map<nat, Table>, novel: seq<TableSpec>, ups: seq<TableSpec>)
    requires NamesIn(tables, novel) && NamesIn(tables, ups)
    ensures NamesIn(tables, novel + ups) && NamesIn(tables, [])
    ensures HashesOf(tables, novel + ups) == HashesOf(tables, novel) + HashesOf(tables, ups)
    ensures HashesOf(tables, []) == {}
    ensures |novel + ups| == |novel| + |ups| && (novel + ups)[|novel|..] == ups
  {
    HashesOfAppend(tables, novel, ups);
  }

  class NomsBlockStore {
    const manifest: Manifest
    const persister: Persister
    const conjoiner: FakeConjoiner
    const memTableSize: nat

    /** The manifest contents this handle last observed. */
    var upstream: Contents
    /** Tables this handle flushed and has not committed, newest first. */
    var novel: seq<TableSpec>
    /** The open memtable. */
    var mt: MemTable
    /** The number of chunks added to a memtable. */
    var putCount: nat

    /** The invariant of the shared objects: the manifest's lock is sound,
        and the manifest and canned conjoins name persisted tables. */
    ghost predicate SharedValid()
      reads manifest, persister, conjoiner
    {
      && manifest.Valid()
      && persister.Valid()
      && NamesIn(persister.tables, manifest.contents.specs)
      && conjoiner.NamesPersisted(persister.tables)
    }

    /** The handle's own state against a persister's tables. */
    ghost predicate LocalValid(tables: map<nat, Table>)
      reads this, mt
    {
      && WellLocked(upstream)
      && NamesIn(tables, novel)
      && NamesIn(tables, upstream.specs)
      && mt.Valid()
      && mt.maxData == memTableSize
    }

    ghost predicate Valid()
      reads this, manifest, persister, conjoiner, mt
    {
      && SharedValid()
      && (upstream.lock.Opaque? ==> upstream == manifest.seed)
      && LocalValid(persister.tables)
    }

    /** tables.ToSpecs(): the persisted tables of the table set. */
    function ToSpecs(): (specs: seq<TableSpec>)
      reads this
    {
      novel + upstream.specs
    }

    /** The hashes of everything this handle can read. */
    ghost function Visible(): (hs: set<Hash>)
      reads this, persister, mt
      requires NamesIn(persister.tables, novel) && NamesIn(persister.tables, upstream.specs)
    {
      HashesOf(persister.tables, novel) + mt.records.Keys + HashesOf(persister.tables, upstream.specs)
    }

    /** The hashes this handle has written and not committed. */
    ghost function Pending(): (hs: set<Hash>)
      reads this, persister, mt
      requires NamesIn(persister.tables, novel)
    {
      HashesOf(persister.tables, novel) + mt.records.Keys
    }

    /** The hashes of the chunks the manifest currently lists. */
    ghost function ManifestChunks(): (hs: set<Hash>)
      reads manifest, persister
      requires NamesIn(persister.tables, manifest.contents.specs)
    {
      HashesOf(persister.tables, manifest.contents.specs)
    }

    /** The handle's table set holds its novel tables and its upstream's. */
    lemma TableSetParts()
      requires Valid()
      ensures NamesIn(persister.tables, ToSpecs())
      ensures HashesOf(persister.tables, ToSpecs()) ==
        HashesOf(persister.tables, novel) + HashesOf(persister.tables, upstream.specs)
    {
      HashesOfAppend(persister.tables, novel, upstream.specs);
    }

    /** A handle another handle worked beside is still valid: the shared
        objects are, and the persister only grew. */
    lemma StillValid(earlier: map<nat, Table>)
      requires SharedValid() && LocalValid(earlier) && Extends(persister.tables, earlier)
      requires upstream.lock.Opaque? ==> upstream == manifest.seed
      ensures Valid()
    {
      NamesInExtends(persister.tables, earlier, novel);
      NamesInExtends(persister.tables, earlier, upstream.specs);
    }

    /** newNomsBlockStore(mm, p, c, memTableSize): a handle that starts from
        the manifest's current contents with an empty memtable. */
    constructor (manifest: Manifest, persister: Persister, conjoiner: FakeConjoiner, memTableSize: nat)
      requires manifest.Valid() && persister.Valid()
      requires NamesIn(persister.tables, manifest.contents.specs)
      requires conjoiner.NamesPersisted(persister.tables)
      ensures Valid() && fresh(mt)
      ensures this.manifest == manifest && this.persister == persister && this.conjoiner == conjoiner
      ensures this.memTableSize == memTableSize
      ensures upstream == manifest.contents && novel == [] && mt.records == map[] && putCount == 0
    {
      this.manifest := manifest;
      this.persister := persister;
      this.conjoiner := conjoiner;
      this.memTableSize := memTableSize;
      upstream := manifest.contents;
      novel := [];
      mt := new MemTable(memTableSize);
      putCount := 0;
    }

    /** Root: the cached root; no manifest read. */
    function Root(): (root: Hash)
      reads this
    {
      upstream.root
    }

    /** Persist a non-empty memtable as a new novel table and start an empty one. */
    method FlushMemTable()
      requires Valid()
      modifies this`novel, this`mt, persister
      ensures Valid() && fresh(mt)
      ensures Extends(persister.tables, old(persister.tables))
      ensures mt.records == map[] && mt.totalData == 0
      ensures old(mt.records) == map[] ==> novel == old(novel) && persister.tables == old(persister.tables)
      ensures old(mt.records) != map[] ==>
        |novel| == |old(novel)| + 1 && novel[1..] == old(novel) &&
        persister.tables[novel[0].name] == old(mt.records)
      ensures Visible() == old(Visible())
      ensures Pending() == old(Pending())
      ensures ManifestChunks() == old(ManifestChunks())
    {
      if mt.records != map[] {
        ghost var before := persister.tables;
        var spec := persister.Persist(mt.records);
        FlushFacts(before, persister.tables, spec, mt.records, novel, upstream.specs, manifest.contents.specs);
        conjoiner.NamesPersistedExtends(persister.tables, before);
        novel := [spec] + novel;
      }
      mt := new MemTable(memTableSize);
    }

    /**
     * Put(c): add a chunk to the memtable.  A chunk the memtable already
     * holds is accepted without change.  When a new chunk does not fit in
     * what is left of the budget, the memtable is persisted as a new table
     * and the chunk goes into a fresh one.  The empty chunk and a chunk
     * larger than the whole budget are refused.
     */
    method Put(c: Chunk) returns (ok: bool)
      requires Valid() && c.hash == HashOf(c.data)
      modifies this`novel, this`mt, this`putCount, persister, mt
      ensures Valid() && (mt == old(mt) || fresh(mt))
      ensures Extends(persister.tables, old(persister.tables))
      ensures ok <==> 0 < |c.data| <= memTableSize
      ensures mt.records.Keys <= old(mt.records.Keys) + {c.hash}
      ensures ok ==> c.hash in mt.records && Visible() == old(Visible()) + {c.hash}
      ensures ok ==> Pending() == old(Pending()) + {c.hash}
      ensures !ok ==> mt.records == old(mt.records) && novel == old(novel) && persister.tables == old(persister.tables)
      ensures ManifestChunks() == old(ManifestChunks())
      ensures ok && c.hash in old(mt.records) ==> mt.totalData == old(mt.totalData)
      ensures ok && c.hash !in old(mt.records) ==>
        mt.totalData == |c.data| + if old(mt.totalData) + |c.data| > memTableSize then 0 else old(mt.totalData)
      ensures putCount == old(putCount) + if ok && c.hash !in old(mt.records) then 1 else 0
      ensures |novel| == |old(novel)| +
        if ok && c.hash !in old(mt.records) && old(mt.totalData) + |c.data| > memTableSize then 1 else 0
    {
      if |c.data| == 0 || |c.data| > memTableSize {
        return false;
      }
      var isNew := !mt.Has(c.hash);
      ok := mt.AddChunk(c.hash, c.data);
      if !ok {
        FlushAndAdd(c.hash, c.data);
        ok := true;
      }
      if isNew {
        putCount := putCount + 1;
      }
    }

    /** A new chunk that did not fit: persist the memtable and add the chunk
        to the fresh one. */
    method FlushAndAdd(h: Hash, data: Bytes)
      requires Valid() && HashOf(data) == h && 0 < |data| <= memTableSize
      requires h !in mt.records && mt.totalData + |data| > memTableSize
      modifies this`novel, this`mt, persister
      ensures Valid() && fresh(mt)
      ensures Extends(persister.tables, old(persister.tables))
      ensures mt.records == map[h := data] && mt.totalData == |data| && |novel| == |old(novel)| + 1
      ensures Visible() == old(Visible()) + {h} && Pending() == old(Pending()) + {h}
      ensures ManifestChunks() == old(ManifestChunks())
    {
      FlushMemTable();
      var ok := mt.AddChunk(h, data);
    }

    /**
     * Get(h): the chunk under h, or the empty chunk on a miss (not an
     * error).  A chunk found is content-addressed, so under the injective
     * hash it carries the one payload ever stored under h.
     */
    method Get(h: Hash) returns (c: Chunk)
      requires Valid()
      ensures h in Visible() ==> c.hash == h && HashOf(c.data) == h && !c.IsEmpty()
      ensures h !in Visible() ==> c == EmptyChunk
    {
      if mt.Has(h) {
        return Chunk(h, mt.records[h]);
      }
      TableSetParts();
      var r := TableSetGet(persister.tables, ToSpecs(), h);
      c := if r.Some? then Chunk(h, r.value) else EmptyChunk;
    }

    /** Has(h). */
    method Has(h: Hash) returns (b: bool)
      requires Valid()
      ensures b <==> h in Visible()
    {
      if mt.Has(h) {
        return true;
      }
      TableSetParts();
      b := TableSetHas(persister.tables, ToSpecs(), h);
    }

    /** HasMany(hashes): the requested hashes that are absent. */
    method HasMany(hashes: set<Hash>) returns (absent: set<Hash>)
      requires Valid()
      ensures absent == hashes - Visible()
    {
      TableSetParts();
      absent := TableSetHasMany(persister.tables, ToSpecs(), hashes - mt.records.Keys);
    }

    /** GetMany(hashes): the present requested chunks, each once, keyed by
        hash and content-addressed. */
    method GetMany(hashes: set<Hash>) returns (found: map<Hash, Bytes>)
      requires Valid()
      ensures found.Keys == hashes * Visible()
      ensures WellFormed(found)
    {
      var fromMem := Select(mt.records, hashes);
      TableSetParts();
      var fromTables := TableSetGetMany(persister.tables, ToSpecs(), hashes - mt.records.Keys);
      MergeWellFormed(fromMem, fromTables);
      found := fromMem + fromTables;
    }

    /**
     * Rebase: adopt the manifest's current contents.  The handle keeps its
     * memtable and its novel tables and afterwards sees exactly those and
     * the manifest's tables.
     */
    method Rebase()
      requires Valid()
      modifies this`upstream
      ensures Valid()
      ensures upstream == manifest.contents
      ensures Pending() == old(Pending())
      ensures Visible() == Pending() + ManifestChunks()
    {
      upstream := manifest.Fetch();
    }

    /**
     * Apply the conjoiner's next canned conjoin against this handle's
     * upstream and, when it takes, adopt the manifest it installed (same
     * root, conjoined tables).  ok is false when the fake panicked: the
     * handle's upstream was stale and the manifest stays as it was.
     */
    method ApplyConjoin() returns (ok: bool)
      requires Valid() && conjoiner.ConjoinRequired()
      modifies this`upstream, manifest, conjoiner
      ensures Valid()
      ensures conjoiner.canned == old(conjoiner.canned)[1..]
      ensures ok ==> upstream == manifest.contents && upstream.root == old(upstream.root)
      ensures !ok ==> upstream == old(upstream) && manifest.contents == old(manifest.contents)
      ensures !ok ==> old(upstream.lock) != old(manifest.contents.lock)
      ensures old(upstream) == old(manifest.contents) ==> ok
      ensures manifest.contents != old(manifest.contents) ==> old(manifest.contents) == old(upstream)
      ensures old(conjoiner.PreservesContentOf(persister.tables, manifest.contents.specs)) ==>
        conjoiner.PreservesContentOf(persister.tables, manifest.contents.specs) &&
        ManifestChunks() == old(ManifestChunks())
    {
      if manifest.contents.lock == upstream.lock {
        SameLockSameContents(upstream, manifest.contents, manifest.seed);
      }
      var r := conjoiner.Conjoin(upstream, manifest, persister);
      if r.Err? {
        return false;
      }
      upstream := r.value;
      ok := true;
    }

    /**
     * One compare-and-swap of the manifest: propose the new root with the
     * whole table set against the upstream lock.  On success the novel
     * tables become upstream tables; on failure the handle adopts what the
     * manifest holds, keeps its novel tables, and reports whether the root
     * or only the tables moved.
     */
    method TryUpdate(newRoot: Hash, lastRoot: Hash) returns (outcome: UpdateOutcome)
      requires Valid() && upstream.root == lastRoot && mt.records == map[]
      modifies this`upstream, this`novel, manifest
      ensures Valid()
      ensures outcome == Updated || outcome == LockFailedRoot || outcome == LockFailedTables
      ensures outcome == Updated ==>
        manifest.contents == ContentsOf(newRoot, old(novel) + old(upstream.specs)) &&
        upstream == manifest.contents && novel == [] &&
        (old(manifest.contents) == old(upstream) || manifest.contents == old(manifest.contents))
      ensures outcome == Updated ==>
        Visible() == ManifestChunks() && ManifestChunks() == old(Visible()) &&
        old(ManifestChunks()) <= ManifestChunks() &&
        |manifest.contents.specs| == |old(novel)| + |old(upstream.specs)| &&
        manifest.contents.specs[|old(novel)|..] == old(upstream.specs)
      ensures outcome != Updated ==>
        manifest.contents == old(manifest.contents) && upstream == manifest.contents &&
        novel == old(novel) && old(upstream) != old(manifest.contents)
      ensures outcome == LockFailedRoot <==> outcome != Updated && manifest.contents.root != lastRoot
      ensures old(upstream) == old(manifest.contents) ==> outcome == Updated
    {
      SwapFacts(persister.tables, novel, upstream.specs);
      ghost var all := HashesOf(persister.tables, novel + upstream.specs);
      ghost var visible := Visible();
      assert visible == all;
      ghost var chunks := ManifestChunks();
      var proposed := ContentsOf(newRoot, novel + upstream.specs);
      if manifest.contents.lock == upstream.lock {
        SameLockSameContents(upstream, manifest.contents, manifest.seed);
        assert chunks <= all;
      }
      var actual := manifest.Update(upstream.lock, proposed);
      if actual.lock == proposed.lock {
        assert manifest.contents == proposed;
        upstream := proposed;
        novel := [];
        assert ManifestChunks() == all && chunks <= all;
        assert Visible() == all;
        return Updated;
      }
      upstream := actual;
      outcome := if actual.root != lastRoot then LockFailedRoot else LockFailedTables;
    }

    /**
     * updateManifest(newRoot, lastRoot): one attempt at a commit.  A handle
     * whose root is not lastRoot fails at once.  Otherwise the memtable is
     * persisted; then either the conjoiner's next conjoin is applied (and
     * the attempt is to be retried), or the manifest is swapped.
     */
    method UpdateManifest(newRoot: Hash, lastRoot: Hash) returns (outcome: UpdateOutcome)
      requires Valid()
      modifies this`upstream, this`novel, this`mt, persister, manifest, conjoiner
      ensures Valid() && (mt == old(mt) || fresh(mt))
      ensures Extends(persister.tables, old(persister.tables))
      ensures outcome == LastRootMismatch <==> old(upstream.root) != lastRoot
      ensures outcome == LastRootMismatch ==>
        upstream == old(upstream) && novel == old(novel) && mt == old(mt) &&
        persister.tables == old(persister.tables) && manifest.contents == old(manifest.contents) &&
        conjoiner.canned == old(conjoiner.canned)
      ensures outcome == Updated ==>
        upstream == manifest.contents && manifest.contents.root == newRoot &&
        novel == [] && mt.records == map[] &&
        Visible() == ManifestChunks() && ManifestChunks() == old(Visible()) &&
        old(ManifestChunks()) <= ManifestChunks()
      ensures outcome == LockFailedRoot ==>
        upstream == manifest.contents && manifest.contents == old(manifest.contents) &&
        manifest.contents.root != lastRoot
      ensures outcome == LockFailedTables ==>
        upstream == manifest.contents && upstream.root == lastRoot &&
        (|conjoiner.canned| < |old(conjoiner.canned)| ||
         (conjoiner.canned == old(conjoiner.canned) && old(upstream) != old(manifest.contents)))
      ensures outcome == ConjoinPanicked ==>
        upstream == old(upstream) && manifest.contents == old(manifest.contents) &&
        old(upstream.lock) != old(manifest.contents.lock) && old(conjoiner.ConjoinRequired())
      ensures outcome == Updated ==>
        old(manifest.contents.root) == lastRoot || old(manifest.contents.root) == newRoot
      ensures outcome == LockFailedTables && manifest.contents != old(manifest.contents) ==>
        old(manifest.contents.root) == lastRoot
      ensures outcome != Updated ==> Pending() == old(Pending())
      ensures outcome != Updated && old(ConjoinsPreserve()) ==>
        ConjoinsPreserve() && old(ManifestChunks()) <= ManifestChunks()
      ensures old(CommitCannotFail(lastRoot)) ==> outcome == Updated || outcome == LockFailedTables
      ensures old(upstream.root) == lastRoot && old(InSync()) ==>
        outcome == Updated &&
        |manifest.contents.specs| == old(FlushedCount()) + |old(upstream.specs)| &&
        manifest.contents.specs[old(FlushedCount())..] == old(upstream.specs)
      ensures !old(conjoiner.ConjoinRequired()) ==> conjoiner.canned == old(conjoiner.canned)
    {
      if upstream.root != lastRoot {
        return LastRootMismatch;
      }
      outcome := FlushAndSwap(newRoot, lastRoot);
    }

    /** The part of updateManifest after the root check: persist the
        memtable, then conjoin or swap the manifest. */
    method FlushAndSwap(newRoot: Hash, lastRoot: Hash) returns (outcome: UpdateOutcome)
      requires Valid() && upstream.root == lastRoot
      modifies this`upstream, this`novel, this`mt, persister, manifest, conjoiner
      ensures Valid() && (mt == old(mt) || fresh(mt))
      ensures Extends(persister.tables, old(persister.tables))
      ensures outcome != LastRootMismatch
      ensures outcome == Updated ==>
        upstream == manifest.contents && manifest.contents.root == newRoot &&
        novel == [] && mt.records == map[] &&
        Visible() == ManifestChunks() && ManifestChunks() == old(Visible()) &&
        old(ManifestChunks()) <= ManifestChunks()
      ensures outcome == LockFailedRoot ==>
        upstream == manifest.contents && manifest.contents == old(manifest.contents) &&
        manifest.contents.root != lastRoot
      ensures outcome == LockFailedTables ==>
        upstream == manifest.contents && upstream.root == lastRoot &&
        (|conjoiner.canned| < |old(conjoiner.canned)| ||
         (conjoiner.canned == old(conjoiner.canned) && old(upstream) != old(manifest.contents)))
      ensures outcome == ConjoinPanicked ==>
        upstream == old(upstream) && manifest.contents == old(manifest.contents) &&
        old(upstream.lock) != old(manifest.contents.lock) && old(conjoiner.ConjoinRequired())
      ensures outcome == Updated ==>
        old(manifest.contents.root) == lastRoot || old(manifest.contents.root) == newRoot
      ensures outcome == LockFailedTables && manifest.contents != old(manifest.contents) ==>
        old(manifest.contents.root) == lastRoot
      ensures outcome != Updated ==> Pending() == old(Pending())
      ensures outcome != Updated && old(ConjoinsPreserve()) ==>
        ConjoinsPreserve() && old(ManifestChunks()) <= ManifestChunks()
      ensures old(CommitCannotFail(lastRoot)) ==> outcome == Updated || outcome == LockFailedTables
      ensures old(InSync()) ==>
        outcome == Updated &&
        |manifest.contents.specs| == old(FlushedCount()) + |old(upstream.specs)| &&
        manifest.contents.specs[old(FlushedCount())..] == old(upstream.specs)
      ensures !old(conjoiner.ConjoinRequired()) ==> conjoiner.canned == old(conjoiner.canned)
    {
      ghost var before := persister.tables;
      ghost var preserved := ConjoinsPreserve();
      ghost var count := FlushedCount();
      FlushMemTable();
      assert |novel| == count;
      if preserved {
        conjoiner.PreservesExtends(persister.tables, before, manifest.contents.specs);
      }
      outcome := ConjoinOrSwap(newRoot, lastRoot);
    }

    /** With the memtable persisted: apply the conjoiner's next conjoin when
        one is required, and otherwise swap the manifest. */
    method ConjoinOrSwap(newRoot: Hash, lastRoot: Hash) returns (outcome: UpdateOutcome)
      requires Valid() && upstream.root == lastRoot && mt.records == map[]
      modifies this`upstream, this`novel, manifest, conjoiner
      ensures Valid()
      ensures outcome != LastRootMismatch
      ensures outcome == Updated ==>
        upstream == manifest.contents && manifest.contents.root == newRoot && novel == [] &&
        Visible() == ManifestChunks() && ManifestChunks() == old(Visible()) &&
        old(ManifestChunks()) <= ManifestChunks()
      ensures outcome == LockFailedRoot ==>
        upstream == manifest.contents && manifest.contents == old(manifest.contents) &&
        manifest.contents.root != lastRoot
      ensures outcome == LockFailedTables ==>
        upstream == manifest.contents && upstream.root == lastRoot &&
        (|conjoiner.canned| < |old(conjoiner.canned)| ||
         (conjoiner.canned == old(conjoiner.canned) && old(upstream) != old(manifest.contents)))
      ensures outcome == ConjoinPanicked ==>
        upstream == old(upstream) && manifest.contents == old(manifest.contents) &&
        old(upstream.lock) != old(manifest.contents.lock) && old(conjoiner.ConjoinRequired())
      ensures outcome == Updated ==>
        old(manifest.contents.root) == lastRoot || old(manifest.contents.root) == newRoot
      ensures outcome == LockFailedTables && manifest.contents != old(manifest.contents) ==>
        old(manifest.contents.root) == lastRoot
      ensures outcome != Updated ==> novel == old(novel)
      ensures outcome != Updated && old(ConjoinsPreserve()) ==>
        ConjoinsPreserve() && old(ManifestChunks()) <= ManifestChunks()
      ensures old(CommitCannotFail(lastRoot)) ==> outcome == Updated || outcome == LockFailedTables
      ensures old(InSync()) ==>
        outcome == Updated &&
        |manifest.contents.specs| == |old(novel)| + |old(upstream.specs)| &&
        manifest.contents.specs[|old(novel)|..] == old(upstream.specs)
      ensures !old(conjoiner.ConjoinRequired()) ==> conjoiner.canned == old(conjoiner.canned)
      ensures old(conjoiner.ConjoinRequired()) ==>
        conjoiner.canned == old(conjoiner.canned)[1..] && (outcome == LockFailedTables || outcome == ConjoinPanicked)
    {
      if conjoiner.ConjoinRequired() {
        var ok := ApplyConjoin();
        return if ok then LockFailedTables else ConjoinPanicked;
      }
      outcome := TryUpdate(newRoot, lastRoot);
    }

    /** Nothing written since the last commit and the root unchanged. */
    ghost predicate NothingToCommit(newRoot: Hash, lastRoot: Hash)
      reads this, mt
    {
      mt.records == map[] && novel == [] && newRoot == lastRoot
    }

    /** The state in which a commit from lastRoot cannot fail: the handle and
        the manifest are at lastRoot, and no conjoin runs on a stale handle. */
    ghost predicate CommitCannotFail(lastRoot: Hash)
      reads this, manifest, conjoiner
    {
      upstream.root == lastRoot && manifest.contents.root == lastRoot &&
      (upstream == manifest.contents || !conjoiner.ConjoinRequired())
    }

    /** The handle holds the manifest's current contents and no conjoin is due. */
    ghost predicate InSync()
      reads this, manifest, conjoiner
    {
      upstream == manifest.contents && !conjoiner.ConjoinRequired()
    }

    /** The number of novel tables once the memtable is flushed. */
    ghost function FlushedCount(): (count: nat)
      reads this, mt
    {
      |novel| + if mt.records == map[] then 0 else 1
    }

    /** The canned conjoins hold exactly the manifest's chunks. */
    ghost predicate ConjoinsPreserve()
      reads this, manifest, persister, conjoiner
      requires SharedValid()
    {
      conjoiner.PreservesContentOf(persister.tables, manifest.contents.specs)
    }

    /**
     * Commit(newRoot, lastRoot): make newRoot the manifest's root together
     * with everything this handle has written.  With nothing written and an
     * unchanged root it is a rebase.  A caller whose last root is stale, or
     * who loses to a writer that moved the root, gets false and the handle
     * adopts the manifest's root, keeping what it wrote.  Losing to a writer
     * that only added tables, or to this handle's own conjoin, is retried.
     */
    method Commit(newRoot: Hash, lastRoot: Hash) returns (r: Result<bool, ConjoinError>)
      requires Valid()
      modifies this`upstream, this`novel, this`mt, persister, manifest, conjoiner
      ensures Valid() && (mt == old(mt) || fresh(mt))
      ensures Extends(persister.tables, old(persister.tables))
      ensures putCount == old(putCount)
      ensures old(NothingToCommit(newRoot, lastRoot)) ==>
        r == Ok(true) && manifest.contents == old(manifest.contents)
      ensures !old(NothingToCommit(newRoot, lastRoot)) && old(upstream.root) != lastRoot ==>
        r == Ok(false) && upstream == old(upstream) && novel == old(novel) && mt == old(mt) &&
        manifest.contents == old(manifest.contents) && persister.tables == old(persister.tables)
      ensures r == Ok(true) ==>
        upstream == manifest.contents && novel == [] && mt.records == map[] &&
        Visible() == ManifestChunks() && old(Pending()) <= Visible()
      ensures r == Ok(true) && !old(NothingToCommit(newRoot, lastRoot)) ==>
        manifest.contents.root == newRoot &&
        (old(manifest.contents.root) == lastRoot || old(manifest.contents.root) == newRoot)
      ensures r == Ok(false) && old(upstream.root) == lastRoot ==>
        upstream == manifest.contents && manifest.contents.root != lastRoot &&
        Pending() == old(Pending())
      ensures r.Err? ==>
        manifest.contents == old(manifest.contents) && old(upstream.lock) != old(manifest.contents.lock) &&
        old(conjoiner.ConjoinRequired())
      ensures r.Ok? && old(ConjoinsPreserve()) ==> old(ManifestChunks()) <= ManifestChunks()
      ensures old(CommitCannotFail(lastRoot)) ==> r == Ok(true)
      ensures old(InSync()) && old(upstream.root) == lastRoot ==>
        r == Ok(true) && ManifestChunks() == old(Visible()) &&
        |manifest.contents.specs| == old(FlushedCount()) + |old(upstream.specs)| &&
        manifest.contents.specs[old(FlushedCount())..] == old(upstream.specs)
      ensures !old(conjoiner.ConjoinRequired()) ==> conjoiner.canned == old(conjoiner.canned)
    {
      if mt.records == map[] && novel == [] && newRoot == lastRoot {
        Rebase();
        return Ok(true);
      }
      if upstream.root != lastRoot {
        return Ok(false);
      }
      r := RetryUpdate(newRoot, lastRoot);
    }

    /** The retry loop of Commit: attempt the update until it succeeds or
        fails for a reason other than a tables-only conflict. */
    method RetryUpdate(newRoot: Hash, lastRoot: Hash) returns (r: Result<bool, ConjoinError>)
      requires Valid() && upstream.root == lastRoot
      modifies this`upstream, this`novel, this`mt, persister, manifest, conjoiner
      ensures Valid() && (mt == old(mt) || fresh(mt))
      ensures Extends(persister.tables, old(persister.tables))
      ensures r == Ok(true) ==>
        upstream == manifest.contents && manifest.contents.root == newRoot &&
        novel == [] && mt.records == map[] &&
        Visible() == ManifestChunks() && old(Pending()) <= Visible() &&
        (old(manifest.contents.root) == lastRoot || old(manifest.contents.root) == newRoot)
      ensures r == Ok(false) ==>
        upstream == manifest.contents && manifest.contents.root != lastRoot &&
        Pending() == old(Pending())
      ensures r.Err? ==>
        manifest.contents == old(manifest.contents) && old(upstream.lock) != old(manifest.contents.lock) &&
        old(conjoiner.ConjoinRequired())
      ensures r.Ok? && old(ConjoinsPreserve()) ==> old(ManifestChunks()) <= ManifestChunks()
      ensures old(CommitCannotFail(lastRoot)) ==> r == Ok(true)
      ensures old(InSync()) ==>
        ManifestChunks() == old(Visible()) &&
        |manifest.contents.specs| == old(FlushedCount()) + |old(upstream.specs)| &&
        manifest.contents.specs[old(FlushedCount())..] == old(upstream.specs)
      ensures !old(conjoiner.ConjoinRequired()) ==> conjoiner.canned == old(conjoiner.canned)
    {
      ghost var visible0 := Visible();
      ghost var count0 := FlushedCount();
      ghost var specs0 := upstream.specs;
      ghost var clean := InSync();
      ghost var pending0 := Pending();
      ghost var chunks0 := ManifestChunks();
      ghost var preserved := ConjoinsPreserve();
      ghost var guaranteed := CommitCannotFail(lastRoot);
      while true
        invariant Valid() && (mt == old(mt) || fresh(mt))
        invariant Extends(persister.tables, old(persister.tables))
        invariant upstream.root == lastRoot && Pending() == pending0
        invariant upstream != manifest.contents ==>
          upstream == old(upstream) && manifest.contents == old(manifest.contents) &&
          conjoiner.canned == old(conjoiner.canned)
        invariant preserved ==> ConjoinsPreserve() && chunks0 <= ManifestChunks()
        invariant guaranteed ==> CommitCannotFail(lastRoot)
        invariant manifest.contents == old(manifest.contents) || old(manifest.contents.root) == lastRoot
        invariant clean ==> InSync() && Visible() == visible0 && FlushedCount() == count0 && upstream.specs == specs0
        invariant !old(conjoiner.ConjoinRequired()) ==> conjoiner.canned == old(conjoiner.canned)
        decreases |conjoiner.canned|, if upstream == manifest.contents then 0 else 1
      {
        var outcome := UpdateManifest(newRoot, lastRoot);
        match outcome {
          case Updated => return Ok(true);
          case LastRootMismatch | LockFailedRoot => return Ok(false);
          case ConjoinPanicked => return Err(LockMismatch);
          case LockFailedTables =>
        }
      }
    }
  }
}
