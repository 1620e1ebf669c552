# Noms block store and column-tag allocation, modelled in Dafny

This project models two parts of Dolt's Go code base.

**The Noms block store (NBS) handle contract.**
This is the behaviour the block-store suite in `go/store/nbs/block_store_test.go` pins down for a `NomsBlockStore`, a handle on a content-addressed chunk store:

- **Chunks** are byte payloads addressed by the hash of their contents. The hash is modelled as an injective function that never yields the zero hash.
- **Persisted tables** are immutable collections of chunk records. A **table persister** shared by every handle on one location writes them, and only ever adds tables.
- **The manifest** is the one shared record of the current root and table list. It is replaced only by a compare-and-swap on its lock. A computed lock is derived injectively from the root and the table list. A manifest seeded from outside may carry an arbitrary lock.
- **A handle** has four parts:
  - its *upstream*: the manifest contents it last observed;
  - its *novel tables*: tables it flushed itself and has not committed, newest first;
  - an open **memtable** with a byte budget of 256 bytes in the tests;
  - a put counter.
- **Reads.** `Get`, `Has`, `HasMany` and `GetMany` consult the memtable, then the novel tables, then the upstream tables. `Get` of an absent hash returns the empty chunk.
- **Put** adds a chunk to the memtable. A new chunk that does not fit in the rest of the budget first flushes the memtable into a new table.
- **Commit(newRoot, lastRoot)** works like this:
  - It rebases when there is nothing to write and the root is unchanged.
  - It fails (false) when lastRoot is not the handle's cached root.
  - Otherwise it flushes, then applies a conjoin when the conjoiner asks for one, or swaps the manifest.
  - A swap that loses to a writer that moved the root fails. A swap that loses to a writer that only changed the tables is retried.
- **The fake conjoiner** of the suite replays a queue of canned table lists. It installs each list with the upstream root through one compare-and-swap.
- **The scenarios** of the suite are modelled as methods whose postconditions are the suite's assertions:
  - Put and putCount;
  - two chunks overflowing one memtable;
  - GetMany and HasMany;
  - Get of a missing chunk;
  - optimistic-lock failure between two handles;
  - rebase on a no-op commit;
  - put with rebase;
  - conjoin on commit, without a conjoin, with one and with two queued.

**`AutoGenerateTag`** (`go/libraries/doltcore/schema/tag.go`). The allocator picks a column tag for a new column in two loops:

- It grows a tag range from 128·128 by factors of 128 until half the range covers the column count. It detects 64-bit wrap-around of the growth step, clamps to `ReservedTagMin - 1`, and panics once clamped.
- It then draws tags from `[0, range)` until it finds one that no existing column uses. Each draw is `Int63n` of the range converted to int64, which panics when that bound is not positive: for 2^55 < n ≤ 2^62 columns the range is 2^63 and the conversion is negative.

The random source is a parameter: a finite sequence of draws.

Modules:

| file | module | contents |
|---|---|---|
| `wrappers.dfy` | `Wrappers` | the optional value and the success-or-error result |
| `chunks.dfy` | `Chunks` | bytes, hashes, chunks, tables of records |
| `tables.dfy` | `Tables` | table specs, the persister, table-set reads, conjoining |
| `manifest.dfy` | `Manifests` | locks, manifest contents, the compare-and-swap slot |
| `conjoiner.dfy` | `Conjoiners` | the fake conjoiner |
| `mem_table.dfy` | `MemTables` | the memtable and its byte budget |
| `block_store.dfy` | `BlockStore` | the `NomsBlockStore` handle |
| `block_store_tests.dfy` | `BlockStoreTests` | single-handle scenarios and conjoin on commit |
| `handle_tests.dfy` | `HandleTests` | scenarios with two handles on one location |
| `tag.dfy` | `Tag` | tag constants and `AutoGenerateTag` |

Several things are expressed as sets of hashes:

- what a handle can read: `Visible()`;
- what it wrote and has not committed: `Pending()`;
- what the manifest lists: `ManifestChunks()`.

Tables are well-formed: every record is stored under the hash of its payload. Together with the injective hash, this fixes the bytes behind every hash, so a chunk read back is the chunk written.

## Model

| member | source | states |
|---|---|---|
| Chunks.HashOfInjective | go/store/nbs/block_store_test.go:69-75 | equal chunk hashes mean equal payloads, and no payload hashes to the zero hash |
| Chunks.SameHashSameData | go/store/nbs/block_store_test.go:548-553 | two well-formed tables holding one hash hold the same bytes under it |
| Tables.ContentOfHashes | go/store/nbs/block_store_test.go:444-451 | the merged records of a table list hold exactly the hashes of its tables and are content-addressed |
| Tables.HashesOfHas | go/store/nbs/block_store_test.go:402-416 | a hash is in a table list exactly when one of its tables holds it |
| Tables.HashesOfAppend | go/store/nbs/block_store_test.go:450-451 | the hashes of a concatenated table list are the union of the parts' hashes |
| Tables.HashesOfFrame | go/store/nbs/block_store_test.go:446-449 | writing new tables does not change what an existing table list holds |
| Tables.TableSetGet | go/store/nbs/block_store_test.go:548-560 | a lookup over a table list finds a payload exactly when some table holds the hash, and the payload hashes to it |
| Tables.TableSetHas | go/store/nbs/block_store_test.go:320-322 | true exactly when some table of the list holds the hash |
| Tables.TableSetHasMany | go/store/nbs/block_store_test.go:227-235 | returns exactly the requested hashes no table of the list holds |
| Tables.TableSetGetMany | go/store/nbs/block_store_test.go:196-207 | returns a content-addressed record for exactly the requested hashes the list holds |
| Tables.Persister.Persist | go/store/nbs/block_store_test.go:146-170 | a non-empty memtable becomes a new table under a fresh name, and no existing table changes |
| Tables.Persister.ConjoinAll | go/store/nbs/block_store_test.go:444-451 | writes one new table holding the merged records of the given tables, and no existing table changes |
| Tables.ConjoinPreservesHashes | go/store/nbs/block_store_test.go:444-451 | a conjoined table followed by the keepers holds exactly the hashes of the conjoinees and the keepers |
| Manifests.SameLockSameContents | go/store/nbs/block_store_test.go:535-544 | two contents observed from one manifest with equal locks are equal, which is why a lock comparison suffices |
| Manifests.Manifest.Fetch | go/store/nbs/block_store_test.go:363-369 | returns the current contents, which are well-locked |
| Manifests.Manifest.Update | go/store/nbs/block_store_test.go:538-539 | installs the proposal exactly when the current lock is the expected one, otherwise changes nothing, and returns what the slot then holds |
| Conjoiners.FakeConjoiner.NamesPersistedExtends | go/store/nbs/block_store_test.go:510-513 | canned lists that name persisted tables keep doing so as the persister grows |
| Conjoiners.FakeConjoiner.PreservesExtends | go/store/nbs/block_store_test.go:510-513 | a queue whose lists hold exactly the manifest's chunks keeps that property as the persister grows |
| Conjoiners.FakeConjoiner.Conjoin | go/store/nbs/block_store_test.go:526-546 | pops the head. When the manifest still has the upstream lock, it installs the head's list with the upstream root and returns it. Otherwise the manifest is unchanged, and the result is the panic unless the manifest already carries the proposal's lock. A queue preserving the manifest's chunks still does so afterwards, and the manifest's chunks are unchanged |
| MemTables.SizeOfRemove | go/store/nbs/block_store_test.go:146-170 | the byte total of a memtable's records is the same whichever record is counted first |
| MemTables.SizeOfAdd | go/store/nbs/block_store_test.go:146-170 | adding a new record adds its payload length to the byte total |
| MemTables.MemTable.AddChunk | go/store/nbs/block_store_test.go:146-170 | accepts a record already present without change. Accepts a new record exactly when it fits in the budget, adding its length to the total. A refused record leaves the memtable as it was |
| BlockStore.FlushFacts | go/store/nbs/block_store_test.go:146-170 | persisting the memtable and putting it in front of the novel tables adds exactly its hashes, and changes no other table list |
| BlockStore.SwapFacts | go/store/nbs/block_store_test.go:113-117 | the list a commit proposes holds exactly the novel and upstream hashes and ends with the upstream list |
| BlockStore.NomsBlockStore.TableSetParts | go/store/nbs/block_store_test.go:170 | the table set holds exactly the novel and upstream hashes |
| BlockStore.NomsBlockStore.constructor | go/store/nbs/block_store_test.go:429 | a new handle holds the manifest's current contents, no novel tables, an empty memtable and a zero put counter |
| BlockStore.NomsBlockStore.FlushMemTable | go/store/nbs/block_store_test.go:146-170 | a non-empty memtable becomes one new novel table holding exactly its records. Afterwards the memtable is empty, and the visible, pending and manifest chunks are unchanged |
| BlockStore.NomsBlockStore.Put | go/store/nbs/block_store_test.go:67-103 | accepted exactly when 0 < length ≤ budget. An accepted chunk becomes visible and pending, and nothing else does. putCount grows exactly when the chunk is new to the memtable. An overflow writes exactly one table, and the byte total restarts from the chunk |
| BlockStore.NomsBlockStore.FlushAndAdd | go/store/nbs/block_store_test.go:146-170 | an overflowing chunk persists the old memtable as one table and is alone in the new memtable |
| BlockStore.NomsBlockStore.Get | go/store/nbs/block_store_test.go:548-560 | a visible hash yields a non-empty chunk whose payload hashes to it. Any other hash yields the empty chunk |
| BlockStore.NomsBlockStore.Has | go/store/nbs/block_store_test.go:320-337 | true exactly when the hash is visible |
| BlockStore.NomsBlockStore.HasMany | go/store/nbs/block_store_test.go:227-235 | returns exactly the requested hashes that are not visible |
| BlockStore.NomsBlockStore.GetMany | go/store/nbs/block_store_test.go:196-207 | returns a content-addressed record for exactly the requested hashes that are visible |
| BlockStore.NomsBlockStore.Rebase | go/store/nbs/block_store_test.go:363-369 | adopts the manifest's contents. The pending chunks stay, and the handle then sees exactly them plus the manifest's chunks |
| BlockStore.NomsBlockStore.ApplyConjoin | go/store/nbs/block_store_test.go:526-546 | applies the next canned conjoin against the upstream lock. On success the handle adopts the installed contents at the same root. On a stale upstream nothing changes. The manifest's chunks are kept when the queue preserves them |
| BlockStore.NomsBlockStore.TryUpdate | go/store/nbs/block_store_test.go:260-304 | one compare-and-swap. Success installs the new root over the novel and upstream tables, empties the novel list, and makes the manifest hold exactly what the handle saw. Failure adopts the manifest, keeps the novel tables, and reports whether the root or only the tables moved. An up-to-date upstream always succeeds |
| BlockStore.NomsBlockStore.UpdateManifest | go/store/nbs/block_store_test.go:260-304 | a stale lastRoot fails at once and changes nothing. Otherwise it flushes, then conjoins or swaps, with each outcome's new state as in TryUpdate and ApplyConjoin |
| BlockStore.NomsBlockStore.FlushAndSwap | go/store/nbs/block_store_test.go:454-507 | flushes the memtable, then conjoins when one is due or swaps the manifest. From an in-sync handle the swap succeeds with exactly the flushed tables in front of the old list |
| BlockStore.NomsBlockStore.ConjoinOrSwap | go/store/nbs/block_store_test.go:480-507 | with the memtable flushed: when the conjoiner's queue says a conjoin is due, exactly that head entry is popped and applied and the outcome is a tables-only conflict or the conjoiner's panic; otherwise the queue is untouched and the compare-and-swap of the manifest is attempted |
| BlockStore.NomsBlockStore.RetryUpdate | go/store/nbs/block_store_test.go:480-507 | retries after tables-only conflicts until success, a moved root or a conjoiner panic. On success every pending chunk is in the manifest, and the manifest's chunks are kept when the queue preserves them |
| BlockStore.NomsBlockStore.Commit | go/store/nbs/block_store_test.go:294-333 | With nothing to write and an unchanged root it rebases and succeeds. A stale lastRoot gives false and changes nothing. A moved root gives false, with the manifest adopted and the pending chunks kept. Success sets the root, and the manifest then lists everything the handle wrote and saw. It cannot fail from the manifest's own root |
| BlockStoreTests.NewStore | go/store/nbs/block_store_test.go:38-46 | a new local store is in sync with an empty manifest, has a 256-byte budget, and sees nothing |
| BlockStoreTests.CommitFromRoot | go/store/nbs/block_store_test.go:113-117 | a commit from the cached root of an in-sync handle succeeds and keeps exactly the visible chunks |
| BlockStoreTests.PutChunk | go/store/nbs/block_store_test.go:67-72 | a put chunk becomes visible and pending, and the put counter grows unless the memtable held it |
| BlockStoreTests.GetBack | go/store/nbs/block_store_test.go:548-553 | a visible chunk reads back with its bytes |
| BlockStoreTests.PutCommitGet | go/store/nbs/block_store_test.go:67-88 | put, commit and read back: the commit succeeds and the chunk reads back |
| BlockStoreTests.PutGetCommit | go/store/nbs/block_store_test.go:89-98 | put, read back before any commit, then commit from the cached root: the chunk reads back and the commit succeeds |
| BlockStoreTests.ChunkStorePut | go/store/nbs/block_store_test.go:67-103 | "abc" commits and reads back, and the put counter is 1. Putting it again, it reads back, the second commit succeeds, and the counter is 2 |
| BlockStoreTests.PutPair | go/store/nbs/block_store_test.go:105-111 | two put chunks become visible, and two new chunks count two puts |
| BlockStoreTests.PutPairCommit | go/store/nbs/block_store_test.go:105-117 | two chunks put and committed together: the commit succeeds and both are visible |
| BlockStoreTests.ChunkStorePutMany | go/store/nbs/block_store_test.go:105-125 | "abc" and "def" commit and read back, and the put counter is 2 |
| BlockStoreTests.ChunkStoreGetNonExisting | go/store/nbs/block_store_test.go:555-560 | Get of any hash on a new store is the empty chunk |
| BlockStoreTests.GetPair | go/store/nbs/block_store_test.go:164-166 | two visible chunks read back with their bytes |
| BlockStoreTests.PutIntoEmpty | go/store/nbs/block_store_test.go:153-154 | a chunk put into an empty memtable stays there and writes no table |
| BlockStoreTests.PutOverflowing | go/store/nbs/block_store_test.go:155-156 | a chunk that does not fit writes one table and starts the next memtable |
| BlockStoreTests.PutOverflowingPair | go/store/nbs/block_store_test.go:146-156 | two chunks that do not fit together end up in two tables once flushed, counting two puts |
| BlockStoreTests.OverflowAndCommit | go/store/nbs/block_store_test.go:146-170 | committing those two chunks leaves exactly two tables in the table set |
| BlockStoreTests.ChunkStorePutMoreThanMemTable | go/store/nbs/block_store_test.go:146-171 | two 129-byte chunks commit and read back, count two puts, and end up in two tables |
| BlockStoreTests.PutTriple | go/store/nbs/block_store_test.go:180-184 | three put chunks become visible |
| BlockStoreTests.ChunkStoreGetMany | go/store/nbs/block_store_test.go:173-208 | after committing three chunks, GetMany of their hashes returns exactly those three, content-addressed |
| BlockStoreTests.StoreWithAbcDef | go/store/nbs/block_store_test.go:210-224 | after committing "abc" and "def" the store sees exactly those two |
| BlockStoreTests.ChunkStoreHasMany | go/store/nbs/block_store_test.go:210-236 | HasMany of "abc", "def" and "ghi" reports exactly "ghi" absent |
| BlockStoreTests.NoConjoin | go/store/nbs/block_store_test.go:424-442 | with nothing queued, put and commit succeed and the chunk is there |
| BlockStoreTests.PersistStep | go/store/nbs/block_store_test.go:458-459 | persisting one more source table extends the spec list's hashes by that table's |
| BlockStoreTests.PersistAll | go/store/nbs/block_store_test.go:458-459 | persisting the sources gives one spec per source, holding exactly their hashes |
| BlockStoreTests.MakeCanned | go/store/nbs/block_store_test.go:444-452 | a canned conjoin is required and holds exactly the hashes of the conjoinees and keepers |
| BlockStoreTests.QueueHoldsExtends | go/store/nbs/block_store_test.go:444-452 | a queue of canned conjoins still holds as the persister grows |
| BlockStoreTests.QueueConjoins | go/store/nbs/block_store_test.go:487-492 | one required conjoin per split point, each holding exactly the hashes of the whole list |
| BlockStoreTests.SeededLocation | go/store/nbs/block_store_test.go:455-465 | the seeded manifest lists exactly the source chunks under an opaque lock, and its queue preserves them |
| BlockStoreTests.PutCommitConjoining | go/store/nbs/block_store_test.go:466-473 | put and commit with conjoins queued: the commit succeeds and the handle sees the new chunk and every chunk the manifest held |
| BlockStoreTests.HasAll | go/store/nbs/block_store_test.go:474-477 | Has and HasMany agree with the visible chunks |
| BlockStoreTests.ConjoinOnCommit | go/store/nbs/block_store_test.go:454-507 | with one or two conjoins queued (ConjoinSuccess, ConjoinRetry) the commit succeeds, the new chunk is there, and no source chunk is absent |
| HandleTests.PairSymmetric | go/store/nbs/block_store_test.go:266 | two handles on one location form a pair in either order |
| HandleTests.NewPair | go/store/nbs/block_store_test.go:266 | two new handles on one empty location, each seeing nothing |
| HandleTests.OtherUnchanged | go/store/nbs/block_store_test.go:275-286 | a handle another handle worked beside stays valid, and its visible and pending chunks are unchanged |
| HandleTests.PutBeside | go/store/nbs/block_store_test.go:355-356 | a put on one handle adds the chunk to its view only |
| HandleTests.CommitBeside | go/store/nbs/block_store_test.go:275-281 | a commit that cannot fail succeeds. The writer then sees exactly the manifest's chunks, which include its pending ones and the old manifest's. The other handle is unaffected |
| HandleTests.PutCommitBeside | go/store/nbs/block_store_test.go:267-273 | put then commit beside another handle: the chunk is in the manifest |
| HandleTests.StaleCommit | go/store/nbs/block_store_test.go:294-297 | a commit from a stale last root fails |
| HandleTests.InterloperCommits | go/store/nbs/block_store_test.go:266-273 | the interloper's commit succeeds, and the other handle still caches the empty root and sees nothing |
| HandleTests.LockFailFirstRound | go/store/nbs/block_store_test.go:260-286 | both commits from the empty root succeed, and the store then sees both chunks |
| HandleTests.LockFailSecondRound | go/store/nbs/block_store_test.go:288-304 | the interloper's root commit succeeds, the store's commit from the stale root fails, and its commit from the adopted root succeeds |
| HandleTests.ChunkStoreFlushOptimisticLockFail | go/store/nbs/block_store_test.go:260-305 | the whole scenario: true, true, both reads, true, false, true |
| HandleTests.NoOpCommitThenRead | go/store/nbs/block_store_test.go:328-337 | a commit with nothing to write succeeds by rebasing, and the manifest's chunk then reads back |
| HandleTests.ChunkStoreRebaseOnNoOpFlush | go/store/nbs/block_store_test.go:307-338 | the store lacks c1 and has the zero root. After the no-op commit it reads and has c1 |
| HandleTests.StorePutsBeside | go/store/nbs/block_store_test.go:343-356 | after the interloper commits c1 and the store puts c2, the store sees only c2 |
| HandleTests.ReadAroundRebase | go/store/nbs/block_store_test.go:358-369 | a pending chunk reads back before and after a rebase. A manifest chunk is had before exactly when visible, and reads back after |
| HandleTests.PutWithRebaseFirstHalf | go/store/nbs/block_store_test.go:340-369 | the store reads c2 and lacks c1, and after a rebase it reads both |
| HandleTests.RootStaysBeside | go/store/nbs/block_store_test.go:376-381 | Root is the handle's cached root: after the other handle commits a new root, this handle's Root is still what it was, while the manifest holds the new root |
| HandleTests.RebaseAndCommit | go/store/nbs/block_store_test.go:382-390 | rebase adopts the manifest's root as Root, then the commit from it succeeds and puts the pending chunk in the manifest |
| HandleTests.RebaseThenRead | go/store/nbs/block_store_test.go:392-397 | a manifest chunk is had before a rebase exactly when visible, and reads back after |
| HandleTests.PutWithRebaseSecondHalf | go/store/nbs/block_store_test.go:371-391 | the interloper's root commit succeeds, the store still has the empty root until it rebases onto c1, and its rebased commit succeeds. The interloper does not yet see c2 |
| HandleTests.ChunkStorePutWithRebase | go/store/nbs/block_store_test.go:340-398 | the whole scenario, ending with the interloper lacking c2 before its rebase and reading it after |
| Tag.ReservedTagsDistinct | go/libraries/doltcore/schema/tag.go:23-36 | the reserved tags are ReservedTagMin and ReservedTagMin + 1, distinct from each other and from InvalidTag = 2^64 - 1 |
| Tag.GrowRangeCovers | go/libraries/doltcore/schema/tag.go:41-52 | when the growth loop ends without panicking, half the range covers the column count |
| Tag.GrowStep | go/libraries/doltcore/schema/tag.go:47-51 | from a reachable range the multiply-by-128 step wraps only at 2^63, and otherwise lands on a reachable range |
| Tag.OverflowCheckExactOnReachableRanges | go/libraries/doltcore/schema/tag.go:47-48 | on every reachable range the wrapped-product test detects exactly a true overflow of uint64 |
| Tag.TagRangeValues | go/libraries/doltcore/schema/tag.go:41-52 | the range is the first of 2^14, 2^21, …, 2^63 whose half covers the column count. Beyond 2^62 columns the loop panics |
| Tag.TagRangePanicsIff | go/libraries/doltcore/schema/tag.go:44-46 | the growth loop panics exactly when there are more than 2^62 columns |
| Tag.RangeFitsInt63Iff | go/libraries/doltcore/schema/tag.go:56 | the range converts to a positive int64 except for 2^55 < n ≤ 2^62 columns, where it is 2^63 |
| Tag.ToInt64 | go/libraries/doltcore/schema/tag.go:56 | the int64 conversion keeps the value modulo 2^64 within [-2^63, 2^63), and is positive exactly for 0 < v < 2^63 |
| Tag.Draw | go/libraries/doltcore/schema/tag.go:56 | a draw brought into the range is below the range |
| Tag.Int63nPanicsIff | go/libraries/doltcore/schema/tag.go:56 | whatever the draws, the first Int63n call panics exactly when 2^55 < n ≤ 2^62 columns, where the range 2^63 converts to a negative int64 |
| Tag.FirstFreeDrawSound | go/libraries/doltcore/schema/tag.go:54-61 | the rejection loop returns a draw below the range that no column uses. It finds none exactly when every remaining draw is used |
| Tag.GeneratedTagIsFree | go/libraries/doltcore/schema/tag.go:40-64 | a generated tag is below a range covering twice the column count, and no column uses it |
| Tag.FreeTagExists | go/libraries/doltcore/schema/tag.go:54-61 | with fewer columns than the range, some tag in the range is free |
| Tag.SomeDrawSucceeds | go/libraries/doltcore/schema/tag.go:54-61 | up to 2^55 columns, where neither loop panics, some draw sequence yields a tag |
| Tag.GeneratedTagNotReserved | go/libraries/doltcore/schema/tag.go:23-64 | with at most 2^48 columns a generated tag is below ReservedTagMin |
| Tag.ReservedTagReachable | go/libraries/doltcore/schema/tag.go:23-64 | with more than 2^48 columns a draw of DocNameTag is returned when no column uses it |
| Tag.AutoGenerateTag | go/libraries/doltcore/schema/tag.go:40-64 | the loops compute GenerateTag. A generated tag is free and below the range. The result is the growth loop's panic exactly when there are more than 2^62 columns, and Int63n's panic exactly when 2^55 < n ≤ 2^62 |

## Left out

- The real content digest is not modelled. An injective stand-in takes its place, so the printed hash string in the Put test is not reproduced.
- The encodings of locks and table names are modelled structurally. A lock is its root and table list; a table name is a counter handed out by the persister, not the hash of the table's bytes.
- The manifest format version is not modelled.
- I/O is not modelled: the filesystem constructor `NewLocalStore`, the tests on missing or non-directory paths, and `Close`. A local store is a handle on a fresh in-memory location.
- Channels and goroutines are not modelled. `GetMany` returns a map instead of sending on a channel, and the handles in the two-handle scenarios take turns.
- `extractChunks` and its test are not modelled; they are streaming over a channel.
- `StatsSummary` and the `Stats` counters are not modelled; they do not affect the store's contents.
- The production conjoiner and the store's internal pre-check of whether an update will fail are not modelled: the store implementation files are not part of this model. A new local store uses a fake conjoiner with an empty queue. A stale handle learns of the conflict from the compare-and-swap. Consequently, on a stale handle whose conjoiner queue says a conjoin is due, the fake conjoiner's compare-and-swap fails and Commit returns Err(LockMismatch), whereas the real store would first notice the stale lock, rebase and retry.
- BlockStore.NomsBlockStore.Put: the refusal of the empty chunk and of a chunk larger than the whole budget is a decision of this model. The Go memtable that makes this choice is not part of this model.
- MemTables.MemTable: the insertion order of memtable records is not kept, because no modelled operation reads it.
- BlockStore.NomsBlockStore.Commit: when the fake conjoiner panics it is modelled as an error result, not as a Go panic.
- The random generator is not modelled. `Int63n` is modelled as a draw reduced modulo the range, from an explicit finite sequence of draws.
- Tag.AutoGenerateTag: a draw sequence that runs out before a free tag is found ends with `DrawsExhausted`, where the Go loop would keep drawing. The column count is taken below 2^63, as Go's int size of a column collection is.
- `go/libraries/doltcore/env/actions/merge.go` is not part of this model.
