/**
 * Chunks: immutable byte payloads addressed by a hash of their contents.
 *
 * The content hash is modelled as an injective function from payloads to
 * hashes that never yields the zero hash; no other property of the real
 * digest is used.
 */
module Chunks {

  type Bytes = seq<bv8>

  /** A chunk address (and, in the manifest, a root). */
  datatype Hash = Hash(digest: seq<bv8>)

  /** hash.Hash{}: the root of a store nothing has been committed to. */
  const ZeroHash: Hash := Hash([])

  /** The content hash of a payload. */
  function HashOf(data: Bytes): (h: Hash)
  {
    Hash([1] + data)
  }

  /** Hashes identify payloads, and no payload hashes to the zero hash. */
  lemma HashOfInjective(a: Bytes, b: Bytes)
    ensures HashOf(a) == HashOf(b) ==> a == b
    ensures HashOf(a) != ZeroHash
  {
    if HashOf(a) == HashOf(b) {
      assert a == HashOf(a).digest[1..];
      assert b == HashOf(b).digest[1..];
    }
    assert |HashOf(a).digest| > 0;
  }

  datatype Chunk = Chunk(hash: Hash, data: Bytes) {
    /** The empty chunk stands for "not found". */
    predicate IsEmpty() {
      |data| == 0
    }
  }

  /** chunks.NewChunk: a chunk whose hash is derived from its payload. */
  function NewChunk(data: Bytes): (c: Chunk)
  {
    Chunk(HashOf(data), data)
  }

  /** The sentinel returned by Get on a miss. */
  const EmptyChunk: Chunk := NewChunk([])

  /** A collection of chunk records keyed by hash: a memtable or a persisted table. */
  type Table = map<Hash, Bytes>

  /** Every record is content-addressed and non-empty. */
  ghost predicate WellFormed(t: Table)
  {
    forall h :: h in t ==> HashOf(t[h]) == h && |t[h]| > 0
  }

  /** In well-formed tables a hash determines its payload: two tables never
      disagree about the bytes stored under one hash. */
  lemma SameHashSameData(t: Table, u: Table, h: Hash)
    requires WellFormed(t) && WellFormed(u)
    requires h in t && h in u
    ensures t[h] == u[h]
  {
    HashOfInjective(t[h], u[h]);
  }

  /** The records of a table under the requested hashes. */
  function Select(t: Table, hashes: set<Hash>): (picked: Table)
  {
    map h | h in hashes && h in t :: t[h]
  }

  /** Merging well-formed tables gives a well-formed table holding the
      hashes of both. */
  lemma MergeWellFormed(a: Table, b: Table)
    requires WellFormed(a) && WellFormed(b)
    ensures WellFormed(a + b) && (a + b).Keys == a.Keys + b.Keys
  {
  }
}
