/**
 * The manifest: the single shared record of the current root and table
 * list, replaced only by compare-and-swap on its lock.
 *
 * The lock of a proposed contents is computed deterministically from its
 * root and table list.  It is modelled as an injective function (no two
 * different (root, specs) pairs share a lock); a manifest seeded from
 * outside may carry an arbitrary lock, which is never a computed one.
 */
module Manifests {
  import opened Chunks
  import opened Tables

  datatype Lock = Opaque(id: Bytes) | Generated(root: Hash, specs: seq<TableSpec>)

  /** The lock of a location no commit has written yet. */
  const ZeroLock: Lock := Opaque([])

  /** generateLockHash(root, specs). */
  function GenerateLock(root: Hash, specs: seq<TableSpec>): (lock: Lock)
  {
    Generated(root, specs)
  }

  /** manifestContents; the format version is left out. */
  datatype Contents = Contents(root: Hash, lock: Lock, specs: seq<TableSpec>)

  /** What a fetch of an empty location returns. */
  const EmptyContents: Contents := Contents(ZeroHash, ZeroLock, [])

  /** The contents a writer proposes: root, table list and their lock. */
  function ContentsOf(root: Hash, specs: seq<TableSpec>): (contents: Contents)
  {
    Contents(root, GenerateLock(root, specs), specs)
  }

  /** A computed lock is the lock of the root and specs it is stored with. */
  predicate WellLocked(c: Contents)
  {
    c.lock.Generated? ==> c.lock == GenerateLock(c.root, c.specs)
  }

  /**
   * Contents observed from one manifest agree when their locks agree: this
   * is what lets a writer compare a lock instead of the whole contents.
   */
  lemma SameLockSameContents(a: Contents, b: Contents, seed: Contents)
    requires WellLocked(a) && WellLocked(b)
    requires a.lock.Opaque? ==> a == seed
    requires b.lock.Opaque? ==> b == seed
    requires a.lock == b.lock
    ensures a == b
  {
    if a.lock.Generated? {
      assert a.root == a.lock.root && a.specs == a.lock.specs;
    }
  }

  /**
   * The manifest slot of one storage location.  seed is what the slot held
   * when it was created (EmptyContents for a fresh location); every later
   * value was installed by a successful Update.
   */
  class Manifest {
    const seed: Contents
    var contents: Contents

    ghost predicate Valid()
      reads this
    {
      WellLocked(seed) && WellLocked(contents) && (contents.lock.Opaque? ==> contents == seed)
    }

    constructor (seed: Contents)
      requires WellLocked(seed)
      ensures Valid() && this.seed == seed && contents == seed
    {
      this.seed := seed;
      contents := seed;
    }

    /** Fetch: the current contents. */
    method Fetch() returns (c: Contents)
      requires Valid()
      ensures c == contents && WellLocked(c) && (c.lock.Opaque? ==> c == seed)
    {
      c := contents;
    }

    /**
     * Update(prevLock, proposed): install the proposal only if the current
     * lock is still prevLock; either way return what the slot holds
     * afterwards.
     */
    method Update(prevLock: Lock, proposed: Contents) returns (actual: Contents)
      requires Valid() && proposed == ContentsOf(proposed.root, proposed.specs)
      modifies this
      ensures Valid()
      ensures old(contents).lock == prevLock ==> contents == proposed
      ensures old(contents).lock != prevLock ==> contents == old(contents)
      ensures actual == contents
    {
      if contents.lock == prevLock {
        contents := proposed;
      }
      actual := contents;
    }
  }
}
