/**
 * The fake conjoiner of the block-store tests: a queue of canned conjoins,
 * each of which, when applied, replaces the manifest's table list by its
 * own specs through one compare-and-swap, keeping the upstream root.
 */
module Conjoiners {
  import opened Wrappers
  import opened Chunks
  import opened Tables
  import opened Manifests

  /** cannedConjoin: whether a conjoin is required, and the table list it
      installs (naming tables that are already persisted). */
  datatype CannedConjoin = CannedConjoin(should: bool, specs: seq<TableSpec>)

  /** The panic of the fake conjoiner when its manifest update did not take. */
  datatype ConjoinError = LockMismatch

  class FakeConjoiner {
    var canned: seq<CannedConjoin>

    constructor (canned: seq<CannedConjoin>)
      ensures this.canned == canned
    {
      this.canned := canned;
    }

    /** Every canned table list names persisted tables. */
    ghost predicate NamesPersisted(tables: map<nat, Table>)
      reads this
    {
      forall cc :: cc in canned ==> NamesIn(tables, cc.specs)
    }

    /** The canned lists still name persisted tables after the persister grew. */
    lemma NamesPersistedExtends(later: map<nat, Table>, earlier: map<nat, Table>)
      requires NamesPersisted(earlier) && Extends(later, earlier)
      ensures NamesPersisted(later)
    {
      forall cc | cc in canned
        ensures NamesIn(later, cc.specs)
      {
        NamesInExtends(later, earlier, cc.specs);
      }
    }

    /**
     * Every canned table list holds exactly the chunks of the given table
     * list: applying any of them loses no chunk and adds none.
     */
    ghost predicate PreservesContentOf(tables: map<nat, Table>, specs: seq<TableSpec>)
      reads this
      requires NamesPersisted(tables) && NamesIn(tables, specs)
    {
      forall cc :: cc in canned ==> HashesOf(tables, cc.specs) == HashesOf(tables, specs)
    }

    /** ConjoinRequired: false on an empty queue, otherwise the head's verdict. */
    predicate ConjoinRequired()
      reads this
    {
      if |canned| == 0 then false else canned[0].should
    }

    /** Growing the persister changes neither what the canned lists name nor
        whether they preserve a list's hashes. */
    lemma PreservesExtends(later: map<nat, Table>, earlier: map<nat, Table>, specs: seq<TableSpec>)
      requires NamesPersisted(earlier) && NamesIn(earlier, specs) && Extends(later, earlier)
      requires PreservesContentOf(earlier, specs)
      ensures NamesPersisted(later) && NamesIn(later, specs)
      ensures PreservesContentOf(later, specs)
    {
      NamesPersistedExtends(later, earlier);
      HashesOfFrame(later, earlier, specs);
      forall cc | cc in canned
        ensures HashesOf(later, cc.specs) == HashesOf(later, specs)
      {
        HashesOfFrame(later, earlier, cc.specs);
      }
    }

    /**
     * Conjoin(upstream, mm, p): pop the head of the queue and propose its
     * table list with the upstream root, against the upstream lock.  The
     * fake panics (Err) unless the manifest then carries the proposal's
     * lock.  Calling it on an empty queue is a programmer error.  When the
     * queue preserves the hashes of the manifest's list, so does the list
     * it installs.
     */
    method Conjoin(upstream: Contents, mm: Manifest, p: Persister) returns (r: Result<Contents, ConjoinError>)
      requires |canned| > 0 && mm.Valid()
      requires NamesPersisted(p.tables) && NamesIn(p.tables, mm.contents.specs)
      modifies this, mm
      ensures mm.Valid()
      ensures canned == old(canned)[1..]
      ensures NamesPersisted(p.tables) && NamesIn(p.tables, mm.contents.specs)
      ensures old(mm.contents).lock == upstream.lock ==>
        mm.contents == ContentsOf(upstream.root, old(canned)[0].specs) && r == Ok(mm.contents)
      ensures old(mm.contents).lock != upstream.lock ==> mm.contents == old(mm.contents)
      ensures r.Ok? <==> mm.contents.lock == GenerateLock(upstream.root, old(canned)[0].specs)
      ensures r.Ok? ==> r.value == mm.contents
      ensures old(PreservesContentOf(p.tables, mm.contents.specs)) ==>
        PreservesContentOf(p.tables, mm.contents.specs) &&
        HashesOf(p.tables, mm.contents.specs) == HashesOf(p.tables, old(mm.contents.specs))
    {
      var head := canned[0];
      canned := canned[1..];
      var newContents := ContentsOf(upstream.root, head.specs);
      var actual := mm.Update(upstream.lock, newContents);
      if actual.lock != newContents.lock {
        return Err(LockMismatch);
      }
      r := Ok(actual);
    }
  }
}
