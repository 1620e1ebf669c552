/**
 * Persisted tables and the table persister.
 *
 * A persisted table is an immutable collection of chunk records.  The
 * persister is the durable medium shared by every store handle opened on
 * the same location: it maps table names to tables, only ever adds new
 * tables, and never changes one once written.  A table list (the specs a
 * manifest or a table set holds) is read as the union of its tables, the
 * earlier table answering first.
 */
module Tables {
  import opened Wrappers
  import opened Chunks

  /** tableSpec: the name of a persisted table and its number of records. */
  datatype TableSpec = TableSpec(name: nat, chunkCount: nat)

  /** Every spec of the list names a table the persister holds. */
  ghost predicate NamesIn(tables: map<nat, Table>, specs: seq<TableSpec>)
  {
    forall s :: s in specs ==> s.name in tables
  }

  ghost predicate AllWellFormed(tables: map<nat, Table>)
  {
    forall n :: n in tables ==> WellFormed(tables[n])
  }

  /** The later map keeps every table of the earlier one, unchanged. */
  ghost predicate Extends(later: map<nat, Table>, earlier: map<nat, Table>)
  {
    forall n :: n in earlier ==> n in later && later[n] == earlier[n]
  }

  /** The records of a table list merged into one table; where two tables
      hold a hash the earlier answers (in well-formed tables they agree). */
  function ContentOf(tables: map<nat, Table>, specs: seq<TableSpec>): (records: Table)
    requires NamesIn(tables, specs)
  {
    if specs == [] then map[] else ContentOf(tables, specs[1..]) + tables[specs[0].name]
  }

  /** The hashes a table list holds. */
  ghost function HashesOf(tables: map<nat, Table>, specs: seq<TableSpec>): (hashes: set<Hash>)
    requires NamesIn(tables, specs)
  {
    if specs == [] then {} else tables[specs[0].name].Keys + HashesOf(tables, specs[1..])
  }

  /** The merged table holds exactly the hashes of the list, content-addressed. */
  lemma {:induction false} ContentOfHashes(tables: map<nat, Table>, specs: seq<TableSpec>)
    requires NamesIn(tables, specs) && AllWellFormed(tables)
    ensures ContentOf(tables, specs).Keys == HashesOf(tables, specs)
    ensures WellFormed(ContentOf(tables, specs))
  {
    if specs != [] {
      ContentOfHashes(tables, specs[1..]);
    }
  }

  /** A hash is in a table list exactly when one of its tables holds it. */
  lemma {:induction false} HashesOfHas(tables: map<nat, Table>, specs: seq<TableSpec>, h: Hash)
    requires NamesIn(tables, specs)
    ensures h in HashesOf(tables, specs) <==>
      exists i :: 0 <= i < |specs| && h in tables[specs[i].name]
  {
    if specs != [] {
      HashesOfHas(tables, specs[1..], h);
      if h in HashesOf(tables, specs[1..]) {
        var i :| 0 <= i < |specs[1..]| && h in tables[specs[1..][i].name];
        assert h in tables[specs[i + 1].name];
      }
      if exists i :: 0 <= i < |specs| && h in tables[specs[i].name] {
        var i :| 0 <= i < |specs| && h in tables[specs[i].name];
        if i > 0 {
          assert specs[1..][i - 1] == specs[i];
        }
      }
    }
  }

  /** The hashes of a concatenated list are those of its two parts. */
  lemma {:induction false} HashesOfAppend(tables: map<nat, Table>, a: seq<TableSpec>, b: seq<TableSpec>)
    requires NamesIn(tables, a) && NamesIn(tables, b)
    ensures NamesIn(tables, a + b)
    ensures HashesOf(tables, a + b) == HashesOf(tables, a) + HashesOf(tables, b)
  {
    if a == [] {
      assert a + b == b;
    } else {
      assert (a + b)[1..] == a[1..] + b;
      HashesOfAppend(tables, a[1..], b);
    }
  }

  /** Adding tables to the persister does not change what a list of existing
      tables holds. */
  lemma {:induction false} HashesOfFrame(later: map<nat, Table>, earlier: map<nat, Table>, specs: seq<TableSpec>)
    requires NamesIn(earlier, specs) && Extends(later, earlier)
    ensures NamesIn(later, specs)
    ensures HashesOf(later, specs) == HashesOf(earlier, specs)
  {
    if specs != [] {
      HashesOfFrame(later, earlier, specs[1..]);
    }
  }

  /** A table list still names its tables after the persister has grown. */
  lemma NamesInExtends(later: map<nat, Table>, earlier: map<nat, Table>, specs: seq<TableSpec>)
    requires NamesIn(earlier, specs) && Extends(later, earlier)
    ensures NamesIn(later, specs)
  {
  }

  /**
   * tableSet.get: ask the tables in order and stop at the first that holds
   * the hash.  What it returns is content-addressed, so it is the one payload
   * stored under the hash anywhere.
   */
  method TableSetGet(tables: map<nat, Table>, specs: seq<TableSpec>, h: Hash) returns (r: Option<Bytes>)
    requires NamesIn(tables, specs) && AllWellFormed(tables)
    ensures r.Some? <==> h in HashesOf(tables, specs)
    ensures r.Some? ==> HashOf(r.value) == h && |r.value| > 0
  {
    HashesOfHas(tables, specs, h);
    var i := 0;
    while i < |specs|
      invariant 0 <= i <= |specs|
      invariant forall j :: 0 <= j < i ==> h !in tables[specs[j].name]
    {
      var t := tables[specs[i].name];
      if h in t {
        assert WellFormed(t);
        return Some(t[h]);
      }
      i := i + 1;
    }
    r := None;
  }

  /** tableSet.has: whether any table of the list holds the hash. */
  method TableSetHas(tables: map<nat, Table>, specs: seq<TableSpec>, h: Hash) returns (b: bool)
    requires NamesIn(tables, specs)
    ensures b <==> h in HashesOf(tables, specs)
  {
    HashesOfHas(tables, specs, h);
    var i := 0;
    while i < |specs|
      invariant 0 <= i <= |specs|
      invariant forall j :: 0 <= j < i ==> h !in tables[specs[j].name]
    {
      if h in tables[specs[i].name] {
        return true;
      }
      i := i + 1;
    }
    b := false;
  }

  /** The hashes of a prefix one table longer. */
  lemma PrefixStep(tables: map<nat, Table>, specs: seq<TableSpec>, i: nat)
    requires NamesIn(tables, specs) && i < |specs|
    ensures NamesIn(tables, specs[..i]) && NamesIn(tables, specs[..i + 1])
    ensures HashesOf(tables, specs[..i + 1]) == HashesOf(tables, specs[..i]) + tables[specs[i].name].Keys
  {
    assert specs[..i + 1] == specs[..i] + [specs[i]];
    HashesOfAppend(tables, specs[..i], [specs[i]]);
  }

  /**
   * tableSet.hasMany: the requested hashes no table holds.  A hash found in
   * one table is not asked of the later ones.
   */
  method TableSetHasMany(tables: map<nat, Table>, specs: seq<TableSpec>, hashes: set<Hash>) returns (remaining: set<Hash>)
    requires NamesIn(tables, specs)
    ensures remaining == hashes - HashesOf(tables, specs)
  {
    remaining := hashes;
    var i := 0;
    while i < |specs|
      invariant 0 <= i <= |specs|
      invariant NamesIn(tables, specs[..i])
      invariant remaining == hashes - HashesOf(tables, specs[..i])
    {
      PrefixStep(tables, specs, i);
      remaining := remaining - tables[specs[i].name].Keys;
      i := i + 1;
    }
    assert specs[..i] == specs;
  }

  /**
   * tableSet.getMany: the requested records the tables hold, each fetched
   * from the first table that holds it and never asked of a later one.
   */
  method TableSetGetMany(tables: map<nat, Table>, specs: seq<TableSpec>, hashes: set<Hash>) returns (found: Table)
    requires NamesIn(tables, specs) && AllWellFormed(tables)
    ensures found.Keys == hashes * HashesOf(tables, specs)
    ensures WellFormed(found)
  {
    found := map[];
    var i := 0;
    while i < |specs|
      invariant 0 <= i <= |specs|
      invariant NamesIn(tables, specs[..i])
      invariant found.Keys == hashes * HashesOf(tables, specs[..i])
      invariant WellFormed(found)
    {
      PrefixStep(tables, specs, i);
      var t := tables[specs[i].name];
      assert WellFormed(t);
      found := found + map h | h in hashes && h in t && h !in found :: t[h];
      i := i + 1;
    }
    assert specs[..i] == specs;
  }

  /**
   * The table persister of one storage location: every table it ever wrote,
   * by name.  Names are handed out fresh, so a name always denotes the same
   * table.
   */
  class Persister {
    var tables: map<nat, Table>
    var next: nat

    ghost predicate Valid()
      reads this
    {
      AllWellFormed(tables) && forall n :: n in tables ==> n < next
    }

    constructor ()
      ensures Valid() && tables == map[]
    {
      tables := map[];
      next := 0;
    }

    /**
     * Persist(memTable): write a non-empty memtable as a new table.  An
     * empty memtable is never persisted.
     */
    method Persist(mt: Table) returns (spec: TableSpec)
      requires Valid() && WellFormed(mt) && |mt| > 0
      modifies this
      ensures Valid()
      ensures spec.name !in old(tables) && tables == old(tables)[spec.name := mt]
      ensures spec.chunkCount == |mt|
    {
      spec := TableSpec(next, |mt|);
      tables := tables[next := mt];
      next := next + 1;
    }

    /**
     * ConjoinAll(sources): write one new table holding every record of the
     * given tables.  Conjoining zero tables is a caller error.
     */
    method ConjoinAll(specs: seq<TableSpec>) returns (spec: TableSpec)
      requires Valid() && |specs| > 0 && NamesIn(tables, specs)
      modifies this
      ensures Valid()
      ensures spec.name !in old(tables)
      ensures tables == old(tables)[spec.name := ContentOf(old(tables), specs)]
      ensures spec.chunkCount == |ContentOf(old(tables), specs)|
    {
      ContentOfHashes(tables, specs);
      var merged := ContentOf(tables, specs);
      spec := TableSpec(next, |merged|);
      tables := tables[next := merged];
      next := next + 1;
    }
  }

  /**
   * A conjoined table followed by the tables kept beside it holds exactly
   * the hashes of the conjoined tables and the kept ones: conjoining loses
   * nothing and adds nothing.
   */
  lemma ConjoinPreservesHashes(tables: map<nat, Table>, conjoinees: seq<TableSpec>, keepers: seq<TableSpec>, conjoined: TableSpec)
    requires NamesIn(tables, conjoinees) && NamesIn(tables, keepers) && AllWellFormed(tables)
    requires conjoined.name !in tables
    ensures var after := tables[conjoined.name := ContentOf(tables, conjoinees)];
      NamesIn(after, [conjoined] + keepers) &&
      HashesOf(after, [conjoined] + keepers) == HashesOf(tables, conjoinees + keepers)
  {
    var after := tables[conjoined.name := ContentOf(tables, conjoinees)];
    assert Extends(after, tables);
    HashesOfFrame(after, tables, keepers);
    assert ([conjoined] + keepers)[1..] == keepers;
    ContentOfHashes(tables, conjoinees);
    HashesOfAppend(tables, conjoinees, keepers);
  }
}
