/**
 * The memtable: the open, in-memory write buffer of a store handle.  It
 * holds chunk records keyed by hash and keeps a running total of their
 * payload bytes that never exceeds its budget.
 */
module MemTables {
  import opened Chunks

  /** Some record of a non-empty table. */
  ghost function Pick(records: Table): (h: Hash)
    requires records != map[]
    ensures h in records
  {
    var h :| h in records; h
  }

  /** The total payload size of a table's records. */
  ghost function SizeOf(records: Table): (total: nat)
    decreases |records|
  {
    if records == map[] then 0
    else
      var h := Pick(records);
      assert (records - {h}).Keys < records.Keys;
      |records[h]| + SizeOf(records - {h})
  }

  /** The total does not depend on which record is counted first. */
  lemma {:induction false} SizeOfRemove(records: Table, k: Hash)
    requires k in records
    ensures SizeOf(records) == |records[k]| + SizeOf(records - {k})
    decreases |records|
  {
    var h := Pick(records);
    if h != k {
      assert (records - {h}).Keys < records.Keys;
      assert (records - {k}).Keys < records.Keys;
      SizeOfRemove(records - {h}, k);
      SizeOfRemove(records - {k}, h);
      assert records - {h} - {k} == records - {k} - {h};
    }
  }

  /** Adding a new record adds its payload to the total. */
  lemma SizeOfAdd(records: Table, h: Hash, data: Bytes)
    requires h !in records
    ensures SizeOf(records[h := data]) == SizeOf(records) + |data|
  {
    SizeOfRemove(records[h := data], h);
    assert records[h := data] - {h} == records;
  }

  class MemTable {
    const maxData: nat
    var records: Table
    var totalData: nat

    /** The running total is the sum of the payloads, and it stays within
        the budget. */
    ghost predicate Valid()
      reads this
    {
      WellFormed(records) && totalData == SizeOf(records) && totalData <= maxData
    }

    /** newMemTable(maxData). */
    constructor (maxData: nat)
      ensures Valid() && this.maxData == maxData && records == map[] && totalData == 0
    {
      this.maxData := maxData;
      records := map[];
      totalData := 0;
    }

    /** has(h). */
    function Has(h: Hash): (b: bool)
      reads this
      ensures b <==> h in records
    {
      h in records
    }

    /**
     * addChunk(h, data): a record already present is accepted again without
     * change; a new record is accepted only while the total stays within
     * the budget, and a refused one leaves the memtable as it was.
     */
    method AddChunk(h: Hash, data: Bytes) returns (ok: bool)
      requires Valid() && HashOf(data) == h && |data| > 0
      modifies this
      ensures Valid()
      ensures ok <==> h in old(records) || old(totalData) + |data| <= maxData
      ensures ok ==> records == old(records)[h := data]
      ensures !ok ==> records == old(records)
      ensures totalData == old(totalData) + if ok && h !in old(records) then |data| else 0
    {
      if h in records {
        HashOfInjective(records[h], data);
        return true;
      }
      if totalData + |data| > maxData {
        return false;
      }
      SizeOfAdd(records, h, data);
      records := records[h := data];
      totalData := totalData + |data|;
      ok := true;
    }
  }
}
