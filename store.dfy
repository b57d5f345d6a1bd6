/**
 * The class_log table as the import code sees it: a sequence of rows with a
 * bulk delete and a single-row insert. The `sp` variant reaches it through a
 * mapper (`deleteAll`, `insert`), the `com` variant through a repository
 * (`deleteAllRecords`, `save`); both are this one store.
 */
module Store {
  import opened Entity

  class ClassLogStore {
    /** The rows in the table, in insertion order. */
    var records: seq<Record>

    constructor ()
      ensures records == []
    {
      records := [];
    }

    /** `deleteAll` / `deleteAllRecords`: the table becomes empty. */
    method DeleteAll()
      modifies this
      ensures records == []
    {
      records := [];
    }

    /**
     * `insert` / `save` of the object's current field values. Whether the
     * database refuses the row (a key clash, a lost connection) is decided
     * outside this code and arrives as `rejects`; a refused insert leaves the
     * table as it was and reports `ok == false`, where the Java call throws.
     */
    method Insert(log: ClassLog, rejects: bool) returns (ok: bool)
      modifies this
      ensures ok == !rejects
      ensures records == if ok then old(records) + [log.Snapshot()] else old(records)
    {
      ok := !rejects;
      if ok {
        records := records + [log.Snapshot()];
      }
    }
  }
}
