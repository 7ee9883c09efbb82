/** `AuditEntry`, the audit row the diff fills in, and the value its fields hold. */
module Models {
  import opened Wrappers
  import opened Dictionaries
  import opened Tracking
  import opened Settings

  /**
   * `JsonSerializer.Serialize(value, options)`. The encoder is taken as the identity on the
   * dictionary; the options object it was given is kept alongside.
   */
  datatype Json = Json(value: Dict, options: SerializerOptions)

  /** The fields of an `AuditEntry` other than its Guid id and its timestamp. */
  datatype AuditRecord = AuditRecord(
    tableName: string,
    entityId: string,
    modificationType: EntityState,
    originalValues: Option<Json>,
    updatedValues: Option<Json>,
    isOwned: bool)

  /** The fields of `new AuditEntry()`: null strings, `default(EntityState)` (Detached), not owned. */
  const Blank := AuditRecord("", "", Detached, None, None, false)

  /** `AuditEntry`: a row whose fields the diff assigns one by one. */
  class AuditEntry {
    var tableName: string
    var entityId: string
    var modificationType: EntityState
    var originalValues: Option<Json>
    var updatedValues: Option<Json>
    var isOwned: bool

    function Snapshot(): AuditRecord
      reads this
    {
      AuditRecord(tableName, entityId, modificationType, originalValues, updatedValues, isOwned)
    }

    constructor ()
      ensures Snapshot() == Blank
    {
      tableName, entityId := "", "";
      modificationType := Detached;
      originalValues, updatedValues := None, None;
      isOwned := false;
    }
  }

  /** The rows of a `DbSet<AuditEntry>`, read field by field. */
  function Records(items: seq<AuditEntry>): (rs: seq<AuditRecord>)
    reads set h | h in items
    ensures |rs| == |items|
    ensures forall i :: 0 <= i < |items| ==> rs[i] == items[i].Snapshot()
  {
    seq(|items|, i requires 0 <= i < |items| reads set h | h in items => items[i].Snapshot())
  }

  /** Adding a row adds its fields at the end. */
  lemma RecordsSnoc(items: seq<AuditEntry>, h: AuditEntry)
    ensures Records(items + [h]) == Records(items) + [h.Snapshot()]
  {
    assert forall i :: 0 <= i < |items| ==> (items + [h])[i] == items[i];
  }

  /** The rows from position `a` on are those up to `b`, then the rest. */
  lemma RecordsSplit(items: seq<AuditEntry>, a: nat, b: nat)
    requires a <= b <= |items|
    ensures Records(items[a..]) == Records(items[a..b]) + Records(items[b..])
  {
    assert items[a..] == items[a..b] + items[b..];
    RecordsConcat(items[a..b], items[b..]);
  }

  lemma RecordsConcat(xs: seq<AuditEntry>, ys: seq<AuditEntry>)
    ensures Records(xs + ys) == Records(xs) + Records(ys)
  {
    assert forall i :: 0 <= i < |xs| ==> (xs + ys)[i] == xs[i];
    assert forall i :: |xs| <= i < |xs + ys| ==> (xs + ys)[i] == ys[i - |xs|];
  }

  /** `context.Set<AuditEntry>()`: the rows added to the unit of work so far. */
  class AuditEntrySet {
    var items: seq<AuditEntry>

    constructor ()
      ensures items == []
    {
      items := [];
    }

    /** `DbSet.Add`: tracks one more row, at the end. */
    method Add(entry: AuditEntry)
      modifies this
      ensures items == old(items) + [entry]
    {
      items := items + [entry];
    }
  }
}
