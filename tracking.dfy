/**
 * A read-only snapshot of what EF Core's change tracker exposes for one tracked entity
 * (`EntityEntry`): its state, its entity-type metadata, its property entries and its
 * reference navigations, each of which may lead to another tracked entry.
 */
module Tracking {
  import opened Wrappers
  import opened Dictionaries

  /** EF Core's `EntityState`; `Undefined` stands for any other value cast to the enum. */
  datatype EntityState = Detached | Unchanged | Deleted | Modified | Added | Undefined(code: int)

  /** A `PropertyEntry`: metadata name, original and current values, the modified flag and `IsKey()`. */
  datatype Property = Property(name: string, originalValue: Value, currentValue: Value, isModified: bool, isKey: bool)

  /** A `ReferenceEntry`: the navigation's name, the entry it leads to (if tracked) and its current value. */
  datatype Reference = Reference(name: string, targetEntry: Option<Entry>, currentValue: Value)

  /**
   * An `EntityEntry`. `clrType` is `Entity.GetType()`, `typeName` is `Metadata.Name`,
   * `tableName` is `Metadata.GetTableName()`, `isOwned` is `Metadata.IsOwned()` and
   * `primaryKey` lists the property names of `Metadata.FindPrimaryKey()`, None when there is none.
   */
  datatype Entry = Entry(
    clrType: string,
    typeName: string,
    tableName: Option<string>,
    isOwned: bool,
    state: EntityState,
    primaryKey: Option<seq<string>>,
    properties: seq<Property>,
    references: seq<Reference>)

  /** The names of properties, in order. */
  function PropertyNames(ps: seq<Property>): (ns: seq<string>)
    ensures |ns| == |ps|
    ensures forall i :: 0 <= i < |ps| ==> ns[i] == ps[i].name
  {
    seq(|ps|, i requires 0 <= i < |ps| => ps[i].name)
  }

  /** An entry reached through one of `e`'s references is structurally smaller than `e`. */
  lemma TargetSmaller(e: Entry, i: nat)
    requires i < |e.references| && e.references[i].targetEntry.Some?
    ensures e.references[i].targetEntry.value < e
  {
    assert e.references[i] in e.references;
  }
}
