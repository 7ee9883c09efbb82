/**
 * What the diff engine computes, as functions of a tracked entry and its type's resolved policy:
 * whether a row is produced, the value maps of an Added, Deleted or Modified entry, and the nested
 * maps of the owned entries it folds in.
 */
module AuditDiff {
  import opened Wrappers
  import opened Dictionaries
  import opened Tracking
  import opened EntityEntryExtensions
  import opened TypeConfiguration
  import opened ConfigurationCache
  import opened Settings
  import opened Models

  /** `IsModified`: the state is one the audit records. */
  predicate IsModified(e: Entry) {
    e.state.Added? || e.state.Modified? || e.state.Deleted?
  }

  /** The reference filter: a tracked target that is owned and in an audited state. */
  predicate IsTouched(r: Reference) {
    r.targetEntry.Some? && r.targetEntry.value.isOwned && IsModified(r.targetEntry.value)
  }

  /** The LINQ filter of `GetPropertiesWithoutIgnored`: the properties whose names are not ignored. */
  function WithoutIgnored(ps: seq<Property>, ignored: seq<string>): (r: seq<Property>)
    ensures forall p :: p in r <==> p in ps && p.name !in ignored
    ensures |r| <= |ps|
  {
    if ps == [] then []
    else (if ps[0].name in ignored then [] else [ps[0]]) + WithoutIgnored(ps[1..], ignored)
  }

  /** The filter keeps the order of the properties it keeps: it distributes over concatenation. */
  lemma {:induction false} WithoutIgnoredAppend(a: seq<Property>, b: seq<Property>, ignored: seq<string>)
    ensures WithoutIgnored(a + b, ignored) == WithoutIgnored(a, ignored) + WithoutIgnored(b, ignored)
  {
    if a == [] {
      assert a + b == b;
    } else {
      assert (a + b)[1..] == a[1..] + b;
      WithoutIgnoredAppend(a[1..], b, ignored);
    }
  }

  /** Which of a property's two values a map takes. */
  datatype Side = Original | Current

  function ValueOf(p: Property, side: Side): Value {
    match side
    case Original => p.originalValue
    case Current => p.currentValue
  }

  /** The (name, value) writes of the Added/Deleted property loop: every property except keys. */
  function NonKeyPairs(ps: seq<Property>, side: Side): seq<(string, Value)>
    decreases |ps|
  {
    if ps == [] then []
    else
      var p := ps[|ps| - 1];
      NonKeyPairs(ps[..|ps| - 1], side) + (if p.isKey then [] else [(p.name, ValueOf(p, side))])
  }

  /** The (name, value) writes of the Modified property loop, and of `ToDictionary` on an owned entry. */
  function ModifiedPairs(ps: seq<Property>, side: Side): seq<(string, Value)>
    decreases |ps|
  {
    if ps == [] then []
    else
      var p := ps[|ps| - 1];
      ModifiedPairs(ps[..|ps| - 1], side) + (if p.isModified then [(p.name, ValueOf(p, side))] else [])
  }

  /** The (navigation name, current value) writes of `GetOwnedEntities`. */
  function OwnedPairs(refs: seq<Reference>): seq<(string, Value)>
    decreases |refs|
  {
    if refs == [] then []
    else
      var r := refs[|refs| - 1];
      OwnedPairs(refs[..|refs| - 1]) + (if IsTouched(r) then [(r.name, r.currentValue)] else [])
  }

  /** `GetOwnedEntities`: each touched owned reference's current value under its navigation name. */
  function OwnedEntities(e: Entry): Dict {
    PutAll([], OwnedPairs(e.references))
  }

  /**
   * The map of an Added (current values) or Deleted (original values) entry: the non-ignored,
   * non-key properties, then the touched owned references, which overwrite a same-named key.
   */
  function SnapshotValues(e: Entry, ignored: seq<string>, side: Side): Dict {
    PutAll(PutAll([], NonKeyPairs(WithoutIgnored(e.properties, ignored), side)), OwnedEntities(e))
  }

  /**
   * The two nested maps one touched owned entry `t` contributes: its modified properties, each
   * side collected by `ToDictionary`, then the nested maps `nested` of its own owned entries.
   */
  function OwnedMaps(t: Entry, nested: Result<(Dict, Dict), Exception>): Result<(Value, Value), Exception> {
    var current :- ToDictionary(ModifiedPairs(t.properties, Current));
    var original :- ToDictionary(ModifiedPairs(t.properties, Original));
    var inner :- nested;
    Ok((Map(PutAll(original, inner.0)), Map(PutAll(current, inner.1))))
  }

  /**
   * The state of `GetModifiedOwnedEntities`' loop after the first `n` references of `e`: the pair
   * (original values, current values), or the exception that ended it.
   */
  function OwnedDiff(e: Entry, n: nat): Result<(Dict, Dict), Exception>
    requires n <= |e.references|
    decreases e, n
  {
    if n == 0 then Ok(([], []))
    else
      match OwnedDiff(e, n - 1)
      case Err(x) => Err(x)
      case Ok(acc) =>
        var r := e.references[n - 1];
        if !IsTouched(r) then Ok(acc)
        else
          TargetSmaller(e, n - 1);
          var t := r.targetEntry.value;
          var maps :- OwnedMaps(t, ModifiedOwnedEntities(t));
          Ok((Put(acc.0, r.name, maps.0), Put(acc.1, r.name, maps.1)))
  }

  /**
   * `GetModifiedOwnedEntities`: for every touched owned reference, the owned entry's modified
   * properties (unfiltered) with its own touched references nested under their navigation names.
   */
  function ModifiedOwnedEntities(e: Entry): Result<(Dict, Dict), Exception>
    decreases e, |e.references| + 1
  {
    OwnedDiff(e, |e.references|)
  }

  /**
   * The two maps of a Modified entry: its modified, non-ignored properties (keys included), then
   * the nested maps of its touched owned references.
   */
  function ModifiedValues(e: Entry, ignored: seq<string>): Result<(Dict, Dict), Exception> {
    var properties := WithoutIgnored(e.properties, ignored);
    var owned :- ModifiedOwnedEntities(e);
    Ok((PutAll(PutAll([], ModifiedPairs(properties, Original)), owned.0),
        PutAll(PutAll([], ModifiedPairs(properties, Current)), owned.1)))
  }

  const NotSupportedState := "Not supported entity state."

  /**
   * The value maps `AddedState`, `DeletedState` and `ModifiedState` give a row: (original values,
   * updated values), or the exception raised while building them.
   */
  function StateValues(e: Entry, ignored: seq<string>, options: SerializerOptions): Result<(Option<Json>, Option<Json>), Exception>
    requires IsModified(e)
  {
    match e.state
    case Added => Ok((Some(Json(SnapshotValues(e, ignored, Current), options)), None))
    case Deleted => Ok((Some(Json(SnapshotValues(e, ignored, Original), options)), None))
    case Modified =>
      var values :- ModifiedValues(e, ignored);
      Ok((Some(Json(values.0, options)), Some(Json(values.1, options))))
  }

  /**
   * The private `AuditEntry` builder: no row for an unaudited state, an excluded type or an owned
   * entity; otherwise the row of the entry's state, or the exception raised while building it.
   */
  function Audit(e: Entry, policy: EntityAuditConfiguration, options: SerializerOptions): Result<Option<AuditRecord>, Exception> {
    if !IsModified(e) || policy.excludeEntity || e.isOwned then Ok(None)
    else
      var tableName := GetTableNameOrDefault(e);
      var entityId :- GetPrimaryKey(e);
      match e.state
      case Detached => Ok(None)
      case Unchanged => Ok(None)
      case Undefined(_) => Err(NotSupportedException(NotSupportedState))
      case _ =>
        var values :- StateValues(e, policy.ignoredProperties, options);
        Ok(Some(AuditRecord(tableName, entityId, e.state, values.0, values.1, e.isOwned)))
  }

  /** The rows a unit of work adds, and the exception that stopped it, if any. */
  datatype Outcome = Outcome(records: seq<AuditRecord>, failure: Option<Exception>)

  /**
   * `AuditEntries` over tracked entries `es`: each entry's row in order, stopping at the first
   * exception. Each type's policy is the one cached before the run, or else its first resolution.
   */
  function AuditAll(es: seq<Entry>, cache: map<string, EntityAuditConfiguration>,
                    configurations: map<string, Configuration>, onlyConfiguredAudited: bool,
                    options: SerializerOptions): Outcome
    decreases |es|
  {
    if es == [] then Outcome([], None)
    else
      var before := AuditAll(es[..|es| - 1], cache, configurations, onlyConfiguredAudited, options);
      var e := es[|es| - 1];
      if before.failure.Some? then before
      else
        match Audit(e, Cached(cache, configurations, onlyConfiguredAudited, e.clrType), options)
        case Err(x) => Outcome(before.records, Some(x))
        case Ok(row) => Outcome(before.records + (if row.Some? then [row.value] else []), None)
  }

  /** The `Where(e => ModifiedStates.Contains(e.State))` filter that `AuditEntries` applies first. */
  function ModifiedEntries(es: seq<Entry>): seq<Entry>
    decreases |es|
  {
    if es == [] then []
    else ModifiedEntries(es[..|es| - 1]) + (if IsModified(es[|es| - 1]) then [es[|es| - 1]] else [])
  }

  /** Both sides of a modified-property map have the same keys, in the same order. */
  lemma {:induction false} ModifiedPairsKeys(ps: seq<Property>, a: Side, b: Side)
    ensures Keys(ModifiedPairs(ps, a)) == Keys(ModifiedPairs(ps, b))
    decreases |ps|
  {
    if ps != [] {
      ModifiedPairsKeys(ps[..|ps| - 1], a, b);
    }
  }

  /**
   * The two maps of `GetModifiedOwnedEntities` line up: the same keys in the same order, and at
   * each position a nested map on both sides, again with the same keys.
   */
  ghost predicate Mirrored(original: Dict, current: Dict) {
    Keys(original) == Keys(current)
    && forall i :: 0 <= i < |original| ==>
         original[i].1.Map? && current[i].1.Map? && Keys(original[i].1.entries) == Keys(current[i].1.entries)
  }

  /** Writing a pair of nested maps with the same keys under one key keeps two maps mirrored. */
  lemma MirroredPut(original: Dict, current: Dict, k: string, o: Value, c: Value)
    requires Mirrored(original, current)
    requires o.Map? && c.Map? && Keys(o.entries) == Keys(c.entries)
    ensures Mirrored(Put(original, k, o), Put(current, k, c))
  {
    if k in Keys(original) {
      PutExisting(original, k, o);
      PutExisting(current, k, c);
      MirroredUpdate(original, current, FirstIndex(Keys(original), k), k, o, c);
    } else {
      PutNew(original, k, o);
      PutNew(current, k, c);
      MirroredAppend(original, current, k, o, c);
    }
  }

  lemma MirroredUpdate(original: Dict, current: Dict, i: nat, k: string, o: Value, c: Value)
    requires Mirrored(original, current) && i < |original| && original[i].0 == k
    requires o.Map? && c.Map? && Keys(o.entries) == Keys(c.entries)
    ensures Mirrored(original[i := (k, o)], current[i := (k, c)])
  {
    assert Keys(original[i := (k, o)]) == Keys(original);
    assert Keys(current[i := (k, c)]) == Keys(current);
  }

  lemma MirroredAppend(original: Dict, current: Dict, k: string, o: Value, c: Value)
    requires Mirrored(original, current)
    requires o.Map? && c.Map? && Keys(o.entries) == Keys(c.entries)
    ensures Mirrored(original + [(k, o)], current + [(k, c)])
  {
    assert Keys(original + [(k, o)]) == Keys(original) + [k];
    assert Keys(current + [(k, c)]) == Keys(current) + [k];
  }

  /** The keys of the loop state after `n` references are those `GetOwnedEntities` writes for them. */
  lemma {:induction false} OwnedDiffKeys(e: Entry, n: nat)
    requires n <= |e.references|
    ensures OwnedDiff(e, n).Ok? ==>
              Keys(OwnedDiff(e, n).value.0) == Keys(OwnedDiff(e, n).value.1) == Keys(PutAll([], OwnedPairs(e.references[..n])))
    decreases e, n
  {
    if n > 0 && OwnedDiff(e, n).Ok? {
      var refs := e.references;
      var r := refs[n - 1];
      assert refs[..n][..n - 1] == refs[..n - 1];
      OwnedDiffKeys(e, n - 1);
      var before := OwnedPairs(refs[..n - 1]);
      if IsTouched(r) {
        assert OwnedPairs(refs[..n]) == before + [(r.name, r.currentValue)];
        PutAllAppendOne([], before, (r.name, r.currentValue));
      } else {
        assert OwnedPairs(refs[..n]) == before + [];
        assert before + [] == before;
      }
    }
  }

  /** A successful loop succeeded on every shorter prefix of the references. */
  lemma OwnedDiffPrefixOk(e: Entry, n: nat)
    requires 0 < n <= |e.references| && OwnedDiff(e, n).Ok?
    ensures OwnedDiff(e, n - 1).Ok?
  {
  }

  /** A reference that is not touched leaves the loop state as it was. */
  lemma OwnedDiffSkip(e: Entry, n: nat)
    requires 0 < n <= |e.references| && !IsTouched(e.references[n - 1])
    ensures OwnedDiff(e, n) == OwnedDiff(e, n - 1)
  {
  }

  /** A successful step for a touched reference: its owned entry's nested maps, written under its name. */
  lemma OwnedDiffTouched(e: Entry, n: nat)
    requires 0 < n <= |e.references| && OwnedDiff(e, n).Ok? && IsTouched(e.references[n - 1])
    ensures var t := e.references[n - 1].targetEntry.value; OwnedMaps(t, ModifiedOwnedEntities(t)).Ok?
    ensures var r, acc := e.references[n - 1], OwnedDiff(e, n - 1).value;
            var t := r.targetEntry.value;
            var maps := OwnedMaps(t, ModifiedOwnedEntities(t)).value;
            OwnedDiff(e, n).value == (Put(acc.0, r.name, maps.0), Put(acc.1, r.name, maps.1))
  {
  }

  /** Whatever the depth of the ownership tree, the loop state after `n` references is mirrored. */
  lemma {:induction false} OwnedDiffMirrored(e: Entry, n: nat)
    requires n <= |e.references|
    ensures OwnedDiff(e, n).Ok? ==> Mirrored(OwnedDiff(e, n).value.0, OwnedDiff(e, n).value.1)
    decreases n
  {
    if n > 0 && OwnedDiff(e, n).Ok? {
      OwnedDiffPrefixOk(e, n);
      OwnedDiffMirrored(e, n - 1);
      MirroredStep(e, n);
    }
  }

  /** One more reference keeps the loop state mirrored. */
  lemma MirroredStep(e: Entry, n: nat)
    requires 0 < n <= |e.references| && OwnedDiff(e, n).Ok? && OwnedDiff(e, n - 1).Ok?
    requires Mirrored(OwnedDiff(e, n - 1).value.0, OwnedDiff(e, n - 1).value.1)
    ensures Mirrored(OwnedDiff(e, n).value.0, OwnedDiff(e, n).value.1)
  {
    if IsTouched(e.references[n - 1]) {
      MirroredTouched(e, n);
    } else {
      OwnedDiffSkip(e, n);
    }
  }

  /** A touched reference's step keeps the loop state mirrored. */
  lemma MirroredTouched(e: Entry, n: nat)
    requires 0 < n <= |e.references| && OwnedDiff(e, n).Ok? && IsTouched(e.references[n - 1])
    requires Mirrored(OwnedDiff(e, n - 1).value.0, OwnedDiff(e, n - 1).value.1)
    ensures Mirrored(OwnedDiff(e, n).value.0, OwnedDiff(e, n).value.1)
  {
    OwnedDiffTouched(e, n);
    var r, acc := e.references[n - 1], OwnedDiff(e, n - 1).value;
    var t := r.targetEntry.value;
    NestedKeysAgree(t);
    OwnedMapsKeys(t, ModifiedOwnedEntities(t));
    var maps := OwnedMaps(t, ModifiedOwnedEntities(t)).value;
    MirroredPut(acc.0, acc.1, r.name, maps.0, maps.1);
  }

  /** Both maps `GetModifiedOwnedEntities` returns for an entry have the same keys. */
  lemma NestedKeysAgree(t: Entry)
    ensures ModifiedOwnedEntities(t).Ok? ==> Keys(ModifiedOwnedEntities(t).value.0) == Keys(ModifiedOwnedEntities(t).value.1)
  {
    OwnedDiffKeys(t, |t.references|);
  }

  /** The two nested maps of an owned entry have the same keys when its own nested maps do. */
  lemma OwnedMapsKeys(t: Entry, nested: Result<(Dict, Dict), Exception>)
    requires nested.Ok? ==> Keys(nested.value.0) == Keys(nested.value.1)
    ensures OwnedMaps(t, nested).Ok? ==>
              OwnedMaps(t, nested).value.0.Map? && OwnedMaps(t, nested).value.1.Map?
              && Keys(OwnedMaps(t, nested).value.0.entries) == Keys(OwnedMaps(t, nested).value.1.entries)
  {
    if OwnedMaps(t, nested).Ok? {
      ModifiedPairsKeys(t.properties, Original, Current);
      PutAllKeys(ModifiedPairs(t.properties, Original), nested.value.0);
      PutAllKeys(ModifiedPairs(t.properties, Current), nested.value.1);
    }
  }

  /** `GetModifiedOwnedEntities` returns two maps with the same keys in the same order. */
  lemma ModifiedOwnedMirrored(e: Entry)
    ensures ModifiedOwnedEntities(e).Ok? ==>
              Mirrored(ModifiedOwnedEntities(e).value.0, ModifiedOwnedEntities(e).value.1)
              && Keys(ModifiedOwnedEntities(e).value.0) == Keys(OwnedEntities(e))
  {
    OwnedDiffKeys(e, |e.references|);
    OwnedDiffMirrored(e, |e.references|);
    assert e.references[..|e.references|] == e.references;
  }

  /** Once a reference has raised an exception, the rest of the loop does not run. */
  lemma {:induction false} OwnedDiffErrSticks(e: Entry, i: nat, n: nat)
    requires i <= n <= |e.references|
    requires OwnedDiff(e, i).Err?
    ensures OwnedDiff(e, n) == OwnedDiff(e, i)
    decreases n
  {
    if n > i {
      OwnedDiffErrSticks(e, i, n - 1);
    }
  }

  /** One more reference in `GetOwnedEntities`' loop is one more write, when it is touched. */
  lemma OwnedPairsStep(refs: seq<Reference>, i: nat)
    requires i < |refs|
    ensures PutAll([], OwnedPairs(refs[..i + 1])) ==
            if IsTouched(refs[i]) then Put(PutAll([], OwnedPairs(refs[..i])), refs[i].name, refs[i].currentValue)
            else PutAll([], OwnedPairs(refs[..i]))
  {
    assert refs[..i + 1][..i] == refs[..i];
    var before := OwnedPairs(refs[..i]);
    if IsTouched(refs[i]) {
      PutAllAppendOne([], before, (refs[i].name, refs[i].currentValue));
    } else {
      assert before + [] == before;
    }
  }

  /** One more property in the Added/Deleted loop is one more write, unless it is a key. */
  lemma NonKeyPairsStep(d: Dict, ps: seq<Property>, i: nat, side: Side)
    requires i < |ps|
    ensures PutAll(d, NonKeyPairs(ps[..i + 1], side)) ==
            if ps[i].isKey then PutAll(d, NonKeyPairs(ps[..i], side))
            else Put(PutAll(d, NonKeyPairs(ps[..i], side)), ps[i].name, ValueOf(ps[i], side))
  {
    assert ps[..i + 1][..i] == ps[..i];
    var before := NonKeyPairs(ps[..i], side);
    if ps[i].isKey {
      assert before + [] == before;
    } else {
      PutAllAppendOne(d, before, (ps[i].name, ValueOf(ps[i], side)));
    }
  }

  /** One more property in the Modified loop is one more write, when it is modified. */
  lemma ModifiedPairsStep(d: Dict, ps: seq<Property>, i: nat, side: Side)
    requires i < |ps|
    ensures PutAll(d, ModifiedPairs(ps[..i + 1], side)) ==
            if ps[i].isModified then Put(PutAll(d, ModifiedPairs(ps[..i], side)), ps[i].name, ValueOf(ps[i], side))
            else PutAll(d, ModifiedPairs(ps[..i], side))
  {
    assert ps[..i + 1][..i] == ps[..i];
    var before := ModifiedPairs(ps[..i], side);
    if ps[i].isModified {
      PutAllAppendOne(d, before, (ps[i].name, ValueOf(ps[i], side)));
    } else {
      assert before + [] == before;
    }
  }

  /** The loop state after a touched reference, from the state before it. */
  lemma OwnedDiffNext(e: Entry, i: nat, acc: (Dict, Dict))
    requires i < |e.references| && IsTouched(e.references[i]) && OwnedDiff(e, i) == Ok(acc)
    ensures e.references[i].targetEntry.value < e
    ensures var r := e.references[i];
            var t := r.targetEntry.value;
            OwnedDiff(e, i + 1) ==
              match OwnedMaps(t, ModifiedOwnedEntities(t))
              case Err(x) => Err(x)
              case Ok(maps) => Ok((Put(acc.0, r.name, maps.0), Put(acc.1, r.name, maps.1)))
  {
    TargetSmaller(e, i);
  }

  /** The loop state after a touched reference, from the state before it and its owned entry's maps. */
  lemma OwnedDiffStep(e: Entry, i: nat, acc: (Dict, Dict), maps: Result<(Value, Value), Exception>)
    requires i < |e.references| && IsTouched(e.references[i]) && OwnedDiff(e, i) == Ok(acc)
    requires e.references[i].targetEntry.value < e
    requires maps == OwnedMaps(e.references[i].targetEntry.value, ModifiedOwnedEntities(e.references[i].targetEntry.value))
    ensures maps.Err? ==> OwnedDiff(e, i + 1) == Err(maps.error)
    ensures maps.Ok? ==> OwnedDiff(e, i + 1) == Ok((Put(acc.0, e.references[i].name, maps.value.0),
                                                   Put(acc.1, e.references[i].name, maps.value.1)))
  {
    OwnedDiffNext(e, i, acc);
  }

  /** One more entry in `AuditEntries`' loop: its row, or its exception, unless an earlier one failed. */
  lemma AuditAllStep(es: seq<Entry>, i: nat, cache: map<string, EntityAuditConfiguration>,
                     configurations: map<string, Configuration>, onlyConfiguredAudited: bool, options: SerializerOptions)
    requires i < |es|
    ensures var before := AuditAll(es[..i], cache, configurations, onlyConfiguredAudited, options);
            var e := es[i];
            AuditAll(es[..i + 1], cache, configurations, onlyConfiguredAudited, options) ==
              if before.failure.Some? then before
              else match Audit(e, Cached(cache, configurations, onlyConfiguredAudited, e.clrType), options)
                   case Err(x) => Outcome(before.records, Some(x))
                   case Ok(row) => Outcome(before.records + (if row.Some? then [row.value] else []), None)
  {
    assert es[..i + 1][..i] == es[..i];
  }

  /** After an exception, later entries add nothing: the outcome stays as it was. */
  lemma {:induction false} AuditAllSticks(es: seq<Entry>, i: nat, n: nat, cache: map<string, EntityAuditConfiguration>,
                                          configurations: map<string, Configuration>, onlyConfiguredAudited: bool, options: SerializerOptions)
    requires i <= n <= |es|
    requires AuditAll(es[..i], cache, configurations, onlyConfiguredAudited, options).failure.Some?
    ensures AuditAll(es[..n], cache, configurations, onlyConfiguredAudited, options) ==
            AuditAll(es[..i], cache, configurations, onlyConfiguredAudited, options)
    decreases n
  {
    if n > i {
      AuditAllSticks(es, i, n - 1, cache, configurations, onlyConfiguredAudited, options);
      AuditAllStep(es, n - 1, cache, configurations, onlyConfiguredAudited, options);
    }
  }

  /**
   * Filtering the tracked entries to the audited states first changes nothing: the entries it
   * drops would produce no row and no exception.
   */
  lemma {:induction false} AuditAllFilter(es: seq<Entry>, cache: map<string, EntityAuditConfiguration>,
                                          configurations: map<string, Configuration>, onlyConfiguredAudited: bool, options: SerializerOptions)
    ensures AuditAll(ModifiedEntries(es), cache, configurations, onlyConfiguredAudited, options) ==
            AuditAll(es, cache, configurations, onlyConfiguredAudited, options)
    decreases |es|
  {
    if es != [] {
      var init, last := es[..|es| - 1], es[|es| - 1];
      var kept := ModifiedEntries(init);
      AuditAllFilter(init, cache, configurations, onlyConfiguredAudited, options);
      if IsModified(last) {
        assert ModifiedEntries(es) == kept + [last];
        assert (kept + [last])[..|kept|] == kept;
      } else {
        assert ModifiedEntries(es) == kept + [];
        assert kept + [] == kept;
      }
    }
  }
}
