/**
 * `DbContextExtensions`: the loops that fill the value dictionaries and the audit rows of a unit
 * of work, each proved to compute what `AuditDiff` says it computes.
 */
module DbContextExtensions {
  import opened Wrappers
  import opened Dictionaries
  import opened Tracking
  import opened EntityEntryExtensions
  import opened TypeConfiguration
  import opened ConfigurationCache
  import opened Settings
  import Models
  import opened AuditDiff

  /** `foreach (var (key, value) in pairs) dictionary[key] = value;` */
  method PutEach(dictionary: Dict, pairs: seq<(string, Value)>) returns (r: Dict)
    ensures r == PutAll(dictionary, pairs)
  {
    r := dictionary;
    for i := 0 to |pairs|
      invariant r == PutAll(dictionary, pairs[..i])
    {
      PutAllSnoc(dictionary, pairs, i);
      r := Put(r, pairs[i].0, pairs[i].1);
    }
    assert pairs[..|pairs|] == pairs;
  }

  /** `GetOwnedEntities`: the current value of each touched owned reference, under its navigation name. */
  method GetOwnedEntities(e: Entry) returns (ownedEntities: Dict)
    ensures ownedEntities == OwnedEntities(e)
  {
    ownedEntities := [];
    var references := e.references;
    for i := 0 to |references|
      invariant ownedEntities == PutAll([], OwnedPairs(references[..i]))
    {
      var reference := references[i];
      OwnedPairsStep(references, i);
      if IsTouched(reference) {
        ownedEntities := Put(ownedEntities, reference.name, reference.currentValue);
      }
    }
    assert references[..|references|] == references;
  }

  /** `GetPropertiesWithoutIgnored`: the entry's properties minus those its type's policy ignores. */
  method GetPropertiesWithoutIgnored(e: Entry, cache: EntityAuditConfigurationsRegistry) returns (properties: seq<Property>)
    modifies cache`entityAuditOptions
    ensures properties == WithoutIgnored(e.properties, old(cache.Lookup(e.clrType)).ignoredProperties)
    ensures cache.entityAuditOptions == old(cache.entityAuditOptions)[e.clrType := old(cache.Lookup(e.clrType))]
  {
    var ignoredProperties := cache.GetIgnoredProperties(e);
    properties := WithoutIgnored(e.properties, ignoredProperties);
  }

  /**
   * `GetModifiedOwnedEntities`: for each touched owned reference, the nested maps of its owned
   * entry under the reference's navigation name; an exception raised for one reference propagates.
   */
  method GetModifiedOwnedEntities(e: Entry) returns (r: Result<(Dict, Dict), Exception>)
    ensures r == ModifiedOwnedEntities(e)
    decreases e, 1
  {
    var originalValues: Dict := [];
    var currentValues: Dict := [];
    var references := e.references;
    for i := 0 to |references|
      invariant OwnedDiff(e, i) == Ok((originalValues, currentValues))
    {
      var next := VisitReference(e, i, originalValues, currentValues);
      if next.Err? {
        OwnedDiffErrSticks(e, i + 1, |references|);
        return Err(next.error);
      }
      originalValues, currentValues := next.value.0, next.value.1;
    }
    r := Ok((originalValues, currentValues));
  }

  /**
   * One pass of `GetModifiedOwnedEntities`' loop: a reference that is not touched is skipped;
   * otherwise its owned entry's nested maps are written under the reference's name on each side,
   * or the exception they raised ends the loop.
   */
  method VisitReference(e: Entry, i: nat, originalValues: Dict, currentValues: Dict)
    returns (next: Result<(Dict, Dict), Exception>)
    requires i < |e.references|
    requires OwnedDiff(e, i) == Ok((originalValues, currentValues))
    ensures next == OwnedDiff(e, i + 1)
    decreases e, 0
  {
    var reference := e.references[i];
    if !IsTouched(reference) {
      OwnedDiffSkip(e, i + 1);
      return Ok((originalValues, currentValues));
    }
    TargetSmaller(e, i);
    var maps := GetOwnedEntryMaps(reference.targetEntry.value);
    OwnedDiffStep(e, i, (originalValues, currentValues), maps);
    if maps.Err? {
      return Err(maps.error);
    }
    next := Ok((Put(originalValues, reference.name, maps.value.0), Put(currentValues, reference.name, maps.value.1)));
  }

  /**
   * The body of `GetModifiedOwnedEntities`' loop for one owned entry: its modified properties on
   * each side by `ToDictionary` (an `ArgumentException` on a repeated name), then its own nested
   * maps copied in over them.
   */
  method GetOwnedEntryMaps(target: Entry) returns (maps: Result<(Value, Value), Exception>)
    ensures maps == OwnedMaps(target, ModifiedOwnedEntities(target))
    decreases target, 2
  {
    var modifiedProperties := ToDictionary(ModifiedPairs(target.properties, Current));
    if modifiedProperties.Err? {
      return Err(modifiedProperties.error);
    }
    var originalProperties := ToDictionary(ModifiedPairs(target.properties, Original));
    if originalProperties.Err? {
      return Err(originalProperties.error);
    }
    var nested := GetModifiedOwnedEntities(target);
    if nested.Err? {
      return Err(nested.error);
    }
    var current := PutEach(modifiedProperties.value, nested.value.1);
    var original := PutEach(originalProperties.value, nested.value.0);
    maps := Ok((Map(original), Map(current)));
  }

  /**
   * The dictionary `AddedState` and `DeletedState` serialize: each non-key property kept by
   * `GetPropertiesWithoutIgnored` with its value on `side`, then the owned entities over them.
   */
  method SnapshotJson(e: Entry, cache: EntityAuditConfigurationsRegistry, side: Side) returns (json: Dict)
    modifies cache`entityAuditOptions
    ensures json == SnapshotValues(e, old(cache.Lookup(e.clrType)).ignoredProperties, side)
    ensures cache.entityAuditOptions == old(cache.entityAuditOptions)[e.clrType := old(cache.Lookup(e.clrType))]
  {
    var properties := GetPropertiesWithoutIgnored(e, cache);
    json := NonKeyValues(properties, side);
    var ownedEntities := GetOwnedEntities(e);
    json := PutEach(json, ownedEntities);
  }

  /** The property loop of `AddedState` and `DeletedState`: key properties are skipped. */
  method NonKeyValues(properties: seq<Property>, side: Side) returns (json: Dict)
    ensures json == PutAll([], NonKeyPairs(properties, side))
  {
    json := [];
    for i := 0 to |properties|
      invariant json == PutAll([], NonKeyPairs(properties[..i], side))
    {
      var prop := properties[i];
      NonKeyPairsStep([], properties, i, side);
      if prop.isKey {
        continue;
      }
      json := Put(json, prop.name, ValueOf(prop, side));
    }
    assert properties[..|properties|] == properties;
  }

  /** `AddedState`: the row records the current values of the entry; `UpdatedValues` stays unset. */
  method AddedState(history: Models.AuditEntry, e: Entry, cache: EntityAuditConfigurationsRegistry)
    modifies history, cache`entityAuditOptions
    ensures history.Snapshot() == old(history.Snapshot()).(
              modificationType := Added,
              originalValues := Some(Models.Json(SnapshotValues(e, old(cache.Lookup(e.clrType)).ignoredProperties, Current),
                                                 cache.auditSettings.jsonSerializerOptions)))
    ensures cache.entityAuditOptions == old(cache.entityAuditOptions)[e.clrType := old(cache.Lookup(e.clrType))]
  {
    var json := SnapshotJson(e, cache, Current);
    history.modificationType := Added;
    history.originalValues := Some(Models.Json(json, cache.auditSettings.jsonSerializerOptions));
  }

  /** `DeletedState`: the row records the original values of the entry; `UpdatedValues` stays unset. */
  method DeletedState(history: Models.AuditEntry, e: Entry, cache: EntityAuditConfigurationsRegistry)
    modifies history, cache`entityAuditOptions
    ensures history.Snapshot() == old(history.Snapshot()).(
              modificationType := Deleted,
              originalValues := Some(Models.Json(SnapshotValues(e, old(cache.Lookup(e.clrType)).ignoredProperties, Original),
                                                 cache.auditSettings.jsonSerializerOptions)))
    ensures cache.entityAuditOptions == old(cache.entityAuditOptions)[e.clrType := old(cache.Lookup(e.clrType))]
  {
    var json := SnapshotJson(e, cache, Original);
    history.modificationType := Deleted;
    history.originalValues := Some(Models.Json(json, cache.auditSettings.jsonSerializerOptions));
  }

  /**
   * `ModifiedState`: the row records the modified properties' original and current values and the
   * nested owned-entity maps, or the exception `GetModifiedOwnedEntities` raised, in which case the
   * row is left as it was.
   */
  method ModifiedState(history: Models.AuditEntry, e: Entry, cache: EntityAuditConfigurationsRegistry)
    returns (failure: Option<Exception>)
    modifies history, cache`entityAuditOptions
    ensures var values := ModifiedValues(e, old(cache.Lookup(e.clrType)).ignoredProperties);
            var options := cache.auditSettings.jsonSerializerOptions;
            if values.Err? then
              failure == Some(values.error) && history.Snapshot() == old(history.Snapshot())
            else
              failure == None
              && history.Snapshot() == old(history.Snapshot()).(
                   modificationType := Modified,
                   originalValues := Some(Models.Json(values.value.0, options)),
                   updatedValues := Some(Models.Json(values.value.1, options)))
    ensures cache.entityAuditOptions == old(cache.entityAuditOptions)[e.clrType := old(cache.Lookup(e.clrType))]
  {
    var properties := GetPropertiesWithoutIgnored(e, cache);
    var originalValues, updatedValues := ModifiedPropertyValues(properties);
    var ownedEntities := GetModifiedOwnedEntities(e);
    if ownedEntities.Err? {
      return Some(ownedEntities.error);
    }
    var owned := ownedEntities.value;
    ModifiedOwnedMirrored(e);
    var merged := MergeOwned(originalValues, updatedValues, owned.0, owned.1);
    history.modificationType := Modified;
    history.originalValues := Some(Models.Json(merged.0, cache.auditSettings.jsonSerializerOptions));
    history.updatedValues := Some(Models.Json(merged.1, cache.auditSettings.jsonSerializerOptions));
    failure := None;
  }

  /** The property loop of `ModifiedState`: each modified property's two values, keys included. */
  method ModifiedPropertyValues(properties: seq<Property>) returns (originalValues: Dict, updatedValues: Dict)
    ensures originalValues == PutAll([], ModifiedPairs(properties, Original))
    ensures updatedValues == PutAll([], ModifiedPairs(properties, Current))
  {
    originalValues, updatedValues := [], [];
    for i := 0 to |properties|
      invariant originalValues == PutAll([], ModifiedPairs(properties[..i], Original))
      invariant updatedValues == PutAll([], ModifiedPairs(properties[..i], Current))
    {
      var prop := properties[i];
      ModifiedPairsStep([], properties, i, Original);
      ModifiedPairsStep([], properties, i, Current);
      if prop.isModified {
        originalValues := Put(originalValues, prop.name, prop.originalValue);
        updatedValues := Put(updatedValues, prop.name, prop.currentValue);
      }
    }
    assert properties[..|properties|] == properties;
  }

  /**
   * `ModifiedState`'s index loop: the i-th owned entry of each side is written into that side's
   * map; both sides have as many entries, so `ElementAt(i)` never runs past the current side.
   */
  method MergeOwned(originalValues: Dict, updatedValues: Dict, ownedOriginal: Dict, ownedCurrent: Dict)
    returns (merged: (Dict, Dict))
    requires Keys(ownedOriginal) == Keys(ownedCurrent)
    ensures merged == (PutAll(originalValues, ownedOriginal), PutAll(updatedValues, ownedCurrent))
  {
    var original, updated := originalValues, updatedValues;
    for i := 0 to |ownedOriginal|
      invariant original == PutAll(originalValues, ownedOriginal[..i])
      invariant updated == PutAll(updatedValues, ownedCurrent[..i])
    {
      var originalEntity := ownedOriginal[i];
      var updatedEntity := ownedCurrent[i];
      PutAllSnoc(originalValues, ownedOriginal, i);
      PutAllSnoc(updatedValues, ownedCurrent, i);
      original := Put(original, originalEntity.0, originalEntity.1);
      updated := Put(updated, updatedEntity.0, updatedEntity.1);
    }
    assert ownedOriginal[..|ownedOriginal|] == ownedOriginal;
    assert ownedCurrent[..|ownedCurrent|] == ownedCurrent;
    merged := (original, updated);
  }

  /** The fields of the row a build returned, if any, or its exception. */
  function Recorded(r: Result<Option<Models.AuditEntry>, Exception>): Result<Option<Models.AuditRecord>, Exception>
    reads if r.Ok? && r.value.Some? then {r.value.value} else {}
  {
    match r
    case Err(x) => Err(x)
    case Ok(None) => Ok(None)
    case Ok(Some(history)) => Ok(Some(history.Snapshot()))
  }

  /**
   * The private `AuditEntry` builder: no row for an unaudited state, an excluded type or an owned
   * entity; otherwise a new row filled for the entry's state. The type's policy is looked up (and
   * cached) only once the state passed the first test.
   */
  method BuildAuditEntry(e: Entry, cache: EntityAuditConfigurationsRegistry) returns (r: Result<Option<Models.AuditEntry>, Exception>)
    modifies cache`entityAuditOptions
    ensures Recorded(r) == Audit(e, old(cache.Lookup(e.clrType)), cache.auditSettings.jsonSerializerOptions)
    ensures r.Ok? && r.value.Some? ==> fresh(r.value.value)
    ensures cache.entityAuditOptions ==
              if IsModified(e) then old(cache.entityAuditOptions)[e.clrType := old(cache.Lookup(e.clrType))]
              else old(cache.entityAuditOptions)
  {
    if !IsModified(e) {
      return Ok(None);
    }
    var excluded := cache.IsEntityExcluded(e);
    if excluded || e.isOwned {
      return Ok(None);
    }
    var history := new Models.AuditEntry();
    history.tableName := GetTableNameOrDefault(e);
    var entityId := GetPrimaryKey(e);
    if entityId.Err? {
      return Err(entityId.error);
    }
    history.entityId := entityId.value;
    history.isOwned := e.isOwned;
    var failure := FillState(history, e, cache);
    if failure.Some? {
      return Err(failure.value);
    }
    r := Ok(Some(history));
  }

  /**
   * The state switch of the builder. The test before it leaves only these three states, so its
   * Detached/Unchanged and `NotSupportedException` branches cannot be reached.
   */
  method FillState(history: Models.AuditEntry, e: Entry, cache: EntityAuditConfigurationsRegistry) returns (failure: Option<Exception>)
    requires IsModified(e) && history.updatedValues.None?
    modifies history, cache`entityAuditOptions
    ensures var values := StateValues(e, old(cache.Lookup(e.clrType)).ignoredProperties, cache.auditSettings.jsonSerializerOptions);
            if values.Err? then
              failure == Some(values.error) && history.Snapshot() == old(history.Snapshot())
            else
              failure == None
              && history.Snapshot() == old(history.Snapshot()).(
                   modificationType := e.state, originalValues := values.value.0, updatedValues := values.value.1)
    ensures cache.entityAuditOptions == old(cache.entityAuditOptions)[e.clrType := old(cache.Lookup(e.clrType))]
  {
    if e.state.Added? {
      AddedState(history, e, cache);
      failure := None;
    } else if e.state.Deleted? {
      DeletedState(history, e, cache);
      failure := None;
    } else {
      failure := ModifiedState(history, e, cache);
    }
  }

  /** The rows an outcome of the builder adds: its row, if it has one. */
  function Rows(audit: Result<Option<Models.AuditRecord>, Exception>): seq<Models.AuditRecord> {
    if audit.Ok? && audit.value.Some? then [audit.value.value] else []
  }

  /** `context.AuditEntry(entry)`: adds the entry's row, if it has one, to the audit set. */
  method AddAuditEntry(auditSet: Models.AuditEntrySet, e: Entry, cache: EntityAuditConfigurationsRegistry) returns (failure: Option<Exception>)
    modifies auditSet, cache`entityAuditOptions
    ensures var audit := Audit(e, old(cache.Lookup(e.clrType)), cache.auditSettings.jsonSerializerOptions);
            && failure == (if audit.Err? then Some(audit.error) else None)
            && |old(auditSet.items)| <= |auditSet.items|
            && auditSet.items[..|old(auditSet.items)|] == old(auditSet.items)
            && Models.Records(auditSet.items[|old(auditSet.items)|..]) == Rows(audit)
    ensures forall t :: cache.Lookup(t) == old(cache.Lookup(t))
    ensures old(cache.entityAuditOptions).Keys <= cache.entityAuditOptions.Keys
  {
    ghost var items0 := auditSet.items;
    var auditEntry := BuildAuditEntry(e, cache);
    CacheLookupResult(old(cache.entityAuditOptions), cache.registry.configurations, cache.auditSettings.onlyConfiguredAudited, e.clrType);
    if auditEntry.Err? {
      return Some(auditEntry.error);
    }
    if auditEntry.value.None? {
      return None;
    }
    auditSet.Add(auditEntry.value.value);
    Models.RecordsSnoc(items0, auditEntry.value.value);
    assert auditSet.items[|items0|..] == [auditEntry.value.value];
    failure := None;
  }

  /**
   * `AuditEntries`: a row for each tracked entry in an audited state, in enumeration order, up to
   * the first exception. Rows added before it stay in the set.
   */
  method AuditEntries(auditSet: Models.AuditEntrySet, cache: EntityAuditConfigurationsRegistry, tracked: seq<Entry>)
    returns (failure: Option<Exception>)
    modifies auditSet, cache`entityAuditOptions
    ensures var outcome := AuditAll(tracked, old(cache.entityAuditOptions), cache.registry.configurations,
                                    cache.auditSettings.onlyConfiguredAudited, cache.auditSettings.jsonSerializerOptions);
            && |old(auditSet.items)| <= |auditSet.items| && auditSet.items[..|old(auditSet.items)|] == old(auditSet.items)
            && Models.Records(auditSet.items[|old(auditSet.items)|..]) == outcome.records
            && failure == outcome.failure
    ensures forall t :: cache.Lookup(t) == old(cache.Lookup(t))
    ensures old(cache.entityAuditOptions).Keys <= cache.entityAuditOptions.Keys
  {
    var entries := ModifiedEntries(tracked);
    AuditAllFilter(tracked, cache.entityAuditOptions, cache.registry.configurations,
                   cache.auditSettings.onlyConfiguredAudited, cache.auditSettings.jsonSerializerOptions);
    failure := AddEntries(auditSet, cache, entries);
  }

  /** The loop of `AuditEntries` over the entries in an audited state. */
  method AddEntries(auditSet: Models.AuditEntrySet, cache: EntityAuditConfigurationsRegistry, entries: seq<Entry>)
    returns (failure: Option<Exception>)
    modifies auditSet, cache`entityAuditOptions
    ensures var outcome := AuditAll(entries, old(cache.entityAuditOptions), cache.registry.configurations,
                                    cache.auditSettings.onlyConfiguredAudited, cache.auditSettings.jsonSerializerOptions);
            && |old(auditSet.items)| <= |auditSet.items| && auditSet.items[..|old(auditSet.items)|] == old(auditSet.items)
            && Models.Records(auditSet.items[|old(auditSet.items)|..]) == outcome.records
            && failure == outcome.failure
    ensures forall t :: cache.Lookup(t) == old(cache.Lookup(t))
    ensures old(cache.entityAuditOptions).Keys <= cache.entityAuditOptions.Keys
  {
    ghost var items0, cache0 := auditSet.items, cache.entityAuditOptions;
    ghost var configurations := cache.registry.configurations;
    ghost var only := cache.auditSettings.onlyConfiguredAudited;
    ghost var options := cache.auditSettings.jsonSerializerOptions;
    for i := 0 to |entries|
      invariant |items0| <= |auditSet.items| && auditSet.items[..|items0|] == items0
      invariant forall t :: cache.Lookup(t) == Cached(cache0, configurations, only, t)
      invariant cache0.Keys <= cache.entityAuditOptions.Keys
      invariant AuditAll(entries[..i], cache0, configurations, only, options) == Outcome(Models.Records(auditSet.items[|items0|..]), None)
    {
      ghost var before := auditSet.items;
      var f := AddAuditEntry(auditSet, entries[i], cache);
      AddEntriesStep(entries, i, cache0, configurations, only, options, items0, before, auditSet.items);
      if f.Some? {
        AuditAllSticks(entries, i + 1, |entries|, cache0, configurations, only, options);
        assert entries[..|entries|] == entries;
        return f;
      }
    }
    assert entries[..|entries|] == entries;
    failure := None;
  }

  /** One pass of `AuditEntries`' loop: the rows added so far are those of one more entry. */
  lemma AddEntriesStep(entries: seq<Entry>, i: nat, cache: map<string, EntityAuditConfiguration>,
                       configurations: map<string, Configuration>, onlyConfiguredAudited: bool, options: SerializerOptions,
                       items0: seq<Models.AuditEntry>, before: seq<Models.AuditEntry>, after: seq<Models.AuditEntry>)
    requires i < |entries|
    requires |items0| <= |before| <= |after| && before[..|items0|] == items0 && after[..|before|] == before
    requires AuditAll(entries[..i], cache, configurations, onlyConfiguredAudited, options)
             == Outcome(Models.Records(before[|items0|..]), None)
    requires Models.Records(after[|before|..])
             == Rows(Audit(entries[i], Cached(cache, configurations, onlyConfiguredAudited, entries[i].clrType), options))
    ensures after[..|items0|] == items0
    ensures var audit := Audit(entries[i], Cached(cache, configurations, onlyConfiguredAudited, entries[i].clrType), options);
            AuditAll(entries[..i + 1], cache, configurations, onlyConfiguredAudited, options)
            == Outcome(Models.Records(after[|items0|..]), if audit.Err? then Some(audit.error) else None)
  {
    AuditAllStep(entries, i, cache, configurations, onlyConfiguredAudited, options);
    Models.RecordsSplit(after, |items0|, |before|);
    assert after[|items0|..|before|] == before[|items0|..];
  }
}
