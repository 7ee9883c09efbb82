# EF.AuditLog audit-record builder, modelled in Dafny

EF.AuditLog writes an `AuditEntry` row for every entity that an EF Core unit of work adds,
modifies or deletes. A row holds the table name, the key text, the state, and the values as
JSON:
- Added rows record current values.
- Deleted rows record original values.
- Modified rows record both sides of the modified properties.
- Owned entities are folded in under their navigation names. For a Modified entry they are
  folded in recursively, as nested maps of their own modified properties.

A per-type audit policy decides what is ignored or excluded. It comes from a memo cache. The
cache resolves a type once, from a registry of configuration sources, or falls back on global
settings.

The model has these modules:
- `Tracking`: a read-only snapshot of a tracked entry. It holds the state, the metadata, the
  properties and the references, each of which may lead to another tracked entry.
- `Dictionaries`: `Dictionary<string, object?>` as an insertion-ordered sequence of pairs. An
  overwrite keeps the key's position, and `ToDictionary` throws on a repeated key.
- `EntityEntryExtensions`: `GetPrimaryKey` and `GetTableNameOrDefault`.
- `TypeConfiguration`: `AuditTypeConfigurationBuilder`, as a class. A configuration source is
  the list of builder calls its `Configure` makes.
- `Registration`: `ConfigurationRegistry`, as a class. The assembly scan works over an explicit
  list of types, in the order the scan returns them.
- `Settings`: `AuditSettings` and `AuditSettingsBuilder`, as classes.
- `ConfigurationCache`: `EntityAuditConfigurationsRegistry`, as a class holding the memo cache
  and the settings slot.
- `Models`: the `AuditEntry` row, as a class, and the `DbSet<AuditEntry>` it is added to.
- `AuditDiff`: what the diff computes, as functions of an entry and its policy, with the lemmas
  the loops need.
- `DbContextExtensions`: the loops and recursion of `DbContextExtensions.cs`, as methods. Each
  is proved to compute what `AuditDiff` says.
- `AuditProperties`: what the rows contain. It covers which entries get a row, the keys and
  values of each map and their order, the nesting of owned entries, and the exceptions.

Behaviour of the code worth knowing, as the model states it:
- An entity with a composite key gets no row: `GetPrimaryKey` calls `SingleOrDefault` on the key's
  properties, which throws `InvalidOperationException` when there is more than one
  (`EntityEntryExtensions.cs:16-28`). An entity with no key gets the empty string as its id.
- Bulk registration registers the scanned classes one after another, each overwriting the
  mapping of its entity type, so the last class in scan order wins for a type.
- An entry whose state is not Added, Modified or Deleted gets no row. This includes a state
  outside the named `EntityState` values: the guard at `DbContextExtensions.cs:103-108` returns
  null before the state switch, so the switch's `NotSupportedException` (lines 134-135) is never
  thrown (`NoRecordWhen`, `AuditErrors`).

## Model

| member | source | states |
|---|---|---|
| DbContextExtensions.AuditEntries | EF.AuditLog/Extensions/DbContextExtensions.cs:25-35 | The rows appended to the set are exactly the outcome's rows, in enumeration order, and the earlier rows stay. The outcome is that of all tracked entries under the policies cached before the call. The exception is the outcome's. Afterwards every type's lookup returns what it returned before, and no cached type is dropped, so a policy computed once stays for the next unit of work. |
| DbContextExtensions.AddEntries | EF.AuditLog/Extensions/DbContextExtensions.cs:31-34 | The loop over the audited entries appends each entry's row in turn and stops at the first exception. Every type's policy is the cached one or its first resolution. Every lookup is unchanged afterwards, and the cache only grows. |
| AuditDiff.AuditAllFilter | EF.AuditLog/Extensions/DbContextExtensions.cs:27-29 | Filtering the tracked entries to Added/Modified/Deleted first gives the same rows and the same exception. |
| AuditProperties.AuditAllBound | EF.AuditLog/Extensions/DbContextExtensions.cs:27-34 | At most one row per tracked entry in an Added, Modified or Deleted state. |
| AuditProperties.AuditAllCompletes | EF.AuditLog/Extensions/DbContextExtensions.cs:31-34 | The run completes iff no tracked entry's row raises an exception. |
| AuditProperties.AuditAllRows | EF.AuditLog/Extensions/DbContextExtensions.cs:63-72 | Every appended row is the row of one of the tracked entries. |
| AuditProperties.AuditAllRowsAudited | EF.AuditLog/Extensions/DbContextExtensions.cs:103-118 | Every appended row is not owned and has state Added, Modified or Deleted. Its key text and table name are those of a tracked entry. |
| DbContextExtensions.AddAuditEntry | EF.AuditLog/Extensions/DbContextExtensions.cs:63-73 | Appends the entry's row if it has one, and nothing otherwise. It reports the builder's exception. No cached policy changes. |
| DbContextExtensions.BuildAuditEntry | EF.AuditLog/Extensions/DbContextExtensions.cs:98-139 | The new row's fields are the entry's row under its type's policy: none, a row, or the exception. The policy is cached exactly when the state passed the first test. |
| DbContextExtensions.FillState | EF.AuditLog/Extensions/DbContextExtensions.cs:116-136 | The state switch sets the type and the value maps of the entry's state. An exception leaves the row untouched. |
| AuditProperties.NoRecordWhen | EF.AuditLog/Extensions/DbContextExtensions.cs:103-108 | No row iff the state is not Added/Modified/Deleted, or the type is excluded, or the entity is owned. |
| AuditProperties.RecordFields | EF.AuditLog/Extensions/DbContextExtensions.cs:110-128 | A row has: `IsOwned` false; the table name of `GetTableNameOrDefault` and the id of `GetPrimaryKey`; the entry's state as its type; original values always; updated values iff Modified. |
| AuditProperties.AuditErrors | EF.AuditLog/Extensions/DbContextExtensions.cs:113-135 | The only exceptions are the key lookup's `InvalidOperationException` and, for a Modified entry, the `ArgumentException` of `GetModifiedOwnedEntities`. The `NotSupportedException` branch is unreachable. |
| DbContextExtensions.AddedState | EF.AuditLog/Extensions/DbContextExtensions.cs:141-166 | Sets the type to Added and the original values to the serialized current-value snapshot. Nothing else in the row changes. |
| DbContextExtensions.DeletedState | EF.AuditLog/Extensions/DbContextExtensions.cs:168-193 | Sets the type to Deleted and the original values to the serialized original-value snapshot. Nothing else in the row changes. |
| DbContextExtensions.SnapshotJson | EF.AuditLog/Extensions/DbContextExtensions.cs:145-162 | The dictionary built is the non-key, non-ignored properties on one side, with the owned entities copied over them. |
| DbContextExtensions.NonKeyValues | EF.AuditLog/Extensions/DbContextExtensions.cs:148-156 | The property loop writes every non-key property's value on one side. |
| AuditProperties.SnapshotKeys | EF.AuditLog/Extensions/DbContextExtensions.cs:145-162 | In an Added/Deleted map, a name is a key iff it names a non-key, non-ignored property or a touched owned reference. |
| AuditProperties.SnapshotPropertyValue | EF.AuditLog/Extensions/DbContextExtensions.cs:148-156 | Such a property maps to its current value (Added) or its original value (Deleted), when nothing else writes its name. |
| AuditProperties.SnapshotReferenceValue | EF.AuditLog/Extensions/DbContextExtensions.cs:158-162 | A touched owned reference maps to its current value, for Deleted rows too. It overwrites a property of the same name. |
| AuditProperties.SnapshotOrder | EF.AuditLog/Extensions/DbContextExtensions.cs:145-162 | The keys are the kept property names in property order, then the touched navigation names, each where it first occurs. |
| AuditProperties.SnapshotOrderDistinct | EF.AuditLog/Extensions/DbContextExtensions.cs:145-162 | With no name written twice, the keys are exactly the kept property names followed by the touched navigation names. |
| DbContextExtensions.ModifiedState | EF.AuditLog/Extensions/DbContextExtensions.cs:195-223 | Sets the type to Modified and both serialized maps. On an exception from `GetModifiedOwnedEntities`, the row is left as it was. |
| DbContextExtensions.ModifiedPropertyValues | EF.AuditLog/Extensions/DbContextExtensions.cs:202-207 | The property loop writes each modified property's original and current values, keys included. |
| DbContextExtensions.MergeOwned | EF.AuditLog/Extensions/DbContextExtensions.cs:209-217 | Copying the owned maps index by index with `ElementAt(i)` copies each side's owned map. |
| AuditProperties.ModifiedKeysAgree | EF.AuditLog/Extensions/DbContextExtensions.cs:199-217 | Original and updated values of a Modified row have the same keys in the same order. |
| AuditProperties.ModifiedKeys | EF.AuditLog/Extensions/DbContextExtensions.cs:202-217 | A name is a key iff it names a modified, non-ignored property (key properties included) or a touched owned reference. |
| AuditProperties.ModifiedPropertyValues | EF.AuditLog/Extensions/DbContextExtensions.cs:203-207 | Such a property maps to its original value in one map and its current value in the other, when nothing else writes its name. |
| AuditProperties.ModifiedOrder | EF.AuditLog/Extensions/DbContextExtensions.cs:202-217 | The keys are the modified property names in property order, then the touched navigation names, each where it first occurs. |
| AuditProperties.ModifiedNested | EF.AuditLog/Extensions/DbContextExtensions.cs:209-261 | A touched owned reference holds, on each side, the map that a Modified row of the owned entry would hold with nothing ignored. Neither ignore lists nor key filtering reach into owned entries. |
| AuditProperties.IgnoredNeverRecorded | EF.AuditLog/Extensions/DbContextExtensions.cs:268-275 | A name the policy ignores is never a key of a row's maps, in any state, unless a touched owned reference has that name. |
| AuditProperties.PasswordNotRecorded | EF.AuditLog.Samples/Persistence/Configurations/UserAuditConfiguration.cs:9-12 | With the sample configuration registered, a user's `Password` never appears in a row. |
| DbContextExtensions.GetModifiedOwnedEntities | EF.AuditLog/Extensions/DbContextExtensions.cs:225-265 | The recursive loop computes the nested maps of every touched owned reference. An exception from a nested entry propagates. |
| DbContextExtensions.GetOwnedEntryMaps | EF.AuditLog/Extensions/DbContextExtensions.cs:237-261 | For one owned entry: its modified properties by `ToDictionary` on each side, with its own nested maps copied over them. |
| AuditDiff.ModifiedOwnedMirrored | EF.AuditLog/Extensions/DbContextExtensions.cs:225-264 | The two maps have identical key sequences, at every depth. Those keys are the keys of `GetOwnedEntities`. |
| AuditDiff.OwnedDiffMirrored | EF.AuditLog/Extensions/DbContextExtensions.cs:235-262 | After any number of references, the two maps are mirrored at every depth. |
| AuditDiff.OwnedDiffKeys | EF.AuditLog/Extensions/DbContextExtensions.cs:235-262 | After n references, both maps have the keys `GetOwnedEntities` writes for them. |
| AuditDiff.OwnedDiffErrSticks | EF.AuditLog/Extensions/DbContextExtensions.cs:235-262 | Once an exception is raised, the loop's result stays that exception. |
| AuditProperties.ModifiedOwnedOk | EF.AuditLog/Extensions/DbContextExtensions.cs:237-246 | `GetModifiedOwnedEntities` succeeds iff no owned entry in the tree has two modified properties of one name. |
| AuditProperties.ModifiedOwnedErrors | EF.AuditLog/Extensions/DbContextExtensions.cs:237-246 | Its only exception is `ToDictionary`'s `ArgumentException`. |
| AuditProperties.OwnedDiffLookup | EF.AuditLog/Extensions/DbContextExtensions.cs:260-261 | The last touched reference of a name holds its owned entry's nested maps. |
| AuditProperties.OwnedMapsAreModifiedValues | EF.AuditLog/Extensions/DbContextExtensions.cs:237-258 | An owned entry's nested maps are what its own Modified row would hold with nothing ignored. |
| AuditDiff.ModifiedPairsKeys | EF.AuditLog/Extensions/DbContextExtensions.cs:237-243 | The two `ToDictionary` inputs have the same keys in the same order. |
| Dictionaries.ToDictionary | EF.AuditLog/Extensions/DbContextExtensions.cs:237-243 | Succeeds iff the keys are distinct, and then returns the pairs. Otherwise it raises `ArgumentException` naming the first key met a second time: the keys before that position are distinct and include it. |
| Dictionaries.Put | EF.AuditLog/Extensions/DbContextExtensions.cs:155 | The indexer write: the key maps to the new value, other keys are unchanged, and a new key is appended. |
| Dictionaries.PutExisting | EF.AuditLog/Extensions/DbContextExtensions.cs:161 | Overwriting an existing key replaces its entry where it stands. |
| Dictionaries.PutNew | EF.AuditLog/Extensions/DbContextExtensions.cs:161 | Writing a new key appends its entry at the end. |
| Dictionaries.PutAllKeys | EF.AuditLog/Extensions/DbContextExtensions.cs:159-162 | Copying pairs yields the old keys, then each new key where it first occurs. |
| Dictionaries.PutAllLookup | EF.AuditLog/Extensions/DbContextExtensions.cs:159-162 | After copying, a key holds the last value copied for it, or its old value. |
| DbContextExtensions.PutEach | EF.AuditLog/Extensions/DbContextExtensions.cs:159-162 | The copy loop writes each pair in order. |
| DbContextExtensions.GetPropertiesWithoutIgnored | EF.AuditLog/Extensions/DbContextExtensions.cs:268-275 | Returns the entry's properties whose names the policy does not ignore, and caches the policy. |
| AuditDiff.WithoutIgnored | EF.AuditLog/Extensions/DbContextExtensions.cs:272-274 | A property is kept iff its name is not ignored. |
| AuditDiff.WithoutIgnoredAppend | EF.AuditLog/Extensions/DbContextExtensions.cs:272-274 | The filter keeps the order: it distributes over concatenation. |
| DbContextExtensions.GetOwnedEntities | EF.AuditLog/Extensions/DbContextExtensions.cs:281-296 | The loop writes each touched owned reference's current value under its navigation name. |
| AuditProperties.OwnedEntitiesKeys | EF.AuditLog/Extensions/DbContextExtensions.cs:285-293 | Its keys are distinct. A name is a key iff it names an owned, tracked reference in an audited state. |
| AuditProperties.OwnedEntitiesOrder | EF.AuditLog/Extensions/DbContextExtensions.cs:285-293 | Its keys are the touched navigation names in reference order, each where it first occurs. |
| EntityEntryExtensions.GetPrimaryKey | EF.AuditLog/Extensions/EntityEntryExtensions.cs:16-28 | No key gives "". A composite key raises `InvalidOperationException`. A single key property gives its current value's text, or "" when that value is null. |
| EntityEntryExtensions.FindProperty | EF.AuditLog/Extensions/EntityEntryExtensions.cs:27 | `entry.Property(name)` finds a property exactly when one has that name. |
| EntityEntryExtensions.GetTableNameOrDefault | EF.AuditLog/Extensions/EntityEntryExtensions.cs:35-38 | The mapped table name when there is one, otherwise the entity type's name. |
| ConfigurationCache.Resolve | EF.AuditLog/EntityAuditConfigurationsRegistry.cs:50-54 | An unregistered type ignores nothing and is excluded iff only configured types are audited. A registered type ignores the names its source passes to `IgnoreProperty`, and is excluded iff the source calls `ExcludeEntity`. |
| ConfigurationCache.EntityAuditConfigurationsRegistry.constructor | EF.AuditLog/EntityAuditConfigurationsRegistry.cs:17-22 | The cache starts empty, and the default settings audit every type. |
| ConfigurationCache.EntityAuditConfigurationsRegistry.GetOrAddConfiguration | EF.AuditLog/EntityAuditConfigurationsRegistry.cs:48-55 | Returns the cached policy, or resolves and caches one. No other cache entry changes. |
| ConfigurationCache.EntityAuditConfigurationsRegistry.GetIgnoredProperties | EF.AuditLog/EntityAuditConfigurationsRegistry.cs:29-34 | The ignored names of the same cached policy. Never fails for an unknown type. |
| ConfigurationCache.EntityAuditConfigurationsRegistry.IsEntityExcluded | EF.AuditLog/EntityAuditConfigurationsRegistry.cs:41-46 | The exclude flag of the same cached policy. Never fails for an unknown type. |
| ConfigurationCache.EntityAuditConfigurationsRegistry.SetAuditSettings | EF.AuditLog/EntityAuditConfigurationsRegistry.cs:61-64 | Replaces the settings wholesale. |
| ConfigurationCache.EntityAuditConfigurationsRegistry.LoadEntityConfiguration | EF.AuditLog/EntityAuditConfigurationsRegistry.cs:66-92 | Null for an unregistered type. Otherwise, what a fresh builder builds after the source's `Configure` ran on it. |
| ConfigurationCache.ComputedOnce | EF.AuditLog/EntityAuditConfigurationsRegistry.cs:48-55 | A second lookup returns the first result, even after the settings are replaced and the type is registered again. |
| ConfigurationCache.SameTypeSamePolicy | EF.AuditLog/EntityAuditConfigurationsRegistry.cs:50 | Two entries of one runtime type observe the same policy. |
| Registration.ConfigurationRegistry.constructor | EF.AuditLog/ConfigurationRegistry.cs:11 | The registry starts empty. |
| Registration.ConfigurationRegistry.GetConfigurations | EF.AuditLog/ConfigurationRegistry.cs:17-20 | Returns the registered map. |
| Registration.ConfigurationRegistry.GetConfiguration | EF.AuditLog/ConfigurationRegistry.cs:28-38 | The registered source, or null (not an exception) for an unregistered type. |
| Registration.ConfigurationRegistry.RegisterConfiguration | EF.AuditLog/ConfigurationRegistry.cs:45-49 | Maps the type to the source, replacing an earlier one. Every other mapping is unchanged. |
| Registration.ConfigurationRegistry.RegisterConfigurationsFromAssembly | EF.AuditLog/ConfigurationRegistry.cs:55-69 | Registers every scanned (entity type, class) pair in turn. |
| Registration.ConfigurationTypesMembers | EF.AuditLog/ConfigurationRegistry.cs:57-61 | A pair is scanned iff a class that is neither abstract nor an interface implements `IAuditConfiguration<E>`. |
| Registration.ClassPairsMembers | EF.AuditLog/ConfigurationRegistry.cs:59-60 | One class contributes one pair per `IAuditConfiguration<E>` it implements. |
| Registration.RegisterAllLastWins | EF.AuditLog/ConfigurationRegistry.cs:63-68 | The last scanned pair for a type wins. Types no pair names keep their mapping. |
| Registration.LastForSome | EF.AuditLog/ConfigurationRegistry.cs:63-68 | A type has a last pair iff some scanned pair names it, and that pair is among those scanned. |
| TypeConfiguration.AuditTypeConfigurationBuilder.constructor | EF.AuditLog/AuditTypeConfigurationBuilder.cs:13-14 | A fresh builder has an empty list, and the exclude flag is false. |
| TypeConfiguration.AuditTypeConfigurationBuilder.IgnoreProperty | EF.AuditLog/AuditTypeConfigurationBuilder.cs:22-27 | Appends the name at the end, duplicates included. It keeps the flag and returns the same builder. |
| TypeConfiguration.AuditTypeConfigurationBuilder.ExcludeEntity | EF.AuditLog/AuditTypeConfigurationBuilder.cs:32-35 | Sets the flag, idempotently, and keeps the list. |
| TypeConfiguration.AuditTypeConfigurationBuilder.Build | EF.AuditLog/AuditTypeConfigurationBuilder.cs:41-44 | The accumulated list in call order, and the current flag. |
| TypeConfiguration.ReplayEffect | EF.AuditLog/AuditTypeConfigurationBuilder.cs:22-35 | A sequence of calls appends every ignored name in call order. It sets the flag iff the flag was already set or some call excludes. |
| TypeConfiguration.ConfiguredPolicy | EF.AuditLog/AuditTypeConfigurationBuilder.cs:41-44 | A fresh builder's result ignores exactly the names passed to `IgnoreProperty`. It excludes iff `ExcludeEntity` was called. |
| TypeConfiguration.Configure | EF.AuditLog/EntityAuditConfigurationsRegistry.cs:86 | Running a source's `Configure` makes its calls on the builder, in order. |
| Settings.AuditSettings.constructor | EF.AuditLog/Options/AuditSettings.cs:18-23 | Default settings have fresh serializer options and audit every type. |
| Settings.AuditSettingsBuilder.constructor | EF.AuditLog/Options/AuditSettingsBuilder.cs:10 | A fresh builder holds fresh default settings, with `OnlyConfiguredAudited` false. |
| Settings.AuditSettingsBuilder.WithJsonSerializerOptions | EF.AuditLog/Options/AuditSettingsBuilder.cs:17-21 | Replaces only the serializer options and returns the same builder. |
| Settings.AuditSettingsBuilder.OnlyConfiguredAudited | EF.AuditLog/Options/AuditSettingsBuilder.cs:28-32 | Sets the flag (true by default). It keeps the options and returns the same builder. |
| Settings.AuditSettingsBuilder.Build | EF.AuditLog/Options/AuditSettingsBuilder.cs:38-41 | Returns the builder's own settings object, not a copy. |
| Settings.SettersAfterBuild | EF.AuditLog/Options/AuditSettingsBuilder.cs:38-41 | For any builder, the settings `Build` returned are the builder's own object, and setter calls made after `Build` are visible through them. |
| Models.AuditEntry.constructor | EF.AuditLog/Models/AuditEntry.cs:8-49 | A new row has unset values, the default state and `IsOwned` false. |
| Models.AuditEntrySet.Add | EF.AuditLog/Extensions/DbContextExtensions.cs:72 | `DbSet.Add` tracks one more row, at the end. |

## Left out

- EF Core's change tracker (`ChangeTracker.Entries()`, `EntityEntry`, `PropertyEntry`, `References`, `IsOwned()`, `FindPrimaryKey()`, `GetTableName()`) is foreign code. It becomes the `Entry` snapshot datatype, given as input.
- `System.Text.Json` serialization is foreign code. A serialized map is the ordered dictionary itself, tagged with the options object it was given.
- Reflection in `LoadEntityConfiguration` and `RegisterConfigurationsFromAssembly` (`Activator.CreateInstance`, `MakeGenericType`, `GetMethod(...).Invoke`, `assembly.GetTypes()`) is not modelled. A configuration source is the list of builder calls its `Configure` makes. An assembly is the list of types it declares, with the interfaces they implement. The order of that list is the order `GetTypes()` and `GetInterfaces()` return them in, which .NET does not specify; the model takes it as given.
- The expression-tree member extraction in `IgnoreProperty` is not modelled. The name is passed as a plain string.
- The thread-safety of `ConcurrentDictionary.GetOrAdd` is not modelled. Lookups are sequential, so a value factory never runs twice for one type.
- The static registries become class instances passed explicitly. `AuditSettings.Default` is not used by the core and is not part of this model.
- The `Guid` id and the `DateTime.UtcNow` timestamp of `AuditEntry` are not modelled, because they are nondeterministic.
- `AuditEntries<TAuditEntry>(createHistoryFactory)` and its `AuditEntry<TAuditEntry>` overload: the factory's custom row subclass is not modelled. Each row is a new `AuditEntry`, which the base overloads also use.
- Registration.ConfigurationRegistry.GetConfigurations: returns a copy of the map, not the live dictionary. The only caller reads it at once, so later registrations seen through an old reference are not captured.
- The interceptors, `ModelBuilderExtensions.cs`, the samples (except the `UserAuditConfiguration` source, used as an example) and the test context are not part of this model. They only forward to `AuditEntries`, the registries or EF's schema API.
- The ownership tree is finite and acyclic because the `Entry` datatype is inductive. The source has no cycle check and relies on EF's owned-type graph being a tree.
- Models.AuditEntry.constructor: the null strings of a new `AuditEntry` are modelled as empty strings. Both are overwritten before a row is added.
