/**
 * `EntityAuditConfigurationsRegistry`: the per-type memo cache of resolved policies and the
 * global settings slot. A type's policy is computed on its first lookup and then kept.
 */
module ConfigurationCache {
  import opened Wrappers
  import opened Tracking
  import opened TypeConfiguration
  import opened Registration
  import opened Settings

  /**
   * The policy a first lookup computes: the built configuration of the registered source, or no
   * ignored properties and exclusion exactly when only configured types are audited.
   */
  function Resolve(configurations: map<string, Configuration>, onlyConfiguredAudited: bool, entityType: string): (c: EntityAuditConfiguration)
    ensures entityType !in configurations ==> c == EntityAuditConfiguration([], onlyConfiguredAudited)
    ensures entityType in configurations ==>
              c.ignoredProperties == IgnoredNames(configurations[entityType].calls)
              && (c.excludeEntity <==> Exclude in configurations[entityType].calls)
  {
    if entityType in configurations then
      ConfiguredPolicy(configurations[entityType].calls);
      Configured(configurations[entityType].calls)
    else
      EntityAuditConfiguration([], onlyConfiguredAudited)
  }

  /** What a lookup of `entityType` returns: the cached policy when there is one, else a fresh resolution. */
  function Cached(cache: map<string, EntityAuditConfiguration>, configurations: map<string, Configuration>,
                  onlyConfiguredAudited: bool, entityType: string): EntityAuditConfiguration
  {
    if entityType in cache then cache[entityType] else Resolve(configurations, onlyConfiguredAudited, entityType)
  }

  /** Caching the policy a lookup of `k` returns changes no later lookup. */
  lemma CacheLookupResult(cache: map<string, EntityAuditConfiguration>, configurations: map<string, Configuration>,
                          onlyConfiguredAudited: bool, k: string)
    ensures forall t :: Cached(cache[k := Cached(cache, configurations, onlyConfiguredAudited, k)], configurations, onlyConfiguredAudited, t)
                        == Cached(cache, configurations, onlyConfiguredAudited, t)
  {
  }

  class EntityAuditConfigurationsRegistry {
    /** The memo cache `EntityAuditOptions`, keyed by the entity's runtime type. */
    var entityAuditOptions: map<string, EntityAuditConfiguration>
    /** The settings slot `AuditSettings`. */
    var auditSettings: AuditSettings
    /** The `ConfigurationRegistry` this registry reads sources from. */
    const registry: ConfigurationRegistry

    /** The policy a lookup of `entityType` would return now. */
    function Lookup(entityType: string): EntityAuditConfiguration
      reads this, registry, auditSettings
    {
      Cached(entityAuditOptions, registry.configurations, auditSettings.onlyConfiguredAudited, entityType)
    }

    /** An empty cache and default settings, in which every type is audited. */
    constructor (registry: ConfigurationRegistry)
      ensures this.registry == registry
      ensures entityAuditOptions == map[]
      ensures fresh(auditSettings) && !auditSettings.onlyConfiguredAudited
    {
      this.registry := registry;
      entityAuditOptions := map[];
      auditSettings := new AuditSettings();
    }

    /**
     * `GetOrAddConfiguration`: the cached policy of the entry's runtime type; on a miss, the
     * resolved policy, which is cached. Nothing else in the cache changes.
     */
    method GetOrAddConfiguration(entry: Entry) returns (c: EntityAuditConfiguration)
      modifies this`entityAuditOptions
      ensures c == old(Lookup(entry.clrType))
      ensures entityAuditOptions == old(entityAuditOptions)[entry.clrType := c]
    {
      var entityType := entry.clrType;
      if entityType in entityAuditOptions {
        c := entityAuditOptions[entityType];
      } else {
        var configuration := LoadEntityConfiguration(entry);
        c := if configuration.Some? then configuration.value
             else EntityAuditConfiguration([], auditSettings.onlyConfiguredAudited);
        entityAuditOptions := entityAuditOptions[entityType := c];
      }
    }

    /** `GetIgnoredProperties`: the ignored names of the entry's type's policy; never fails. */
    method GetIgnoredProperties(entry: Entry) returns (ignored: seq<string>)
      modifies this`entityAuditOptions
      ensures ignored == old(Lookup(entry.clrType)).ignoredProperties
      ensures entityAuditOptions == old(entityAuditOptions)[entry.clrType := old(Lookup(entry.clrType))]
    {
      var options := GetOrAddConfiguration(entry);
      ignored := options.ignoredProperties;
    }

    /** `IsEntityExcluded`: the exclude flag of the entry's type's policy; never fails. */
    method IsEntityExcluded(entry: Entry) returns (excluded: bool)
      modifies this`entityAuditOptions
      ensures excluded == old(Lookup(entry.clrType)).excludeEntity
      ensures entityAuditOptions == old(entityAuditOptions)[entry.clrType := old(Lookup(entry.clrType))]
    {
      var options := GetOrAddConfiguration(entry);
      excluded := options.excludeEntity;
    }

    /** `SetAuditSettings`: replaces the settings object wholesale; the cache is untouched. */
    method SetAuditSettings(settings: AuditSettings)
      modifies this`auditSettings
      ensures auditSettings == settings
    {
      auditSettings := settings;
    }

    /**
     * `LoadEntityConfiguration`: null for an unregistered type; otherwise what a fresh builder
     * builds after the registered source's `Configure` ran on it.
     */
    method LoadEntityConfiguration(entry: Entry) returns (c: Option<EntityAuditConfiguration>)
      ensures entry.clrType !in registry.configurations ==> c == None
      ensures entry.clrType in registry.configurations ==>
                c == Some(Configured(registry.configurations[entry.clrType].calls))
    {
      var configurations := registry.GetConfigurations();
      if entry.clrType !in configurations {
        return None;
      }
      var configuration := configurations[entry.clrType];
      var builder := new AuditTypeConfigurationBuilder();
      Configure(configuration, builder);
      var built := builder.Build();
      c := Some(built);
    }
  }

  /**
   * A type's policy is computed once: a second lookup returns the first result even though the
   * settings were replaced and the type was registered again in between.
   */
  method ComputedOnce(cache: EntityAuditConfigurationsRegistry, entry: Entry, settings: AuditSettings, configuration: Configuration)
    returns (first: EntityAuditConfiguration, second: EntityAuditConfiguration)
    modifies cache, cache.registry
    ensures first == second
  {
    first := cache.GetOrAddConfiguration(entry);
    cache.SetAuditSettings(settings);
    cache.registry.RegisterConfiguration(entry.clrType, configuration);
    second := cache.GetOrAddConfiguration(entry);
  }

  /** The cache key is the runtime type: two entries of one type observe the same policy. */
  method SameTypeSamePolicy(cache: EntityAuditConfigurationsRegistry, a: Entry, b: Entry)
    returns (excludedA: bool, excludedB: bool, ignoredA: seq<string>, ignoredB: seq<string>)
    requires a.clrType == b.clrType
    modifies cache
    ensures excludedA == excludedB && ignoredA == ignoredB
  {
    excludedA := cache.IsEntityExcluded(a);
    ignoredA := cache.GetIgnoredProperties(a);
    excludedB := cache.IsEntityExcluded(b);
    ignoredB := cache.GetIgnoredProperties(b);
  }
}
