/**
 * The per-type audit policy: `EntityAuditConfiguration`, the builder a configuration source
 * fills in (`AuditTypeConfigurationBuilder<TEntity>`), and the sources themselves
 * (`IAuditConfiguration<TEntity>`), each modelled by the list of builder calls its `Configure` makes.
 */
module TypeConfiguration {

  /** The resolved policy of one entity type. */
  datatype EntityAuditConfiguration = EntityAuditConfiguration(ignoredProperties: seq<string>, excludeEntity: bool)

  /** One call made on the builder: `IgnoreProperty(x => x.Name)` or `ExcludeEntity()`. */
  datatype BuilderCall = Ignore(propertyName: string) | Exclude

  /** A class implementing `IAuditConfiguration<TEntity>`, with the calls its `Configure` makes. */
  datatype Configuration = Configuration(className: string, calls: seq<BuilderCall>)

  /** What a fresh builder holds. */
  const Fresh := EntityAuditConfiguration([], false)

  /** The builder's state after making `calls`, starting from `start`. */
  function Replay(start: EntityAuditConfiguration, calls: seq<BuilderCall>): EntityAuditConfiguration
    decreases |calls|
  {
    if calls == [] then start
    else
      var s := Replay(start, calls[..|calls| - 1]);
      match calls[|calls| - 1]
      case Ignore(name) => s.(ignoredProperties := s.ignoredProperties + [name])
      case Exclude => s.(excludeEntity := true)
  }

  /** What `Build()` returns for a fresh builder after `Configure` made `calls`. */
  function Configured(calls: seq<BuilderCall>): EntityAuditConfiguration {
    Replay(Fresh, calls)
  }

  /** The property names of the `Ignore` calls, in call order. */
  function IgnoredNames(calls: seq<BuilderCall>): seq<string> {
    if calls == [] then []
    else (if calls[0].Ignore? then [calls[0].propertyName] else []) + IgnoredNames(calls[1..])
  }

  lemma {:induction false} IgnoredNamesAppend(a: seq<BuilderCall>, b: seq<BuilderCall>)
    ensures IgnoredNames(a + b) == IgnoredNames(a) + IgnoredNames(b)
  {
    if a != [] {
      assert (a + b)[1..] == a[1..] + b;
      IgnoredNamesAppend(a[1..], b);
    } else {
      assert a + b == b;
    }
  }

  /**
   * Replaying calls appends every ignored name to the list, in call order and duplicates included,
   * and sets the exclude flag exactly when it was already set or some call excludes the entity.
   */
  lemma {:induction false} ReplayEffect(start: EntityAuditConfiguration, calls: seq<BuilderCall>)
    ensures Replay(start, calls).ignoredProperties == start.ignoredProperties + IgnoredNames(calls)
    ensures Replay(start, calls).excludeEntity <==> start.excludeEntity || Exclude in calls
    decreases |calls|
  {
    if calls != [] {
      var init, last := calls[..|calls| - 1], calls[|calls| - 1];
      ReplayEffect(start, init);
      assert calls == init + [last];
      IgnoredNamesAppend(init, [last]);
    }
  }

  /** A configured type ignores exactly the names it passed to `IgnoreProperty`, and is excluded iff it called `ExcludeEntity`. */
  lemma ConfiguredPolicy(calls: seq<BuilderCall>)
    ensures Configured(calls).ignoredProperties == IgnoredNames(calls)
    ensures Configured(calls).excludeEntity <==> Exclude in calls
  {
    ReplayEffect(Fresh, calls);
  }

  /** `AuditTypeConfigurationBuilder<TEntity>`: an append-only list of ignored names and an exclude flag. */
  class AuditTypeConfigurationBuilder {
    var ignoredProperties: seq<string>
    var excludeEntity: bool

    /** The configuration `Build()` would return now. */
    function State(): EntityAuditConfiguration
      reads this
    {
      EntityAuditConfiguration(ignoredProperties, excludeEntity)
    }

    constructor ()
      ensures State() == Fresh
    {
      ignoredProperties := [];
      excludeEntity := false;
    }

    /** Adds a property name at the end of the list; returns the same builder for chaining. */
    method IgnoreProperty(propertyName: string) returns (self: AuditTypeConfigurationBuilder)
      modifies this
      ensures ignoredProperties == old(ignoredProperties) + [propertyName]
      ensures excludeEntity == old(excludeEntity)
      ensures self == this
    {
      ignoredProperties := ignoredProperties + [propertyName];
      self := this;
    }

    /** Marks the entity type as excluded from auditing; calling it again changes nothing. */
    method ExcludeEntity()
      modifies this
      ensures excludeEntity
      ensures ignoredProperties == old(ignoredProperties)
    {
      excludeEntity := true;
    }

    /** The accumulated list, in call order, and the current flag. */
    method Build() returns (c: EntityAuditConfiguration)
      ensures c.ignoredProperties == ignoredProperties
      ensures c.excludeEntity == excludeEntity
    {
      c := EntityAuditConfiguration(ignoredProperties, excludeEntity);
    }
  }

  /** `configuration.Configure(builder)`: makes the configuration's calls on the builder, in order. */
  method Configure(configuration: Configuration, builder: AuditTypeConfigurationBuilder)
    modifies builder
    ensures builder.State() == Replay(old(builder.State()), configuration.calls)
  {
    var calls := configuration.calls;
    for i := 0 to |calls|
      invariant builder.State() == Replay(old(builder.State()), calls[..i])
    {
      assert calls[..i + 1][..i] == calls[..i];
      match calls[i]
      case Ignore(name) =>
        var _ := builder.IgnoreProperty(name);
      case Exclude =>
        builder.ExcludeEntity();
    }
    assert calls[..|calls|] == calls;
  }
}
