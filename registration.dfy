/**
 * `ConfigurationRegistry`: the map from entity type to the configuration source registered for it.
 * The assembly scan is modelled on an explicit list of the types the assembly declares, in the
 * order `GetTypes()` returns them (an order .NET leaves unspecified).
 */
module Registration {
  import opened Wrappers
  import opened TypeConfiguration

  /** An interface a class implements: `IAuditConfiguration<entityType>` (with its `Configure` calls) or any other. */
  datatype ImplementedInterface =
    | AuditConfigurationOf(entityType: string, calls: seq<BuilderCall>)
    | OtherInterface(name: string)

  /** A type declared in the scanned assembly. */
  datatype TypeInfo = TypeInfo(name: string, isAbstract: bool, isInterface: bool, interfaces: seq<ImplementedInterface>)

  /** The (entity type, configuration) pairs one concrete class contributes, in interface order. */
  function ClassPairs(t: TypeInfo, interfaces: seq<ImplementedInterface>): seq<(string, Configuration)> {
    if interfaces == [] then []
    else
      (match interfaces[0]
       case AuditConfigurationOf(entityType, calls) => [(entityType, Configuration(t.name, calls))]
       case OtherInterface(_) => [])
      + ClassPairs(t, interfaces[1..])
  }

  /**
   * The scan's query: for every type that is neither abstract nor an interface, one pair per
   * `IAuditConfiguration<E>` it implements, in type order and then interface order.
   */
  function ConfigurationTypes(types: seq<TypeInfo>): seq<(string, Configuration)> {
    if types == [] then []
    else
      var t := types[0];
      (if !t.isAbstract && !t.isInterface then ClassPairs(t, t.interfaces) else [])
      + ConfigurationTypes(types[1..])
  }

  lemma {:induction false} ClassPairsMembers(t: TypeInfo, interfaces: seq<ImplementedInterface>, entityType: string, c: Configuration)
    ensures (entityType, c) in ClassPairs(t, interfaces)
        <==> c.className == t.name && AuditConfigurationOf(entityType, c.calls) in interfaces
  {
    if interfaces != [] {
      ClassPairsMembers(t, interfaces[1..], entityType, c);
      assert interfaces == [interfaces[0]] + interfaces[1..];
    }
  }

  /** A pair is registered by the scan exactly when a concrete class implements the matching interface. */
  lemma {:induction false} ConfigurationTypesMembers(types: seq<TypeInfo>, entityType: string, c: Configuration)
    ensures (entityType, c) in ConfigurationTypes(types)
        <==> exists t :: t in types && !t.isAbstract && !t.isInterface && t.name == c.className
                         && AuditConfigurationOf(entityType, c.calls) in t.interfaces
  {
    if types != [] {
      var t := types[0];
      ConfigurationTypesMembers(types[1..], entityType, c);
      ClassPairsMembers(t, t.interfaces, entityType, c);
      assert types == [t] + types[1..];
    }
  }

  /** `foreach (type, configuration) in pairs: Configurations[type] = configuration`. */
  function RegisterAll(m: map<string, Configuration>, pairs: seq<(string, Configuration)>): map<string, Configuration>
    decreases |pairs|
  {
    if pairs == [] then m
    else RegisterAll(m, pairs[..|pairs| - 1])[pairs[|pairs| - 1].0 := pairs[|pairs| - 1].1]
  }

  /** The configuration of the last pair for `entityType`. */
  function LastFor(pairs: seq<(string, Configuration)>, entityType: string): Option<Configuration>
    decreases |pairs|
  {
    if pairs == [] then None
    else if pairs[|pairs| - 1].0 == entityType then Some(pairs[|pairs| - 1].1)
    else LastFor(pairs[..|pairs| - 1], entityType)
  }

  /** Bulk registration: the last pair for a type wins, and types no pair names keep their mapping. */
  lemma {:induction false} RegisterAllLastWins(m: map<string, Configuration>, pairs: seq<(string, Configuration)>, entityType: string)
    ensures LastFor(pairs, entityType).Some? ==>
              entityType in RegisterAll(m, pairs) && RegisterAll(m, pairs)[entityType] == LastFor(pairs, entityType).value
    ensures LastFor(pairs, entityType).None? ==>
              (entityType in RegisterAll(m, pairs) <==> entityType in m)
              && (entityType in m ==> RegisterAll(m, pairs)[entityType] == m[entityType])
    decreases |pairs|
  {
    if pairs != [] {
      RegisterAllLastWins(m, pairs[..|pairs| - 1], entityType);
    }
  }

  /** `LastFor` finds a pair exactly when some pair names the type. */
  lemma {:induction false} LastForSome(pairs: seq<(string, Configuration)>, entityType: string)
    ensures LastFor(pairs, entityType).Some? <==> exists c :: (entityType, c) in pairs
    ensures LastFor(pairs, entityType).Some? ==> (entityType, LastFor(pairs, entityType).value) in pairs
    decreases |pairs|
  {
    if pairs != [] {
      var init := pairs[..|pairs| - 1];
      LastForSome(init, entityType);
      assert pairs == init + [pairs[|pairs| - 1]];
    }
  }

  /** The registry: one configuration source per entity type. */
  class ConfigurationRegistry {
    var configurations: map<string, Configuration>

    constructor ()
      ensures configurations == map[]
    {
      configurations := map[];
    }

    /** `GetConfigurations()`. */
    method GetConfigurations() returns (m: map<string, Configuration>)
      ensures m == configurations
    {
      m := configurations;
    }

    /** `GetConfiguration<TEntity>()`: the registered source, or null rather than an exception. */
    method GetConfiguration(entityType: string) returns (c: Option<Configuration>)
      ensures c.Some? <==> entityType in configurations
      ensures c.Some? ==> c.value == configurations[entityType]
    {
      if entityType in configurations {
        c := Some(configurations[entityType]);
      } else {
        c := None;
      }
    }

    /** `RegisterConfiguration<TEntity>`: maps the type to the source, replacing an earlier one. */
    method RegisterConfiguration(entityType: string, configuration: Configuration)
      modifies this
      ensures configurations == old(configurations)[entityType := configuration]
    {
      configurations := configurations[entityType := configuration];
    }

    /** `RegisterConfigurationsFromAssembly`: registers every scanned pair in turn. */
    method RegisterConfigurationsFromAssembly(types: seq<TypeInfo>)
      modifies this
      ensures configurations == RegisterAll(old(configurations), ConfigurationTypes(types))
    {
      var pairs := ConfigurationTypes(types);
      for i := 0 to |pairs|
        invariant configurations == RegisterAll(old(configurations), pairs[..i])
      {
        assert pairs[..i + 1][..i] == pairs[..i];
        configurations := configurations[pairs[i].0 := pairs[i].1];
      }
      assert pairs[..|pairs|] == pairs;
    }
  }
}
