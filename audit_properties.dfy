/**
 * What the rows of the diff engine contain: which entries get a row, which keys each value map
 * holds and in which order, which value each key maps to, and how the run over a unit of work
 * orders and stops.
 */
module AuditProperties {
  import opened Wrappers
  import opened Dictionaries
  import opened Tracking
  import opened EntityEntryExtensions
  import opened TypeConfiguration
  import opened ConfigurationCache
  import opened Settings
  import opened Models
  import opened AuditDiff

  /** The pairs of the Added/Deleted property loop are exactly those of the non-key properties. */
  lemma {:induction false} NonKeyPairsMembers(ps: seq<Property>, side: Side, x: (string, Value))
    ensures x in NonKeyPairs(ps, side) <==> exists p :: p in ps && !p.isKey && x == (p.name, ValueOf(p, side))
    decreases |ps|
  {
    if ps != [] {
      var init, last := ps[..|ps| - 1], ps[|ps| - 1];
      NonKeyPairsMembers(init, side, x);
      assert ps == init + [last];
      if x in NonKeyPairs(ps, side) && x !in NonKeyPairs(init, side) {
        assert !last.isKey && x == (last.name, ValueOf(last, side));
      }
    }
  }

  /** The pairs of the Modified property loop are exactly those of the modified properties. */
  lemma {:induction false} ModifiedPairsMembers(ps: seq<Property>, side: Side, x: (string, Value))
    ensures x in ModifiedPairs(ps, side) <==> exists p :: p in ps && p.isModified && x == (p.name, ValueOf(p, side))
    decreases |ps|
  {
    if ps != [] {
      var init, last := ps[..|ps| - 1], ps[|ps| - 1];
      ModifiedPairsMembers(init, side, x);
      assert ps == init + [last];
      if x in ModifiedPairs(ps, side) && x !in ModifiedPairs(init, side) {
        assert last.isModified && x == (last.name, ValueOf(last, side));
      }
    }
  }

  /** The pairs of `GetOwnedEntities` are exactly those of the touched references. */
  lemma {:induction false} OwnedPairsMembers(refs: seq<Reference>, x: (string, Value))
    ensures x in OwnedPairs(refs) <==> exists r :: r in refs && IsTouched(r) && x == (r.name, r.currentValue)
    decreases |refs|
  {
    if refs != [] {
      var init, last := refs[..|refs| - 1], refs[|refs| - 1];
      OwnedPairsMembers(init, x);
      assert refs == init + [last];
      if x in OwnedPairs(refs) && x !in OwnedPairs(init) {
        assert IsTouched(last) && x == (last.name, last.currentValue);
      }
    }
  }

  /** A key is among some pairs' keys exactly when one of the pairs carries it. */
  lemma KeysMembers(ps: seq<(string, Value)>, k: string)
    ensures k in Keys(ps) <==> exists x :: x in ps && x.0 == k
  {
    if k in Keys(ps) {
      var i :| 0 <= i < |ps| && Keys(ps)[i] == k;
      assert ps[i] in ps;
    }
  }

  /** When every pair with key `k` has value `v`, the last one has too. */
  lemma {:induction false} LastValueOf(ps: seq<(string, Value)>, k: string, v: Value)
    requires k in Keys(ps)
    requires forall x :: x in ps && x.0 == k ==> x.1 == v
    ensures LastValue(ps, k) == v
    decreases |ps|
  {
    KeysSnoc(ps);
    if ps[|ps| - 1].0 != k {
      var init := ps[..|ps| - 1];
      assert forall x :: x in init ==> x in ps;
      LastValueOf(init, k, v);
    }
  }

  /**
   * The guard of the private `AuditEntry` builder: there is no row exactly when the state is not
   * Added, Modified or Deleted, the type is excluded, or the entity is owned.
   */
  lemma NoRecordWhen(e: Entry, policy: EntityAuditConfiguration, options: SerializerOptions)
    ensures Audit(e, policy, options) == Ok(None) <==> !IsModified(e) || policy.excludeEntity || e.isOwned
  {
    if IsModified(e) && !policy.excludeEntity && !e.isOwned {
      AuditedRowPresent(e, policy, options);
    }
  }

  lemma AuditedRowPresent(e: Entry, policy: EntityAuditConfiguration, options: SerializerOptions)
    requires IsModified(e) && !policy.excludeEntity && !e.isOwned
    ensures Audit(e, policy, options).Ok? ==> Audit(e, policy, options).value.Some?
  {
    match e.state
    case Added =>
    case Deleted =>
    case Modified =>
  }

  /**
   * Every row: not owned, the table name and key text of the entry, the entry's state as its
   * modification type, original values always and updated values only for a modified entry, both
   * the maps of that state.
   */
  lemma RecordFields(e: Entry, policy: EntityAuditConfiguration, options: SerializerOptions, rec: AuditRecord)
    requires Audit(e, policy, options) == Ok(Some(rec))
    ensures IsModified(e) && !policy.excludeEntity && !e.isOwned
    ensures !rec.isOwned
    ensures rec.tableName == GetTableNameOrDefault(e)
    ensures GetPrimaryKey(e) == Ok(rec.entityId)
    ensures rec.modificationType == e.state
    ensures rec.originalValues.Some? && (rec.updatedValues.Some? <==> e.state.Modified?)
    ensures StateValues(e, policy.ignoredProperties, options) == Ok((rec.originalValues, rec.updatedValues))
  {
  }

  /**
   * The exceptions a row can raise: the key lookup's InvalidOperationException, or the
   * ArgumentException of a duplicate name in a modified entry's owned entries. The
   * NotSupportedException branch is never reached.
   */
  lemma AuditErrors(e: Entry, policy: EntityAuditConfiguration, options: SerializerOptions)
    requires Audit(e, policy, options).Err?
    ensures IsModified(e) && !policy.excludeEntity && !e.isOwned
    ensures var x := Audit(e, policy, options).error;
            (GetPrimaryKey(e) == Err(x) && x.InvalidOperationException?)
            || (GetPrimaryKey(e).Ok? && e.state.Modified? && ModifiedOwnedEntities(e) == Err(x) && x.ArgumentException?)
    ensures !Audit(e, policy, options).error.NotSupportedException?
  {
    if GetPrimaryKey(e).Ok? {
      ModifiedOwnedErrors(e);
    }
  }

  /** `GetModifiedOwnedEntities` fails only with the ArgumentException of `ToDictionary`. */
  lemma ModifiedOwnedErrors(e: Entry)
    ensures ModifiedOwnedEntities(e).Err? ==> ModifiedOwnedEntities(e).error.ArgumentException?
    decreases e, 1
  {
    OwnedDiffErrors(e, |e.references|);
  }

  lemma {:induction false} OwnedDiffErrors(e: Entry, n: nat)
    requires n <= |e.references|
    ensures OwnedDiff(e, n).Err? ==> OwnedDiff(e, n).error.ArgumentException?
    decreases e, 0, n
  {
    if n > 0 && OwnedDiff(e, n).Err? {
      OwnedDiffErrors(e, n - 1);
      if OwnedDiff(e, n - 1).Ok? && IsTouched(e.references[n - 1]) {
        var acc := OwnedDiff(e, n - 1).value;
        OwnedDiffNext(e, n - 1, acc);
        var t := e.references[n - 1].targetEntry.value;
        ModifiedOwnedErrors(t);
      }
    }
  }

  /** No two modified properties share a name. */
  predicate ModifiedNamesUnique(ps: seq<Property>) {
    forall i, j :: 0 <= i < j < |ps| && ps[i].isModified && ps[j].isModified ==> ps[i].name != ps[j].name
  }

  /**
   * Among the first `n` references of `e`, every touched owned entry, and every one nested below
   * it, has modified properties with distinct names.
   */
  ghost predicate OwnedNamesUnique(e: Entry, n: nat)
    requires n <= |e.references|
    decreases e, n
  {
    if n == 0 then true
    else if !IsTouched(e.references[n - 1]) then OwnedNamesUnique(e, n - 1)
    else
      TargetSmaller(e, n - 1);
      var t := e.references[n - 1].targetEntry.value;
      OwnedNamesUnique(e, n - 1) && ModifiedNamesUnique(t.properties) && OwnedNamesUnique(t, |t.references|)
  }

  lemma DistinctSnoc(ks: seq<string>, k: string)
    ensures Distinct(ks + [k]) <==> Distinct(ks) && k !in ks
  {
    var s := ks + [k];
    if Distinct(ks) && k !in ks {
      forall i, j | 0 <= i < j < |s| ensures s[i] != s[j] {
        assert s[i] == ks[i];
      }
    }
    if Distinct(s) {
      forall i | 0 <= i < |ks| ensures ks[i] != k {
        assert s[i] != s[|ks|];
      }
      forall i, j | 0 <= i < j < |ks| ensures ks[i] != ks[j] {
        assert s[i] != s[j];
      }
    }
  }

  /** A name is a key of the modified-property pairs exactly when a modified property has it. */
  lemma {:induction false} ModifiedNameIn(ps: seq<Property>, side: Side, k: string)
    ensures k in Keys(ModifiedPairs(ps, side)) <==> exists i :: 0 <= i < |ps| && ps[i].isModified && ps[i].name == k
    decreases |ps|
  {
    if ps != [] {
      var init := ps[..|ps| - 1];
      ModifiedNameIn(init, side, k);
      var before := ModifiedPairs(init, side);
      if ps[|ps| - 1].isModified {
        assert Keys(ModifiedPairs(ps, side)) == Keys(before) + [ps[|ps| - 1].name];
      } else {
        assert ModifiedPairs(ps, side) == before;
      }
      if exists i :: 0 <= i < |ps| && ps[i].isModified && ps[i].name == k {
        var i :| 0 <= i < |ps| && ps[i].isModified && ps[i].name == k;
        if i < |init| {
          assert init[i] == ps[i];
        }
      }
    }
  }

  /** `ToDictionary` on either side of a property list succeeds exactly when modified names are unique. */
  lemma {:induction false} ModifiedNamesDistinct(ps: seq<Property>, side: Side)
    ensures ModifiedNamesUnique(ps) <==> Distinct(Keys(ModifiedPairs(ps, side)))
    decreases |ps|
  {
    if ps != [] {
      var init, last := ps[..|ps| - 1], ps[|ps| - 1];
      ModifiedNamesDistinct(init, side);
      var before := Keys(ModifiedPairs(init, side));
      assert ModifiedNamesUnique(ps) <==>
             ModifiedNamesUnique(init) && (last.isModified ==> forall i :: 0 <= i < |init| && init[i].isModified ==> init[i].name != last.name) by {
        assert forall i :: 0 <= i < |init| ==> ps[i] == init[i];
      }
      if last.isModified {
        assert Keys(ModifiedPairs(ps, side)) == before + [last.name];
        DistinctSnoc(before, last.name);
        ModifiedNameIn(init, side, last.name);
      } else {
        assert ModifiedPairs(ps, side) == ModifiedPairs(init, side);
      }
    }
  }

  /**
   * `GetModifiedOwnedEntities` succeeds exactly when no owned entry in the tree below the entry
   * has two modified properties of one name; otherwise `ToDictionary` throws.
   */
  lemma ModifiedOwnedOk(e: Entry)
    ensures ModifiedOwnedEntities(e).Ok? <==> OwnedNamesUnique(e, |e.references|)
    decreases e, 1
  {
    OwnedDiffOk(e, |e.references|);
  }

  lemma {:induction false} OwnedDiffOk(e: Entry, n: nat)
    requires n <= |e.references|
    ensures OwnedDiff(e, n).Ok? <==> OwnedNamesUnique(e, n)
    decreases e, 0, n
  {
    if n > 0 {
      OwnedDiffOk(e, n - 1);
      var r := e.references[n - 1];
      if OwnedDiff(e, n - 1).Ok? && IsTouched(r) {
        OwnedDiffNext(e, n - 1, OwnedDiff(e, n - 1).value);
        var t := r.targetEntry.value;
        ModifiedOwnedOk(t);
        ModifiedNamesDistinct(t.properties, Current);
        ModifiedNamesDistinct(t.properties, Original);
      }
    }
  }

  /** A key of a dictionary after copying pairs into it is an old key or a copied one. */
  lemma PutAllKeyIn(d: Dict, ps: seq<(string, Value)>, k: string)
    ensures k in Keys(PutAll(d, ps)) <==> k in Keys(d) || k in Keys(ps)
  {
    PutAllKeys(d, ps);
    AppendNewMembers(Keys(d), Keys(ps), k);
  }

  /** A dictionary filled from pairs that agree on `k`'s value maps `k` to it. */
  lemma PairsLookup(ps: seq<(string, Value)>, k: string, v: Value)
    requires k in Keys(ps)
    requires forall x :: x in ps && x.0 == k ==> x.1 == v
    ensures Lookup(PutAll([], ps), k) == Some(v)
  {
    PutAllLookup([], ps, k);
    LastValueOf(ps, k, v);
  }

  /** Copying a dictionary over another: its keys take its values, the others keep theirs. */
  lemma OverlayLookup(d: Dict, over: Dict, k: string)
    requires Distinct(Keys(over))
    ensures Lookup(PutAll(d, over), k) == if k in Keys(over) then Lookup(over, k) else Lookup(d, k)
  {
    PutAllLookup(d, over, k);
    if k in Keys(over) {
      LookupLastValue(over, k);
    }
  }

  /** The keys of `GetOwnedEntities` are distinct, and are the names of the touched references. */
  lemma OwnedEntitiesKeys(e: Entry, k: string)
    ensures Distinct(Keys(OwnedEntities(e)))
    ensures k in Keys(OwnedEntities(e)) <==> exists r :: r in e.references && IsTouched(r) && r.name == k
  {
    PutAllDistinct([], OwnedPairs(e.references));
    PutAllKeyIn([], OwnedPairs(e.references), k);
    KeysMembers(OwnedPairs(e.references), k);
    forall x | x in OwnedPairs(e.references) {
      OwnedPairsMembers(e.references, x);
    }
    if exists r :: r in e.references && IsTouched(r) && r.name == k {
      var r :| r in e.references && IsTouched(r) && r.name == k;
      OwnedPairsMembers(e.references, (r.name, r.currentValue));
    }
  }

  /**
   * Added and Deleted rows: a key is the name of a non-key, non-ignored property or the navigation
   * name of a touched owned reference, and nothing else.
   */
  lemma SnapshotKeys(e: Entry, ignored: seq<string>, side: Side, k: string)
    ensures k in Keys(SnapshotValues(e, ignored, side)) <==>
              (exists p :: p in e.properties && !p.isKey && p.name !in ignored && p.name == k)
              || (exists r :: r in e.references && IsTouched(r) && r.name == k)
  {
    var ps := WithoutIgnored(e.properties, ignored);
    var pairs := NonKeyPairs(ps, side);
    PutAllKeyIn(PutAll([], pairs), OwnedEntities(e), k);
    PutAllKeyIn([], pairs, k);
    OwnedEntitiesKeys(e, k);
    KeysMembers(pairs, k);
    forall x | x in pairs {
      NonKeyPairsMembers(ps, side, x);
    }
    if exists p :: p in e.properties && !p.isKey && p.name !in ignored && p.name == k {
      var p :| p in e.properties && !p.isKey && p.name !in ignored && p.name == k;
      NonKeyPairsMembers(ps, side, (p.name, ValueOf(p, side)));
    }
  }

  /**
   * Added and Deleted rows: a non-key, non-ignored property whose name nothing else writes maps to
   * its current value in an Added row and to its original value in a Deleted row.
   */
  lemma SnapshotPropertyValue(e: Entry, ignored: seq<string>, side: Side, p: Property)
    requires p in e.properties && !p.isKey && p.name !in ignored
    requires forall q :: q in e.properties && q.name == p.name ==> q == p
    requires forall r :: r in e.references && IsTouched(r) ==> r.name != p.name
    ensures Lookup(SnapshotValues(e, ignored, side), p.name) == Some(ValueOf(p, side))
  {
    var ps := WithoutIgnored(e.properties, ignored);
    var pairs := NonKeyPairs(ps, side);
    OwnedEntitiesKeys(e, p.name);
    OverlayLookup(PutAll([], pairs), OwnedEntities(e), p.name);
    NonKeyPairsMembers(ps, side, (p.name, ValueOf(p, side)));
    KeysMembers(pairs, p.name);
    forall x | x in pairs && x.0 == p.name ensures x.1 == ValueOf(p, side) {
      NonKeyPairsMembers(ps, side, x);
    }
    PairsLookup(pairs, p.name, ValueOf(p, side));
  }

  /**
   * Added and Deleted rows: a touched owned reference maps to its current value, on both sides,
   * and it overwrites a property of the same name.
   */
  lemma SnapshotReferenceValue(e: Entry, ignored: seq<string>, side: Side, r: Reference)
    requires r in e.references && IsTouched(r)
    requires forall r' :: r' in e.references && IsTouched(r') && r'.name == r.name ==> r' == r
    ensures Lookup(SnapshotValues(e, ignored, side), r.name) == Some(r.currentValue)
  {
    var ps := WithoutIgnored(e.properties, ignored);
    var pairs := OwnedPairs(e.references);
    OwnedEntitiesKeys(e, r.name);
    OverlayLookup(PutAll([], NonKeyPairs(ps, side)), OwnedEntities(e), r.name);
    OwnedPairsMembers(e.references, (r.name, r.currentValue));
    KeysMembers(pairs, r.name);
    forall x | x in pairs && x.0 == r.name ensures x.1 == r.currentValue {
      OwnedPairsMembers(e.references, x);
    }
    PairsLookup(pairs, r.name, r.currentValue);
  }

  /** An empty ignore list keeps every property. */
  lemma {:induction false} WithoutNothingIgnored(ps: seq<Property>)
    ensures WithoutIgnored(ps, []) == ps
  {
    if ps != [] {
      WithoutNothingIgnored(ps[1..]);
      assert [ps[0]] + ps[1..] == ps;
    }
  }

  /** Copying pairs with distinct keys into an empty dictionary gives the pairs themselves. */
  lemma {:induction false} PutAllFresh(ps: seq<(string, Value)>)
    requires Distinct(Keys(ps))
    ensures PutAll([], ps) == ps
    decreases |ps|
  {
    if ps != [] {
      var init, last := ps[..|ps| - 1], ps[|ps| - 1];
      KeysSnoc(ps);
      DistinctSnoc(Keys(init), last.0);
      PutAllFresh(init);
      PutNew(init, last.0, last.1);
      PutAllAppendOne([], init, last);
      InitLast(ps);
    }
  }

  /**
   * Modified rows: both maps have the same keys in the same order, so `originalValues` and
   * `updatedValues` can be read side by side.
   */
  lemma ModifiedKeysAgree(e: Entry, ignored: seq<string>)
    requires ModifiedValues(e, ignored).Ok?
    ensures var v := ModifiedValues(e, ignored).value; Keys(v.0) == Keys(v.1)
  {
    var ps := WithoutIgnored(e.properties, ignored);
    var owned := ModifiedOwnedEntities(e).value;
    var original, current := ModifiedPairs(ps, Original), ModifiedPairs(ps, Current);
    ModifiedOwnedMirrored(e);
    ModifiedPairsKeys(ps, Original, Current);
    PutAllKeys([], original);
    PutAllKeys([], current);
    PutAllKeys(PutAll([], original), owned.0);
    PutAllKeys(PutAll([], current), owned.1);
  }

  /** The modified, non-ignored property names, on either side. */
  lemma ModifiedPropertyNameIn(e: Entry, ignored: seq<string>, side: Side, k: string)
    ensures k in Keys(ModifiedPairs(WithoutIgnored(e.properties, ignored), side)) <==>
              exists p :: p in e.properties && p.isModified && p.name !in ignored && p.name == k
  {
    var ps := WithoutIgnored(e.properties, ignored);
    ModifiedNameIn(ps, side, k);
    if exists p :: p in e.properties && p.isModified && p.name !in ignored && p.name == k {
      var p :| p in e.properties && p.isModified && p.name !in ignored && p.name == k;
      var i :| 0 <= i < |ps| && ps[i] == p;
    }
  }

  /**
   * Modified rows: a key is the name of a modified, non-ignored property (key properties
   * included) or of a touched owned reference, and nothing else.
   */
  lemma ModifiedKeys(e: Entry, ignored: seq<string>, k: string)
    requires ModifiedValues(e, ignored).Ok?
    ensures k in Keys(ModifiedValues(e, ignored).value.0) <==>
              (exists p :: p in e.properties && p.isModified && p.name !in ignored && p.name == k)
              || (exists r :: r in e.references && IsTouched(r) && r.name == k)
  {
    var original := ModifiedPairs(WithoutIgnored(e.properties, ignored), Original);
    var owned := ModifiedOwnedEntities(e).value;
    ModifiedOwnedMirrored(e);
    PutAllKeyIn(PutAll([], original), owned.0, k);
    PutAllKeyIn([], original, k);
    OwnedEntitiesKeys(e, k);
    ModifiedPropertyNameIn(e, ignored, Original, k);
  }

  /** The keys of the nested maps of `GetModifiedOwnedEntities` are distinct. */
  lemma ModifiedOwnedDistinct(e: Entry)
    requires ModifiedOwnedEntities(e).Ok?
    ensures Distinct(Keys(ModifiedOwnedEntities(e).value.0)) && Distinct(Keys(ModifiedOwnedEntities(e).value.1))
  {
    ModifiedOwnedMirrored(e);
    OwnedEntitiesKeys(e, "");
  }

  /** The pairs of one side of the Modified property loop that carry `p`'s name. */
  lemma ModifiedPairsOf(e: Entry, ignored: seq<string>, side: Side, p: Property)
    requires p in e.properties && p.isModified && p.name !in ignored
    requires forall q :: q in e.properties && q.name == p.name ==> q == p
    ensures Lookup(PutAll([], ModifiedPairs(WithoutIgnored(e.properties, ignored), side)), p.name) == Some(ValueOf(p, side))
  {
    var ps := WithoutIgnored(e.properties, ignored);
    var pairs := ModifiedPairs(ps, side);
    ModifiedPairsMembers(ps, side, (p.name, ValueOf(p, side)));
    KeysMembers(pairs, p.name);
    forall x | x in pairs && x.0 == p.name ensures x.1 == ValueOf(p, side) {
      ModifiedPairsMembers(ps, side, x);
    }
    PairsLookup(pairs, p.name, ValueOf(p, side));
  }

  /**
   * Modified rows: a modified, non-ignored property whose name nothing else writes maps to its
   * original value in `originalValues` and to its current value in `updatedValues`.
   */
  lemma ModifiedPropertyValues(e: Entry, ignored: seq<string>, p: Property)
    requires ModifiedValues(e, ignored).Ok?
    requires p in e.properties && p.isModified && p.name !in ignored
    requires forall q :: q in e.properties && q.name == p.name ==> q == p
    requires forall r :: r in e.references && IsTouched(r) ==> r.name != p.name
    ensures Lookup(ModifiedValues(e, ignored).value.0, p.name) == Some(p.originalValue)
    ensures Lookup(ModifiedValues(e, ignored).value.1, p.name) == Some(p.currentValue)
  {
    var ps := WithoutIgnored(e.properties, ignored);
    var owned := ModifiedOwnedEntities(e).value;
    ModifiedOwnedMirrored(e);
    ModifiedOwnedDistinct(e);
    OwnedEntitiesKeys(e, p.name);
    OverlayLookup(PutAll([], ModifiedPairs(ps, Original)), owned.0, p.name);
    OverlayLookup(PutAll([], ModifiedPairs(ps, Current)), owned.1, p.name);
    ModifiedPairsOf(e, ignored, Original, p);
    ModifiedPairsOf(e, ignored, Current, p);
  }

  /**
   * After the first `n` references, the last touched reference of a name holds the nested maps
   * of its owned entry.
   */
  lemma {:induction false} OwnedDiffLookup(e: Entry, n: nat, i: nat)
    requires i < n <= |e.references| && OwnedDiff(e, n).Ok? && IsTouched(e.references[i])
    requires forall j :: i < j < n && IsTouched(e.references[j]) ==> e.references[j].name != e.references[i].name
    ensures var t := e.references[i].targetEntry.value;
            OwnedMaps(t, ModifiedOwnedEntities(t)).Ok?
            && Lookup(OwnedDiff(e, n).value.0, e.references[i].name) == Some(OwnedMaps(t, ModifiedOwnedEntities(t)).value.0)
            && Lookup(OwnedDiff(e, n).value.1, e.references[i].name) == Some(OwnedMaps(t, ModifiedOwnedEntities(t)).value.1)
    decreases n
  {
    OwnedDiffPrefixOk(e, n);
    if n - 1 == i {
      OwnedDiffTouched(e, n);
    } else {
      OwnedDiffLookup(e, n - 1, i);
      if IsTouched(e.references[n - 1]) {
        OwnedDiffTouched(e, n);
      } else {
        OwnedDiffSkip(e, n);
      }
    }
  }

  /**
   * The nested maps of one owned entry are those a Modified row of that entry would hold with
   * nothing ignored: its modified properties, keys included, then its own nested owned entries.
   */
  lemma OwnedMapsAreModifiedValues(t: Entry)
    requires OwnedMaps(t, ModifiedOwnedEntities(t)).Ok?
    ensures ModifiedValues(t, []).Ok?
    ensures OwnedMaps(t, ModifiedOwnedEntities(t)).value == (Map(ModifiedValues(t, []).value.0), Map(ModifiedValues(t, []).value.1))
  {
    WithoutNothingIgnored(t.properties);
    ModifiedPairsKeys(t.properties, Original, Current);
    PutAllFresh(ModifiedPairs(t.properties, Original));
    PutAllFresh(ModifiedPairs(t.properties, Current));
  }

  /**
   * Modified rows: a touched owned reference whose name nothing else writes holds, on each side,
   * the map a Modified row of its owned entry would hold with nothing ignored; ignored names and
   * key filtering do not reach into owned entries.
   */
  lemma ModifiedNested(e: Entry, ignored: seq<string>, i: nat)
    requires ModifiedValues(e, ignored).Ok?
    requires i < |e.references| && IsTouched(e.references[i])
    requires forall j :: 0 <= j < |e.references| && j != i && IsTouched(e.references[j]) ==> e.references[j].name != e.references[i].name
    ensures var t := e.references[i].targetEntry.value;
            ModifiedValues(t, []).Ok?
            && Lookup(ModifiedValues(e, ignored).value.0, e.references[i].name) == Some(Map(ModifiedValues(t, []).value.0))
            && Lookup(ModifiedValues(e, ignored).value.1, e.references[i].name) == Some(Map(ModifiedValues(t, []).value.1))
  {
    var r := e.references[i];
    var ps := WithoutIgnored(e.properties, ignored);
    var owned := ModifiedOwnedEntities(e).value;
    ModifiedOwnedMirrored(e);
    ModifiedOwnedDistinct(e);
    OwnedEntitiesKeys(e, r.name);
    assert r in e.references;
    OverlayLookup(PutAll([], ModifiedPairs(ps, Original)), owned.0, r.name);
    OverlayLookup(PutAll([], ModifiedPairs(ps, Current)), owned.1, r.name);
    OwnedDiffLookup(e, |e.references|, i);
    OwnedMapsAreModifiedValues(r.targetEntry.value);
  }

  /** The names of the non-key properties, in order. */
  function NonKeyNames(ps: seq<Property>): seq<string>
    decreases |ps|
  {
    if ps == [] then []
    else NonKeyNames(ps[..|ps| - 1]) + (if ps[|ps| - 1].isKey then [] else [ps[|ps| - 1].name])
  }

  /** The names of the modified properties, in order. */
  function ModifiedNames(ps: seq<Property>): seq<string>
    decreases |ps|
  {
    if ps == [] then []
    else ModifiedNames(ps[..|ps| - 1]) + (if ps[|ps| - 1].isModified then [ps[|ps| - 1].name] else [])
  }

  /** The navigation names of the touched owned references, in order. */
  function TouchedNames(refs: seq<Reference>): seq<string>
    decreases |refs|
  {
    if refs == [] then []
    else TouchedNames(refs[..|refs| - 1]) + (if IsTouched(refs[|refs| - 1]) then [refs[|refs| - 1].name] else [])
  }

  lemma {:induction false} NonKeyPairsNames(ps: seq<Property>, side: Side)
    ensures Keys(NonKeyPairs(ps, side)) == NonKeyNames(ps)
    decreases |ps|
  {
    if ps != [] {
      NonKeyPairsNames(ps[..|ps| - 1], side);
    }
  }

  lemma {:induction false} ModifiedPairsNames(ps: seq<Property>, side: Side)
    ensures Keys(ModifiedPairs(ps, side)) == ModifiedNames(ps)
    decreases |ps|
  {
    if ps != [] {
      ModifiedPairsNames(ps[..|ps| - 1], side);
    }
  }

  lemma {:induction false} OwnedPairsNames(refs: seq<Reference>)
    ensures Keys(OwnedPairs(refs)) == TouchedNames(refs)
    decreases |refs|
  {
    if refs != [] {
      OwnedPairsNames(refs[..|refs| - 1]);
    }
  }

  /** Appending the new keys of `ys` and then of `zs` is appending the new keys of `zs` to those of `ys`. */
  lemma {:induction false} AppendNewAssoc(xs: seq<string>, ys: seq<string>, zs: seq<string>)
    ensures AppendNew(xs, AppendNew(ys, zs)) == AppendNew(AppendNew(xs, ys), zs)
    decreases |zs|
  {
    if zs != [] {
      var init, z := zs[..|zs| - 1], zs[|zs| - 1];
      var a := AppendNew(ys, init);
      AppendNewAssoc(xs, ys, init);
      if z in a {
        AppendNewMembers(ys, init, z);
        AppendNewMembers(AppendNew(xs, ys), init, z);
        AppendNewMembers(xs, ys, z);
      } else {
        assert (a + [z])[..|a|] == a;
      }
    }
  }

  /** The keys of `GetOwnedEntities`: the touched navigation names, each where it first occurs. */
  lemma OwnedEntitiesOrder(e: Entry)
    ensures Keys(OwnedEntities(e)) == AppendNew([], TouchedNames(e.references))
  {
    OwnedPairsNames(e.references);
    PutAllKeys([], OwnedPairs(e.references));
  }

  /**
   * Added and Deleted rows: the keys are the non-key, non-ignored property names in property
   * order, then the touched navigation names in reference order, each where it first occurs; an
   * overwrite keeps a key's position.
   */
  lemma SnapshotOrder(e: Entry, ignored: seq<string>, side: Side)
    ensures Keys(SnapshotValues(e, ignored, side)) ==
            AppendNew(AppendNew([], NonKeyNames(WithoutIgnored(e.properties, ignored))), TouchedNames(e.references))
  {
    var pairs := NonKeyPairs(WithoutIgnored(e.properties, ignored), side);
    var a := AppendNew([], NonKeyNames(WithoutIgnored(e.properties, ignored)));
    NonKeyPairsNames(WithoutIgnored(e.properties, ignored), side);
    PutAllKeys([], pairs);
    OwnedEntitiesOrder(e);
    PutAllKeys(PutAll([], pairs), OwnedEntities(e));
    AppendNewAssoc(a, [], TouchedNames(e.references));
  }

  /** The first part of a sequence without repeats has no repeats either. */
  lemma DistinctPrefix(a: seq<string>, b: seq<string>)
    requires Distinct(a + b)
    ensures Distinct(a)
  {
    forall i, j | 0 <= i < j < |a| ensures a[i] != a[j] {
      assert (a + b)[i] == a[i] && (a + b)[j] == a[j];
    }
  }

  /**
   * Added and Deleted rows with no name written twice: exactly the kept property names, then the
   * touched navigation names.
   */
  lemma SnapshotOrderDistinct(e: Entry, ignored: seq<string>, side: Side)
    requires Distinct(NonKeyNames(WithoutIgnored(e.properties, ignored)) + TouchedNames(e.references))
    ensures Keys(SnapshotValues(e, ignored, side)) == NonKeyNames(WithoutIgnored(e.properties, ignored)) + TouchedNames(e.references)
  {
    var a := NonKeyNames(WithoutIgnored(e.properties, ignored));
    SnapshotOrder(e, ignored, side);
    DistinctPrefix(a, TouchedNames(e.references));
    assert [] + a == a;
    AppendNewConcat([], a);
    AppendNewConcat(a, TouchedNames(e.references));
  }

  /**
   * Modified rows: the keys are the modified, non-ignored property names in property order, then
   * the touched navigation names in reference order, each where it first occurs.
   */
  lemma ModifiedOrder(e: Entry, ignored: seq<string>)
    requires ModifiedValues(e, ignored).Ok?
    ensures Keys(ModifiedValues(e, ignored).value.0) ==
            AppendNew(AppendNew([], ModifiedNames(WithoutIgnored(e.properties, ignored))), TouchedNames(e.references))
  {
    var pairs := ModifiedPairs(WithoutIgnored(e.properties, ignored), Original);
    var a := AppendNew([], ModifiedNames(WithoutIgnored(e.properties, ignored)));
    ModifiedPairsNames(WithoutIgnored(e.properties, ignored), Original);
    ModifiedOwnedMirrored(e);
    PutAllKeys([], pairs);
    OwnedEntitiesOrder(e);
    PutAllKeys(PutAll([], pairs), ModifiedOwnedEntities(e).value.0);
    AppendNewAssoc(a, [], TouchedNames(e.references));
  }

  /** `AuditEntries` adds at most one row per tracked entry in an Added, Modified or Deleted state. */
  lemma {:induction false} AuditAllBound(es: seq<Entry>, cache: map<string, EntityAuditConfiguration>,
                                         configurations: map<string, Configuration>, onlyConfiguredAudited: bool, options: SerializerOptions)
    ensures |AuditAll(es, cache, configurations, onlyConfiguredAudited, options).records| <= |ModifiedEntries(es)|
    decreases |es|
  {
    if es != [] {
      var e := es[|es| - 1];
      AuditAllBound(es[..|es| - 1], cache, configurations, onlyConfiguredAudited, options);
      NoRecordWhen(e, Cached(cache, configurations, onlyConfiguredAudited, e.clrType), options);
    }
  }

  /** No tracked entry's row raises an exception under its type's policy. */
  ghost predicate AllRowsOk(es: seq<Entry>, cache: map<string, EntityAuditConfiguration>,
                            configurations: map<string, Configuration>, onlyConfiguredAudited: bool, options: SerializerOptions)
  {
    forall i :: 0 <= i < |es| ==> Audit(es[i], Cached(cache, configurations, onlyConfiguredAudited, es[i].clrType), options).Ok?
  }

  lemma AllRowsOkSnoc(es: seq<Entry>, cache: map<string, EntityAuditConfiguration>,
                      configurations: map<string, Configuration>, onlyConfiguredAudited: bool, options: SerializerOptions)
    requires es != []
    ensures var e := es[|es| - 1];
            AllRowsOk(es, cache, configurations, onlyConfiguredAudited, options) <==>
            AllRowsOk(es[..|es| - 1], cache, configurations, onlyConfiguredAudited, options)
            && Audit(e, Cached(cache, configurations, onlyConfiguredAudited, e.clrType), options).Ok?
  {
    var init := es[..|es| - 1];
    assert forall i :: 0 <= i < |init| ==> init[i] == es[i];
  }

  /** `AuditEntries` completes exactly when no tracked entry's row raises an exception. */
  lemma {:induction false} AuditAllCompletes(es: seq<Entry>, cache: map<string, EntityAuditConfiguration>,
                                             configurations: map<string, Configuration>, onlyConfiguredAudited: bool, options: SerializerOptions)
    ensures AuditAll(es, cache, configurations, onlyConfiguredAudited, options).failure.None? <==>
            AllRowsOk(es, cache, configurations, onlyConfiguredAudited, options)
    decreases |es|
  {
    if es != [] {
      AuditAllCompletes(es[..|es| - 1], cache, configurations, onlyConfiguredAudited, options);
      AuditAllCompletesStep(es, cache, configurations, onlyConfiguredAudited, options);
      AllRowsOkSnoc(es, cache, configurations, onlyConfiguredAudited, options);
    }
  }

  /** One more entry: the run completes iff it completed before and the entry's row raises nothing. */
  lemma AuditAllCompletesStep(es: seq<Entry>, cache: map<string, EntityAuditConfiguration>,
                              configurations: map<string, Configuration>, onlyConfiguredAudited: bool, options: SerializerOptions)
    requires es != []
    ensures var e := es[|es| - 1];
            AuditAll(es, cache, configurations, onlyConfiguredAudited, options).failure.None? <==>
            AuditAll(es[..|es| - 1], cache, configurations, onlyConfiguredAudited, options).failure.None?
            && Audit(e, Cached(cache, configurations, onlyConfiguredAudited, e.clrType), options).Ok?
  {
  }

  /** Every row `AuditEntries` adds is the row of one of the tracked entries. */
  lemma {:induction false} AuditAllRows(es: seq<Entry>, cache: map<string, EntityAuditConfiguration>,
                                        configurations: map<string, Configuration>, onlyConfiguredAudited: bool, options: SerializerOptions)
    ensures forall rec :: rec in AuditAll(es, cache, configurations, onlyConfiguredAudited, options).records ==>
              exists i :: 0 <= i < |es| && Audit(es[i], Cached(cache, configurations, onlyConfiguredAudited, es[i].clrType), options) == Ok(Some(rec))
    decreases |es|
  {
    if es != [] {
      var init := es[..|es| - 1];
      AuditAllRows(init, cache, configurations, onlyConfiguredAudited, options);
      assert forall i :: 0 <= i < |init| ==> init[i] == es[i];
    }
  }

  /**
   * Every row `AuditEntries` adds is for an entity that is not owned, with an Added, Modified or
   * Deleted modification type, and the key text and table name of an entry of its unit of work.
   */
  lemma AuditAllRowsAudited(es: seq<Entry>, cache: map<string, EntityAuditConfiguration>,
                            configurations: map<string, Configuration>, onlyConfiguredAudited: bool, options: SerializerOptions,
                            rec: AuditRecord)
    requires rec in AuditAll(es, cache, configurations, onlyConfiguredAudited, options).records
    ensures !rec.isOwned && (rec.modificationType.Added? || rec.modificationType.Modified? || rec.modificationType.Deleted?)
    ensures exists e :: e in es && GetPrimaryKey(e) == Ok(rec.entityId) && rec.tableName == GetTableNameOrDefault(e)
  {
    AuditAllRows(es, cache, configurations, onlyConfiguredAudited, options);
    var i :| 0 <= i < |es| && Audit(es[i], Cached(cache, configurations, onlyConfiguredAudited, es[i].clrType), options) == Ok(Some(rec));
    RecordFields(es[i], Cached(cache, configurations, onlyConfiguredAudited, es[i].clrType), options, rec);
  }

  /**
   * An ignored name is never a key of a row's maps, whatever the state, unless a touched owned
   * reference has that navigation name.
   */
  lemma IgnoredNeverRecorded(e: Entry, policy: EntityAuditConfiguration, options: SerializerOptions, rec: AuditRecord, k: string)
    requires Audit(e, policy, options) == Ok(Some(rec))
    requires k in policy.ignoredProperties
    requires forall r :: r in e.references && IsTouched(r) ==> r.name != k
    ensures k !in Keys(rec.originalValues.value.value)
    ensures rec.updatedValues.Some? ==> k !in Keys(rec.updatedValues.value.value)
  {
    RecordFields(e, policy, options, rec);
    if e.state.Modified? {
      ModifiedKeys(e, policy.ignoredProperties, k);
      ModifiedKeysAgree(e, policy.ignoredProperties);
    } else if e.state.Added? {
      SnapshotKeys(e, policy.ignoredProperties, Current, k);
    } else {
      SnapshotKeys(e, policy.ignoredProperties, Original, k);
    }
  }

  /** The sample's `UserAuditConfiguration`, whose `Configure` calls `IgnoreProperty(x => x.Password)`. */
  const UserAuditConfiguration := Configuration("UserAuditConfiguration", [Ignore("Password")])

  /** With `UserAuditConfiguration` registered for its type, a user's password is never written to a row. */
  lemma PasswordNotRecorded(e: Entry, configurations: map<string, Configuration>, onlyConfiguredAudited: bool,
                            options: SerializerOptions, rec: AuditRecord)
    requires e.clrType in configurations && configurations[e.clrType] == UserAuditConfiguration
    requires Audit(e, Resolve(configurations, onlyConfiguredAudited, e.clrType), options) == Ok(Some(rec))
    requires forall r :: r in e.references && IsTouched(r) ==> r.name != "Password"
    ensures "Password" !in Keys(rec.originalValues.value.value)
    ensures rec.updatedValues.Some? ==> "Password" !in Keys(rec.updatedValues.value.value)
  {
    var policy := Resolve(configurations, onlyConfiguredAudited, e.clrType);
    assert IgnoredNames([Ignore("Password")]) == ["Password"];
    IgnoredNeverRecorded(e, policy, options, rec, "Password");
  }
}
