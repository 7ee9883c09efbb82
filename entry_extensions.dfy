/** The two metadata helpers the audit record takes its table name and entity id from. */
module EntityEntryExtensions {
  import opened Wrappers
  import opened Dictionaries
  import opened Tracking

  const MoreThanOneElement := "Sequence contains more than one element"
  const PropertyNotFound := "The property could not be found on the entity type"

  /** `Object.ToString()` of a non-null value. */
  function ToString(v: Value): string {
    match v
    case Null => ""
    case Scalar(text) => text
    case Instance(typeName, _) => typeName
    case Map(_) => "System.Collections.Generic.Dictionary`2[System.String,System.Object]"
  }

  /** `v?.ToString() ?? string.Empty`. */
  function KeyText(v: Value): string {
    if v.Null? then "" else ToString(v)
  }

  /** `entry.Property(name)`: the property entry with that name, None where EF would throw. */
  function FindProperty(ps: seq<Property>, name: string): (r: Option<Property>)
    ensures r.Some? <==> name in PropertyNames(ps)
    ensures r.Some? ==> r.value in ps && r.value.name == name
  {
    if ps == [] then None
    else if ps[0].name == name then Some(ps[0])
    else
      var r := FindProperty(ps[1..], name);
      assert PropertyNames(ps) == [ps[0].name] + PropertyNames(ps[1..]);
      r
  }

  /**
   * `GetPrimaryKey`: the string form of the single primary-key property's current value; the
   * empty string when there is no key, or when that value is null. A composite key makes
   * `SingleOrDefault` throw.
   */
  function GetPrimaryKey(e: Entry): (r: Result<string, Exception>)
    ensures e.primaryKey.None? || e.primaryKey.value == [] ==> r == Ok("")
    ensures e.primaryKey.Some? && |e.primaryKey.value| > 1 ==> r == Err(InvalidOperationException(MoreThanOneElement))
    ensures e.primaryKey.Some? && |e.primaryKey.value| == 1 && e.primaryKey.value[0] !in PropertyNames(e.properties) ==> r.Err?
    ensures forall p :: (p in e.properties && e.primaryKey == Some([p.name]) && Distinct(PropertyNames(e.properties))
                         ==> r == Ok(KeyText(p.currentValue)))
  {
    match e.primaryKey
    case None => Ok("")
    case Some(names) =>
      if |names| == 0 then Ok("")
      else if |names| > 1 then Err(InvalidOperationException(MoreThanOneElement))
      else
        match FindProperty(e.properties, names[0])
        case None => Err(InvalidOperationException(PropertyNotFound))
        case Some(p) =>
          assert forall q :: q in e.properties && q.name == p.name && Distinct(PropertyNames(e.properties)) ==> q == p by {
            forall q | q in e.properties && q.name == p.name && Distinct(PropertyNames(e.properties)) ensures q == p {
              var i :| 0 <= i < |e.properties| && e.properties[i] == q;
              var j :| 0 <= j < |e.properties| && e.properties[j] == p;
              assert PropertyNames(e.properties)[i] == PropertyNames(e.properties)[j];
            }
          }
          Ok(KeyText(p.currentValue))
  }

  /** `GetTableNameOrDefault`: the mapped table name, or the entity type's name when unmapped. */
  function GetTableNameOrDefault(e: Entry): (r: string)
    ensures e.tableName.Some? ==> r == e.tableName.value
    ensures e.tableName.None? ==> r == e.typeName
  {
    if e.tableName.Some? then e.tableName.value else e.typeName
  }
}
