/**
 * The values the audit code handles (`object?`) and the `Dictionary<string, object?>` it fills.
 * A dictionary that is only ever added to or overwritten enumerates its entries in first-insertion
 * order, and an overwrite keeps the entry's position; `Dict` models exactly that, as a sequence of
 * (key, value) pairs with distinct keys.
 */
module Dictionaries {
  import opened Wrappers

  /** A runtime value read from a tracked property or a navigation. */
  datatype Value =
    | Null                                    // C# null
    | Scalar(text: string)                    // a non-null primitive, carried by its ToString() form
    | Instance(typeName: string, id: nat)     // a reference to an object, e.g. an owned entity instance
    | Map(entries: seq<(string, Value)>)      // a Dictionary<string, object?> built by the diff

  /** A `Dictionary<string, object?>` in enumeration order. */
  type Dict = seq<(string, Value)>

  /** The keys of `d`, in enumeration order. */
  function Keys(d: Dict): (ks: seq<string>)
    ensures |ks| == |d|
    ensures forall i :: 0 <= i < |d| ==> ks[i] == d[i].0
  {
    seq(|d|, i requires 0 <= i < |d| => d[i].0)
  }

  predicate Distinct(ks: seq<string>) {
    forall i, j :: 0 <= i < j < |ks| ==> ks[i] != ks[j]
  }

  lemma KeysCons(d: Dict)
    requires d != []
    ensures Keys(d) == [d[0].0] + Keys(d[1..])
  {
  }

  lemma KeysSnoc(d: Dict)
    requires d != []
    ensures Keys(d) == Keys(d[..|d| - 1]) + [d[|d| - 1].0]
  {
  }

  /** The indexer's read, `d[k]`, with a missing key as None. */
  function Lookup(d: Dict, k: string): (r: Option<Value>)
    ensures r.Some? <==> k in Keys(d)
  {
    if d == [] then None
    else
      KeysCons(d);
      if d[0].0 == k then Some(d[0].1) else Lookup(d[1..], k)
  }

  /** The indexer's write, `d[k] = v`: overwrite in place, or append a new entry at the end. */
  function Put(d: Dict, k: string, v: Value): (r: Dict)
    ensures Keys(r) == if k in Keys(d) then Keys(d) else Keys(d) + [k]
    ensures Lookup(r, k) == Some(v)
    ensures forall k' :: k' != k ==> Lookup(r, k') == Lookup(d, k')
  {
    if d == [] then [(k, v)]
    else if d[0].0 == k then
      PutHead(d, k, v);
      [(k, v)] + d[1..]
    else
      var t := Put(d[1..], k, v);
      PutTail(d, k, v, t);
      [d[0]] + t
  }

  /** Overwriting the first entry keeps the keys and changes only the lookup of its key. */
  lemma PutHead(d: Dict, k: string, v: Value)
    requires d != [] && d[0].0 == k
    ensures var r := [(k, v)] + d[1..];
            && Keys(r) == Keys(d) && Lookup(r, k) == Some(v)
            && forall k' :: k' != k ==> Lookup(r, k') == Lookup(d, k')
  {
    var r := [(k, v)] + d[1..];
    KeysCons(d);
    KeysCons(r);
    assert r[1..] == d[1..];
  }

  /** A write past a first entry with another key: the first entry stays in front of the written tail. */
  lemma PutTail(d: Dict, k: string, v: Value, t: Dict)
    requires d != [] && d[0].0 != k
    requires Keys(t) == if k in Keys(d[1..]) then Keys(d[1..]) else Keys(d[1..]) + [k]
    requires Lookup(t, k) == Some(v)
    requires forall k' :: k' != k ==> Lookup(t, k') == Lookup(d[1..], k')
    ensures var r := [d[0]] + t;
            && Keys(r) == (if k in Keys(d) then Keys(d) else Keys(d) + [k])
            && Lookup(r, k) == Some(v)
            && forall k' :: k' != k ==> Lookup(r, k') == Lookup(d, k')
  {
    var r := [d[0]] + t;
    KeysCons(d);
    KeysCons(r);
    assert r[1..] == t;
  }

  /** `foreach (k, v) in ps: d[k] = v`. */
  function PutAll(d: Dict, ps: seq<(string, Value)>): Dict
    decreases |ps|
  {
    if ps == [] then d
    else Put(PutAll(d, ps[..|ps| - 1]), ps[|ps| - 1].0, ps[|ps| - 1].1)
  }

  /** The keys of `ks` followed by those of `ns` not seen before, in order of first appearance. */
  function AppendNew(ks: seq<string>, ns: seq<string>): seq<string>
    decreases |ns|
  {
    if ns == [] then ks
    else
      var a := AppendNew(ks, ns[..|ns| - 1]);
      if ns[|ns| - 1] in a then a else a + [ns[|ns| - 1]]
  }

  /** The value of the last pair in `ps` whose key is `k`. */
  function LastValue(ps: seq<(string, Value)>, k: string): Value
    requires k in Keys(ps)
    decreases |ps|
  {
    KeysSnoc(ps);
    if ps[|ps| - 1].0 == k then ps[|ps| - 1].1 else LastValue(ps[..|ps| - 1], k)
  }

  /** Copying pairs into a dictionary yields the old keys, then each new key where it first occurs. */
  lemma {:induction false} PutAllKeys(d: Dict, ps: seq<(string, Value)>)
    ensures Keys(PutAll(d, ps)) == AppendNew(Keys(d), Keys(ps))
    decreases |ps|
  {
    if ps != [] {
      PutAllKeys(d, ps[..|ps| - 1]);
      KeysSnoc(ps);
    }
  }

  /** After copying pairs into a dictionary, a key holds the last value copied for it, if any. */
  lemma {:induction false} PutAllLookup(d: Dict, ps: seq<(string, Value)>, k: string)
    ensures Lookup(PutAll(d, ps), k) == if k in Keys(ps) then Some(LastValue(ps, k)) else Lookup(d, k)
    decreases |ps|
  {
    if ps != [] {
      PutAllLookup(d, ps[..|ps| - 1], k);
      KeysSnoc(ps);
    }
  }

  lemma {:induction false} AppendNewMembers(ks: seq<string>, ns: seq<string>, k: string)
    ensures k in AppendNew(ks, ns) <==> k in ks || k in ns
    decreases |ns|
  {
    if ns != [] {
      AppendNewMembers(ks, ns[..|ns| - 1], k);
      assert ns == ns[..|ns| - 1] + [ns[|ns| - 1]];
    }
  }

  /** Appending only new keys never introduces a duplicate. */
  lemma {:induction false} AppendNewDistinct(ks: seq<string>, ns: seq<string>)
    requires Distinct(ks)
    ensures Distinct(AppendNew(ks, ns))
    decreases |ns|
  {
    if ns != [] {
      AppendNewDistinct(ks, ns[..|ns| - 1]);
    }
  }

  /** When no key repeats, appending new keys is plain concatenation. */
  lemma {:induction false} AppendNewConcat(ks: seq<string>, ns: seq<string>)
    requires Distinct(ks + ns)
    ensures AppendNew(ks, ns) == ks + ns
    decreases |ns|
  {
    if ns != [] {
      var init := ns[..|ns| - 1];
      assert ks + ns == (ks + init) + [ns[|ns| - 1]];
      assert Distinct(ks + init) by {
        forall i, j | 0 <= i < j < |ks + init|
          ensures (ks + init)[i] != (ks + init)[j]
        {
          assert (ks + init)[i] == (ks + ns)[i] && (ks + init)[j] == (ks + ns)[j];
        }
      }
      AppendNewConcat(ks, init);
      assert ns[|ns| - 1] !in ks + init by {
        forall i | 0 <= i < |ks + init| ensures (ks + init)[i] != ns[|ns| - 1] {
          assert (ks + init)[i] == (ks + ns)[i] && ns[|ns| - 1] == (ks + ns)[|ks + ns| - 1];
        }
      }
    }
  }

  /** Copying pairs into a dictionary keeps its keys distinct. */
  lemma PutAllDistinct(d: Dict, ps: seq<(string, Value)>)
    requires Distinct(Keys(d))
    ensures Distinct(Keys(PutAll(d, ps)))
  {
    PutAllKeys(d, ps);
    AppendNewDistinct(Keys(d), Keys(ps));
  }

  /**
   * Position `j` is the first whose key was already met, and that key is `k`: the keys before `j`
   * are distinct and include `k`.
   */
  predicate RepeatedAt(ps: seq<(string, Value)>, k: string, j: int) {
    0 <= j < |ps| && ps[j].0 == k && k in Keys(ps[..j]) && Distinct(Keys(ps[..j]))
  }

  /**
   * `ps.ToDictionary(...)`: the pairs themselves when their keys are distinct, otherwise the
   * ArgumentException raised at the first key met a second time.
   */
  function ToDictionary(ps: seq<(string, Value)>): (r: Result<Dict, Exception>)
    ensures r.Ok? <==> Distinct(Keys(ps))
    ensures r.Ok? ==> r.value == ps
    ensures r.Err? ==> r.error.ArgumentException? && r.error.duplicateKey in Keys(ps)
    ensures r.Err? ==> exists j :: RepeatedAt(ps, r.error.duplicateKey, j)
    decreases |ps|
  {
    if ps == [] then Ok([])
    else
      var init, last := ps[..|ps| - 1], ps[|ps| - 1];
      KeysSnoc(ps);
      match ToDictionary(init)
      case Err(x) =>
        var j :| RepeatedAt(init, x.duplicateKey, j);
        RepeatedInPrefix(ps, x.duplicateKey, j);
        RepeatedNotDistinct(ps, x.duplicateKey, j);
        Err(x)
      case Ok(d) =>
        if last.0 in Keys(d) then
          RepeatedAtLast(ps);
          RepeatedNotDistinct(ps, last.0, |ps| - 1);
          Err(ArgumentException(last.0))
        else
          InitLast(ps);
          Ok(d + [last])
  }

  lemma RepeatedInPrefix(ps: seq<(string, Value)>, k: string, j: int)
    requires ps != [] && RepeatedAt(ps[..|ps| - 1], k, j)
    ensures RepeatedAt(ps, k, j)
  {
    assert ps[..|ps| - 1][..j] == ps[..j];
  }

  lemma RepeatedAtLast(ps: seq<(string, Value)>)
    requires ps != [] && Distinct(Keys(ps[..|ps| - 1])) && ps[|ps| - 1].0 in Keys(ps[..|ps| - 1])
    ensures RepeatedAt(ps, ps[|ps| - 1].0, |ps| - 1)
  {
  }

  /** A repeated key makes the keys not distinct. */
  lemma RepeatedNotDistinct(ps: seq<(string, Value)>, k: string, j: int)
    requires RepeatedAt(ps, k, j)
    ensures !Distinct(Keys(ps))
  {
    var i :| 0 <= i < j && Keys(ps[..j])[i] == k;
    assert Keys(ps)[i] == Keys(ps)[j];
  }

  /** The position of the first occurrence of `k` in `ks`. */
  function FirstIndex(ks: seq<string>, k: string): (i: nat)
    requires k in ks
    ensures i < |ks| && ks[i] == k
    ensures forall j :: 0 <= j < i ==> ks[j] != k
  {
    if ks[0] == k then 0 else 1 + FirstIndex(ks[1..], k)
  }

  /** A write to an existing key replaces its entry where it stands. */
  lemma {:induction false} PutExisting(d: Dict, k: string, v: Value)
    requires k in Keys(d)
    ensures Put(d, k, v) == d[FirstIndex(Keys(d), k) := (k, v)]
  {
    KeysCons(d);
    var ks := Keys(d);
    if d[0].0 == k {
      ConsHeadUpdate(d, (k, v));
    } else {
      assert ks[1..] == Keys(d[1..]);
      var j := FirstIndex(ks[1..], k);
      assert FirstIndex(ks, k) == 1 + j;
      PutCons(d, k, v);
      PutExisting(d[1..], k, v);
      ConsUpdate(d[0], d[1..], j, (k, v));
      ConsTail(d);
    }
  }

  lemma ConsHeadUpdate<T>(s: seq<T>, y: T)
    requires s != []
    ensures [y] + s[1..] == s[0 := y]
  {
  }

  lemma ConsUpdate<T>(x: T, s: seq<T>, j: nat, y: T)
    requires j < |s|
    ensures [x] + s[j := y] == ([x] + s)[j + 1 := y]
  {
  }

  /** A write to a new key appends its entry. */
  lemma {:induction false} PutNew(d: Dict, k: string, v: Value)
    requires k !in Keys(d)
    ensures Put(d, k, v) == d + [(k, v)]
  {
    if d != [] {
      KeysCons(d);
      PutCons(d, k, v);
      PutNew(d[1..], k, v);
      ConsSnoc(d[0], d[1..], (k, v));
      ConsTail(d);
    }
  }

  lemma PutCons(d: Dict, k: string, v: Value)
    requires d != [] && d[0].0 != k
    ensures Put(d, k, v) == [d[0]] + Put(d[1..], k, v)
  {
  }

  lemma ConsSnoc<T>(x: T, s: seq<T>, y: T)
    ensures [x] + (s + [y]) == ([x] + s) + [y]
  {
  }

  lemma ConsTail<T>(s: seq<T>)
    requires s != []
    ensures [s[0]] + s[1..] == s
  {
  }

  lemma InitLast<T>(s: seq<T>)
    requires s != []
    ensures s[..|s| - 1] + [s[|s| - 1]] == s
  {
  }

  /** In a dictionary with distinct keys, the last pair with a key is the one a lookup finds. */
  lemma {:induction false} LookupLastValue(d: Dict, k: string)
    requires Distinct(Keys(d)) && k in Keys(d)
    ensures Lookup(d, k) == Some(LastValue(d, k))
    decreases |d|
  {
    KeysCons(d);
    KeysSnoc(d);
    if d[|d| - 1].0 == k {
      if |d| > 1 {
        assert Keys(d)[0] != Keys(d)[|d| - 1];
        assert d[1..][..|d| - 2] == d[..|d| - 1][1..];
        assert Keys(d[1..]) == Keys(d)[1..];
        LookupLastValue(d[1..], k);
        KeysSnoc(d[1..]);
      }
    } else {
      var init := d[..|d| - 1];
      assert Keys(init) == Keys(d)[..|d| - 1];
      LookupLastValue(init, k);
      LookupPrefix(d, k);
    }
  }

  /** Looking a key up in a dictionary finds the same value as in a prefix that already has it. */
  lemma {:induction false} LookupPrefix(d: Dict, k: string)
    requires d != [] && k in Keys(d[..|d| - 1])
    ensures Lookup(d, k) == Lookup(d[..|d| - 1], k)
    decreases |d|
  {
    KeysCons(d);
    var init := d[..|d| - 1];
    KeysCons(init);
    if d[0].0 != k {
      assert d[1..][..|d| - 2] == init[1..];
      LookupPrefix(d[1..], k);
    }
  }

  /** Copying `a + b` is copying `a`, then `b`. */
  lemma {:induction false} PutAllConcat(d: Dict, a: seq<(string, Value)>, b: seq<(string, Value)>)
    ensures PutAll(d, a + b) == PutAll(PutAll(d, a), b)
    decreases |b|
  {
    if b == [] {
      assert a + b == a;
    } else {
      var init := b[..|b| - 1];
      assert (a + b)[..|a + b| - 1] == a + init;
      PutAllConcat(d, a, init);
    }
  }

  /** Copying one more pair is one more write. */
  lemma PutAllSnoc(d: Dict, ps: seq<(string, Value)>, i: nat)
    requires i < |ps|
    ensures PutAll(d, ps[..i + 1]) == Put(PutAll(d, ps[..i]), ps[i].0, ps[i].1)
  {
    assert ps[..i + 1][..i] == ps[..i];
  }

  /** The keys `AppendNew` adds after `ks` all come from `ns`. */
  lemma {:induction false} AppendNewPrefix(ks: seq<string>, ns: seq<string>)
    ensures ks <= AppendNew(ks, ns)
    ensures forall i :: |ks| <= i < |AppendNew(ks, ns)| ==> AppendNew(ks, ns)[i] in ns
    decreases |ns|
  {
    if ns != [] {
      var init := ns[..|ns| - 1];
      AppendNewPrefix(ks, init);
      assert forall x :: x in init ==> x in ns;
    }
  }

  /** Copying a sequence that ends in one more pair is one more write. */
  lemma PutAllAppendOne(d: Dict, ps: seq<(string, Value)>, p: (string, Value))
    ensures PutAll(d, ps + [p]) == Put(PutAll(d, ps), p.0, p.1)
  {
    assert (ps + [p])[..|ps|] == ps;
  }
}
