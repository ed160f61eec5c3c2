/**
 * The insertion-ordered dictionary the builder keeps its flags in
 * (Python's `collections.OrderedDict`): a sequence of distinct keys in
 * insertion order plus a map from each key to its value.
 */
module OrderedDicts {

  /** A snapshot of an ordered dictionary. */
  datatype Dict<K(==), V> = Dict(keys: seq<K>, vals: map<K, V>) {

    /** Exactly the listed keys have entries, and no key is listed twice. */
    ghost predicate Valid() {
      (forall k :: k in keys ==> k in vals)
      && (forall k :: k in vals ==> k in keys)
      && forall i, j :: 0 <= i < j < |keys| ==> keys[i] != keys[j]
    }

    /**
     * `d[k] = v`: a key already present keeps its place and only its value
     * changes; a new key goes to the end.
     */
    function Set(k: K, v: V): (r: Dict<K, V>)
      ensures Valid() ==> r.Valid()
    {
      Dict(AppendNew(keys, k), vals[k := v])
    }

    /** `if c: d[k] = v`. */
    function SetIf(c: bool, k: K, v: V): (r: Dict<K, V>)
      ensures Valid() ==> r.Valid()
    {
      assert c ==> Set(k, v) == Dict(AppendIf(c, keys, k), UpdateIf(c, vals, k, v));
      Dict(AppendIf(c, keys, k), UpdateIf(c, vals, k, v))
    }

    /** The (key, value) pairs in iteration order, as `d.items()` yields them. */
    function Items(): (r: seq<(K, V)>)
      requires Valid()
      ensures |r| == |keys|
      ensures forall i :: 0 <= i < |r| ==> keys[i] in vals && r[i] == (keys[i], vals[keys[i]])
    {
      seq(|keys|, i requires 0 <= i < |keys| => (keys[i], vals[keys[i]]))
    }
  }

  /**
   * The key order after `d[k] = v`: unchanged when `k` is already listed
   * (in a valid dictionary, exactly when it has an entry), else `k` at the end.
   */
  function AppendNew<K(==)>(ks: seq<K>, k: K): seq<K> {
    if k in ks then ks else ks + [k]
  }

  /** The key order after `if c: d[k] = v`. */
  function AppendIf<K(==)>(c: bool, ks: seq<K>, k: K): seq<K> {
    if c then AppendNew(ks, k) else ks
  }

  /** The entries after `if c: d[k] = v`. */
  function UpdateIf<K, V>(c: bool, m: map<K, V>, k: K, v: V): map<K, V> {
    if c then m[k := v] else m
  }

  /** Appending a key keeps the old order as a prefix and adds exactly that key. */
  lemma AppendNewGrows<K>(ks: seq<K>, k: K)
    ensures ks <= AppendNew(ks, k)
    ensures forall x :: x in AppendNew(ks, k) <==> x in ks || x == k
  {
  }

  /** A guarded append adds its key exactly when the guard holds and keeps the old order as a prefix. */
  lemma AppendIfGrows<K>(c: bool, ks: seq<K>, k: K)
    ensures forall x :: x in AppendIf(c, ks, k) <==> x in ks || (c && x == k)
    ensures ks <= AppendIf(c, ks, k)
  {
  }

  /**
   * A guarded append after keys `earlier` that do not include `k`: `k`
   * goes to the very end exactly when the guard holds and `ks` does not
   * list it either.
   */
  lemma AppendIfAfter<K>(c: bool, ks: seq<K>, earlier: seq<K>, k: K)
    requires k !in earlier
    ensures AppendIf(c, ks + earlier, k) == ks + (earlier + if c && k !in ks then [k] else [])
  {
    if c && k !in ks {
      assert k !in ks + earlier;
      assert ks + earlier + [k] == ks + (earlier + [k]);
    } else {
      assert c ==> k in ks + earlier;
      assert earlier + [] == earlier;
    }
  }

  /** A guarded update changes the entry of its key exactly when the guard holds. */
  lemma UpdateIfFacts<K, V>(c: bool, m: map<K, V>, k: K, v: V)
    ensures forall x :: x in UpdateIf(c, m, k, v) <==> x in m || (c && x == k)
    ensures forall x :: x in UpdateIf(c, m, k, v) ==> UpdateIf(c, m, k, v)[x] == if c && x == k then v else m[x]
  {
  }

  /** The dictionary with no entries. */
  function Empty<K(==), V>(): (r: Dict<K, V>)
    ensures r.Valid() && r.keys == [] && r.vals == map[]
  {
    Dict([], map[])
  }

  /**
   * Assigning a key that is already present rewrites its value in place:
   * every item keeps its position and every other item keeps its value.
   */
  lemma SetExistingKeepsPosition<K, V>(d: Dict<K, V>, i: nat, v: V)
    requires d.Valid() && i < |d.keys|
    ensures d.Set(d.keys[i], v).keys == d.keys
    ensures d.Set(d.keys[i], v).Items() == d.Items()[i := (d.keys[i], v)]
  {
    var r := d.Set(d.keys[i], v);
    assert forall j :: 0 <= j < |d.keys| && j != i ==> d.keys[j] != d.keys[i];
    assert r.Items() == d.Items()[i := (d.keys[i], v)];
  }

  /** Assigning a new key appends exactly one item at the end. */
  lemma SetNewAppends<K, V>(d: Dict<K, V>, k: K, v: V)
    requires d.Valid() && k !in d.vals
    ensures d.Set(k, v).keys == d.keys + [k]
    ensures d.Set(k, v).Items() == d.Items() + [(k, v)]
  {
    var r := d.Set(k, v);
    var n := |d.keys|;
    assert r.keys == d.keys + [k];
    forall j | 0 <= j < n + 1
      ensures r.Items()[j] == (d.Items() + [(k, v)])[j]
    {
      if j < n {
        assert r.keys[j] == d.keys[j] && d.keys[j] in d.vals;
      }
    }
    assert r.Items() == d.Items() + [(k, v)];
  }

  /** Reading a key back after assigning it yields the assigned value; other keys are untouched. */
  lemma SetThenGet<K, V>(d: Dict<K, V>, k: K, v: V, q: K)
    requires d.Valid()
    ensures k in d.Set(k, v).vals && d.Set(k, v).vals[k] == v
    ensures q != k ==> (q in d.Set(k, v).vals <==> q in d.vals)
    ensures q != k && q in d.vals ==> d.Set(k, v).vals[q] == d.vals[q]
  {
    var r := d.Set(k, v);
    assert r.vals == d.vals[k := v];
  }

  /** Assignment never removes or moves a key: the old key order is a prefix of the new one. */
  lemma SetKeepsOrder<K, V>(d: Dict<K, V>, k: K, v: V)
    requires d.Valid()
    ensures d.keys <= d.Set(k, v).keys
    ensures |d.Set(k, v).keys| == if k in d.vals then |d.keys| else |d.keys| + 1
  {
  }

  /**
   * The mutable ordered dictionary. It is shared by reference: every holder
   * sees the assignments made through any other.
   */
  class OrderedDict<K(==), V> {
    var keys: seq<K>
    var vals: map<K, V>

    /** The current contents as a value. */
    function Snapshot(): Dict<K, V>
      reads this
    {
      Dict(keys, vals)
    }

    ghost predicate Valid()
      reads this
    {
      Snapshot().Valid()
    }

    /** `collections.OrderedDict()`: an empty dictionary. */
    constructor ()
      ensures Valid() && Snapshot() == Empty()
    {
      keys := [];
      vals := map[];
    }

    /** `d[k] = v` in place. */
    method Assign(k: K, v: V)
      modifies this
      ensures Snapshot() == old(Snapshot()).Set(k, v)
    {
      if k !in keys {
        keys := keys + [k];
      }
      vals := vals[k := v];
    }
  }
}
