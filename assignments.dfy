/**
 * The constructor's assignments (lines 20-75 of the import builder) as
 * functions on snapshots of the store: the unconditional assignments, the
 * presence flags written only for a truthy argument, and `--query` last.
 */
module Assignments {
  import opened Results
  import opened Flags
  import opened OrderedDicts
  import opened CommandLine

  /**
   * `d[key] = arg` for each key of `flags` in turn. Lines 20-58 are this
   * with `flags` the 39 keys of `BaseOrder`.
   */
  function AssignEach(d: Props, flags: seq<Flag>, a: ImportArgs): (r: Props)
    ensures d.keys <= r.keys
    ensures forall k :: k in r.keys <==> k in d.keys || k in flags
    ensures forall k :: k in r.vals <==> k in d.vals || k in flags
    ensures forall k :: k in r.vals ==> r.vals[k] == if k in flags then a(k) else d.vals[k]
    ensures d.Valid() ==> r.Valid()
    decreases |flags|
  {
    if flags == [] then d
    else
      var n := |flags| - 1;
      var prev := AssignEach(d, flags[..n], a);
      assert flags == flags[..n] + [flags[n]];
      AppendNewGrows(prev.keys, flags[n]);
      prev.Set(flags[n], a(flags[n]))
  }

  /**
   * `if arg: d[key] = ''` for each key of `flags` in turn. Lines 59-74 are
   * this with `flags` the keys of `MarkOrder`.
   */
  function MarkEach(d: Props, flags: seq<Flag>, a: ImportArgs): (r: Props)
    ensures d.keys <= r.keys
    ensures forall k :: k in r.keys <==> k in d.keys || (k in flags && Truthy(a(k)))
    ensures forall k :: k in r.vals <==> k in d.vals || (k in flags && Truthy(a(k)))
    ensures forall k :: k in r.vals ==> r.vals[k] == if k in flags && Truthy(a(k)) then Some("") else d.vals[k]
    ensures d.Valid() ==> r.Valid()
    decreases |flags|
  {
    if flags == [] then d
    else
      var n := |flags| - 1;
      var prev := MarkEach(d, flags[..n], a);
      var f := flags[n];
      assert flags == flags[..n] + [f];
      AppendIfGrows(Truthy(a(f)), prev.keys, f);
      UpdateIfFacts(Truthy(a(f)), prev.vals, f, Some(""));
      prev.SetIf(Truthy(a(f)), f, Some(""))
  }

  /**
   * The keys a construction writes, given the unconditional keys `base`
   * and the presence flags `marks`: every key of `base`, `--query`, and each
   * key of `marks` whose argument is truthy.
   */
  predicate Written(k: Flag, base: seq<Flag>, marks: seq<Flag>, a: ImportArgs) {
    k in base || k == Query || (k in marks && Truthy(a(k)))
  }

  /** The value a construction leaves under a key it writes: `''` for a presence flag with a truthy argument, else the argument. */
  function Stored(k: Flag, marks: seq<Flag>, a: ImportArgs): Option<string> {
    if k in marks && Truthy(a(k)) then Some("") else a(k)
  }

  /**
   * A construction with its key orders as parameters: `d[key] = arg` for
   * each key of `base`, `if arg: d[key] = ''` for each key of `marks`, then
   * `d['--query'] = query`. Keys are only added or updated, never removed
   * or moved; the keys written are exactly those of `Written`, each holding
   * its `Stored` value, and every other entry keeps its old value.
   */
  function Construction(d: Props, base: seq<Flag>, marks: seq<Flag>, a: ImportArgs): (r: Props)
    requires Query !in marks
    ensures d.keys <= r.keys
    ensures forall k :: k in r.keys <==> k in d.keys || Written(k, base, marks, a)
    ensures forall k :: k in r.vals <==> k in d.vals || Written(k, base, marks, a)
    ensures forall k :: k in r.vals ==> r.vals[k] == if Written(k, base, marks, a) then Stored(k, marks, a) else d.vals[k]
    ensures d.Valid() ==> r.Valid()
  {
    var unconditional := AssignEach(d, base, a);
    var marked := MarkEach(unconditional, marks, a);
    AppendNewGrows(marked.keys, Query);
    marked.Set(Query, a(Query))
  }

  /** The entry of one key after a construction, as `Construction` states it for every key. */
  lemma ConstructionEntry(d: Props, base: seq<Flag>, marks: seq<Flag>, a: ImportArgs, k: Flag)
    requires Query !in marks
    ensures k in Construction(d, base, marks, a).vals <==> k in d.vals || Written(k, base, marks, a)
    ensures k in Construction(d, base, marks, a).vals
        ==> Construction(d, base, marks, a).vals[k] == if Written(k, base, marks, a) then Stored(k, marks, a) else d.vals[k]
  {
  }

  /** Lines 20-75: the 39 assignments of `BaseOrder`, the presence flags of `MarkOrder`, then `--query`. */
  function Populate(d: Props, a: ImportArgs): (r: Props)
    ensures r == Construction(d, BaseOrder, MarkOrder, a)
  {
    Construction(d, BaseOrder, MarkOrder, a)
  }

  /**
   * The keys of `flags` whose argument is truthy and that `ks` does not list,
   * in the order of `flags`.
   */
  function Fresh(flags: seq<Flag>, ks: seq<Flag>, a: ImportArgs): (r: seq<Flag>)
    ensures forall k :: k in r <==> k in flags && Truthy(a(k)) && k !in ks
    ensures (forall k :: k in flags ==> !Truthy(a(k))) ==> r == []
    decreases |flags|
  {
    if flags == [] then []
    else
      var n := |flags| - 1;
      assert flags == flags[..n] + [flags[n]];
      Fresh(flags[..n], ks, a) + if Truthy(a(flags[n])) && flags[n] !in ks then [flags[n]] else []
  }

  /** Assigning keys that are not listed yet, none of them twice, appends them in their own order. */
  lemma {:induction false} AssignEachAppends(d: Props, flags: seq<Flag>, a: ImportArgs)
    requires Distinct(flags)
    requires forall k :: k in flags ==> k !in d.keys
    ensures AssignEach(d, flags, a).keys == d.keys + flags
    decreases |flags|
  {
    if flags != [] {
      var n := |flags| - 1;
      AssignEachAppends(d, flags[..n], a);
      assert flags[n] !in flags[..n];
      assert d.keys + flags == d.keys + flags[..n] + [flags[n]];
    }
  }

  /**
   * Marking keys, none of them twice, appends exactly those with a truthy
   * argument that are not listed yet, in their own order.
   */
  lemma {:induction false} MarkEachAppends(d: Props, flags: seq<Flag>, a: ImportArgs)
    requires Distinct(flags)
    ensures MarkEach(d, flags, a).keys == d.keys + Fresh(flags, d.keys, a)
    decreases |flags|
  {
    if flags != [] {
      var n := |flags| - 1;
      var f := flags[n];
      MarkEachAppends(d, flags[..n], a);
      var prev := MarkEach(d, flags[..n], a);
      assert f !in flags[..n];
      assert MarkEach(d, flags, a).keys == AppendIf(Truthy(a(f)), prev.keys, f);
      AppendIfAfter(Truthy(a(f)), d.keys, Fresh(flags[..n], d.keys, a), f);
    }
  }

  /**
   * The key order after a construction on a store that lists none of the
   * keys it assigns unconditionally, nor `--query`: the old keys, then
   * `base` in order, then each key of `marks` with a truthy argument that is
   * not listed yet, in order, then `--query`.
   */
  lemma ConstructionOrder(d: Props, base: seq<Flag>, marks: seq<Flag>, a: ImportArgs)
    requires Query !in marks && Query !in base && Query !in d.keys
    requires Distinct(base) && Distinct(marks)
    requires forall k :: k in base ==> k !in d.keys
    ensures Construction(d, base, marks, a).keys == d.keys + base + Fresh(marks, d.keys + base, a) + [Query]
  {
    AssignEachAppends(d, base, a);
    var unconditional := AssignEach(d, base, a);
    MarkEachAppends(unconditional, marks, a);
    var marked := MarkEach(unconditional, marks, a);
    assert Query !in marked.keys;
  }

  /** Under the same conditions, the `i`-th key of `base` sits right after the old keys, at `|d.keys| + i`. */
  lemma ConstructionKeepsBase(d: Props, base: seq<Flag>, marks: seq<Flag>, a: ImportArgs, i: nat)
    requires Query !in marks && Query !in base && Query !in d.keys
    requires Distinct(base) && Distinct(marks)
    requires forall k :: k in base ==> k !in d.keys
    requires i < |base|
    ensures |d.keys| + i < |Construction(d, base, marks, a).keys|
    ensures Construction(d, base, marks, a).keys[|d.keys| + i] == base[i]
  {
    ConstructionOrder(d, base, marks, a);
  }

  /** Assigning keys that are all listed already adds none and moves none. */
  lemma {:induction false} AssignEachListed(d: Props, flags: seq<Flag>, a: ImportArgs)
    requires forall k :: k in flags ==> k in d.keys
    ensures AssignEach(d, flags, a).keys == d.keys
    decreases |flags|
  {
    if flags != [] {
      var n := |flags| - 1;
      AssignEachListed(d, flags[..n], a);
      assert flags[n] in flags;
    }
  }

  /**
   * The key order after a construction on a store that already lists every
   * key it assigns unconditionally and `--query`: the old keys, then each
   * key of `marks` with a truthy argument that is not listed yet, in order.
   * Nothing is added at the end for `--query`, which keeps its old place.
   */
  lemma ConstructionOnListedStore(d: Props, base: seq<Flag>, marks: seq<Flag>, a: ImportArgs)
    requires Query !in marks && Distinct(marks)
    requires forall k :: k in base ==> k in d.keys
    requires Query in d.keys
    ensures Construction(d, base, marks, a).keys == d.keys + Fresh(marks, d.keys, a)
  {
    AssignEachListed(d, base, a);
    var unconditional := AssignEach(d, base, a);
    MarkEachAppends(unconditional, marks, a);
    var marked := MarkEach(unconditional, marks, a);
    assert Query in marked.keys;
  }

  /**
   * Lines 20-75 on a store that already lists the 39 unconditional keys and
   * `--query`, as the shared store does after any earlier construction: only
   * the presence flags this call is the first to set are appended, in the
   * order of the guards, after `--query`.
   */
  lemma ListedStoreOrder(d: Props, a: ImportArgs)
    requires forall k :: k in BaseOrder ==> k in d.keys
    requires Query in d.keys
    ensures Populate(d, a).keys == d.keys + Fresh(MarkOrder, d.keys, a)
  {
    MarkOrderDistinct();
    QueryNotListed();
    ConstructionOnListedStore(d, BaseOrder, MarkOrder, a);
  }

  /** A construction leaves every key it assigns unconditionally, and `--query`, in the store. */
  lemma ConstructionLists(d: Props, base: seq<Flag>, marks: seq<Flag>, a: ImportArgs)
    requires Query !in marks
    ensures forall k :: k in base ==> k in Construction(d, base, marks, a).keys
    ensures Query in Construction(d, base, marks, a).keys
  {
    forall k | k in base
      ensures k in Construction(d, base, marks, a).keys
    {
      assert Written(k, base, marks, a);
    }
  }

  /**
   * Two constructions in turn on the shared store: the second keeps the
   * first's key order and appends only the presence flags it is the first
   * to set.
   */
  lemma SecondConstructionOrder(d: Props, a1: ImportArgs, a2: ImportArgs)
    ensures Populate(Populate(d, a1), a2).keys == Populate(d, a1).keys + Fresh(MarkOrder, Populate(d, a1).keys, a2)
  {
    QueryNotListed();
    ConstructionLists(d, BaseOrder, MarkOrder, a1);
    ListedStoreOrder(Populate(d, a1), a2);
  }

  /** A second construction with the same arguments keeps the key order: each guarded key it sets is already listed. */
  lemma RepeatKeys(d: Props, base: seq<Flag>, marks: seq<Flag>, a: ImportArgs)
    requires Query !in marks && Distinct(marks)
    ensures Construction(Construction(d, base, marks, a), base, marks, a).keys == Construction(d, base, marks, a).keys
  {
    var d1 := Construction(d, base, marks, a);
    ConstructionLists(d, base, marks, a);
    ConstructionOnListedStore(d1, base, marks, a);
    forall f | f in marks && Truthy(a(f))
      ensures f in d1.keys
    {
      assert Written(f, base, marks, a);
    }
    FreshNone(marks, d1.keys, a);
    assert d1.keys + [] == d1.keys;
  }

  /** A second construction with the same arguments writes again the values the first wrote. */
  lemma RepeatValues(d: Props, base: seq<Flag>, marks: seq<Flag>, a: ImportArgs)
    requires Query !in marks
    ensures Construction(Construction(d, base, marks, a), base, marks, a).vals == Construction(d, base, marks, a).vals
  {
    var d1 := Construction(d, base, marks, a);
    var d2 := Construction(d1, base, marks, a);
    forall k | k in d2.vals
      ensures k in d1.vals && d2.vals[k] == d1.vals[k]
    {
      if Written(k, base, marks, a) {
        assert d1.vals[k] == Stored(k, marks, a);
      }
    }
  }

  /**
   * Repeating a construction with the same arguments on the store it left
   * changes nothing: every key it writes is already listed and already
   * holds the value it writes again.
   */
  lemma PopulateIdempotent(d: Props, a: ImportArgs)
    ensures Populate(Populate(d, a), a) == Populate(d, a)
  {
    QueryNotListed();
    MarkOrderDistinct();
    RepeatKeys(d, BaseOrder, MarkOrder, a);
    RepeatValues(d, BaseOrder, MarkOrder, a);
  }

  /** The same call made any number of times, at least once, leaves the store as one call does. */
  lemma {:induction false} ReplaySameCall(d: Props, a: ImportArgs, calls: seq<ImportArgs>)
    requires |calls| >= 1
    requires forall i :: 0 <= i < |calls| ==> calls[i] == a
    ensures Replay(d, BaseOrder, MarkOrder, calls) == Populate(d, a)
    decreases |calls|
  {
    QueryNotListed();
    var n := |calls| - 1;
    if n == 0 {
      assert calls[..0] == [];
    } else {
      ReplaySameCall(d, a, calls[..n]);
      PopulateIdempotent(d, a);
    }
  }

  /** When every key of `flags` is listed or has a falsy argument, the guards append nothing. */
  lemma {:induction false} FreshNone(flags: seq<Flag>, ks: seq<Flag>, a: ImportArgs)
    requires forall f :: f in flags ==> !Truthy(a(f)) || f in ks
    ensures Fresh(flags, ks, a) == []
    decreases |flags|
  {
    if flags != [] {
      var n := |flags| - 1;
      assert flags == flags[..n] + [flags[n]];
      FreshNone(flags[..n], ks, a);
    }
  }

  /**
   * When `k` is the only key of `flags` with a truthy argument that `ks`
   * does not list, the guards append `k` alone.
   */
  lemma {:induction false} FreshOnly(flags: seq<Flag>, ks: seq<Flag>, a: ImportArgs, k: Flag)
    requires Distinct(flags) && k in flags && Truthy(a(k)) && k !in ks
    requires forall f :: f in flags && f != k ==> !Truthy(a(f)) || f in ks
    ensures Fresh(flags, ks, a) == [k]
    decreases |flags|
  {
    var n := |flags| - 1;
    assert flags == flags[..n] + [flags[n]];
    if flags[n] == k {
      assert k !in flags[..n];
      FreshNone(flags[..n], ks, a);
    } else {
      FreshOnly(flags[..n], ks, a, k);
    }
  }

  /**
   * The key order of a fresh store after one construction: the 39
   * unconditional keys in textual order, then each presence flag that only
   * lines 59-74 assign and whose argument is truthy, in the order of the
   * guards, then `--query`. The argument values decide only which presence
   * flags appear, never the order.
   */
  lemma FreshStoreOrder(a: ImportArgs)
    ensures Populate(Empty(), a).keys == BaseOrder + Fresh(MarkOrder, BaseOrder, a) + [Query]
  {
    OrdersWellFormed();
    var d: Props := Empty();
    ConstructionOrder(d, BaseOrder, MarkOrder, a);
    assert d.keys + BaseOrder == BaseOrder;
  }

  /**
   * In a fresh store, the key assigned on line `20 + i` is the `i`-th key
   * after construction, whatever the arguments.
   */
  lemma FreshStorePosition(a: ImportArgs, i: nat)
    requires i < |BaseOrder|
    ensures i < |Populate(Empty(), a).keys| && Populate(Empty(), a).keys[i] == BaseOrder[i]
  {
    OrdersWellFormed();
    ConstructionKeepsBase(Empty(), BaseOrder, MarkOrder, a, i);
  }

  /**
   * `--hive-drop-import-delims` is assigned at line 22 and, when its
   * argument is truthy, reassigned `''` at line 68: in a fresh store it stays
   * the third key either way.
   */
  lemma HiveDropImportDelimsStaysThird(a: ImportArgs)
    ensures |Populate(Empty(), a).keys| > 2 && Populate(Empty(), a).keys[2] == HiveDropImportDelims
  {
    FreshStorePosition(a, 2);
    assert BaseOrder[2] == HiveDropImportDelims;
  }

  /** `--hive-drop-import-delims` holds `''` after a fresh construction exactly when its argument is truthy, else that argument. */
  lemma HiveDropImportDelimsValue(a: ImportArgs)
    ensures HiveDropImportDelims in Populate(Empty(), a).vals
    ensures Populate(Empty(), a).vals[HiveDropImportDelims]
         == if Truthy(a(HiveDropImportDelims)) then Some("") else a(HiveDropImportDelims)
  {
    assert BaseOrder[2] == HiveDropImportDelims && MarkOrder[4] == HiveDropImportDelims;
    assert Written(HiveDropImportDelims, BaseOrder, MarkOrder, a);
  }

  /**
   * A construction in which no presence flag's argument is truthy lists the
   * unconditional keys and `--query` after the old keys, each holding its
   * argument.
   */
  lemma ConstructionWithoutMarks(d: Props, base: seq<Flag>, marks: seq<Flag>, a: ImportArgs)
    requires Query !in marks && Query !in base && Query !in d.keys
    requires Distinct(base) && Distinct(marks)
    requires forall k :: k in base ==> k !in d.keys
    requires forall m :: m in marks ==> !Truthy(a(m))
    ensures Construction(d, base, marks, a).keys == d.keys + base + [Query]
    ensures forall k :: k in base || k == Query ==> Construction(d, base, marks, a).vals[k] == a(k)
  {
    ConstructionOrder(d, base, marks, a);
  }

  /**
   * A fresh construction in which no presence flag's argument is truthy:
   * the store lists the 39 unconditional keys and `--query`, each holding
   * its argument.
   */
  lemma FreshStoreWithoutMarks(a: ImportArgs)
    requires forall m :: m in MarkOrder ==> !Truthy(a(m))
    ensures Populate(Empty(), a).keys == BaseOrder + [Query]
    ensures forall k :: k in Populate(Empty(), a).vals <==> k in BaseOrder || k == Query
    ensures forall k :: k in Populate(Empty(), a).vals ==> Populate(Empty(), a).vals[k] == a(k)
  {
    OrdersWellFormed();
    var d: Props := Empty();
    ConstructionWithoutMarks(d, BaseOrder, MarkOrder, a);
    assert d.keys + BaseOrder == BaseOrder;
  }

  /**
   * In a fresh store, a key assigned unconditionally holds its argument
   * unless it is also a presence flag with a truthy argument.
   */
  lemma FreshUnconditionalEntry(a: ImportArgs, k: Flag)
    requires k in BaseOrder
    requires k !in MarkOrder || !Truthy(a(k))
    ensures k in Populate(Empty(), a).vals && Populate(Empty(), a).vals[k] == a(k)
  {
    QueryNotListed();
    ConstructionUnconditional(Empty(), BaseOrder, MarkOrder, a, k);
  }

  /** A key of `base` that is not overwritten by its guard holds its argument after a construction. */
  lemma ConstructionUnconditional(d: Props, base: seq<Flag>, marks: seq<Flag>, a: ImportArgs, k: Flag)
    requires Query !in marks && k in base
    requires k !in marks || !Truthy(a(k))
    ensures k in Construction(d, base, marks, a).vals && Construction(d, base, marks, a).vals[k] == a(k)
  {
    ConstructionEntry(d, base, marks, a, k);
  }

  /** A key that only its guard writes is present after a construction on a store without it exactly when its argument is truthy. */
  lemma ConstructionPresence(d: Props, base: seq<Flag>, marks: seq<Flag>, a: ImportArgs, k: Flag)
    requires Query !in marks && k !in d.vals
    requires k in marks && k !in base && k != Query
    ensures k in Construction(d, base, marks, a).vals <==> Truthy(a(k))
    ensures k in Construction(d, base, marks, a).vals ==> Construction(d, base, marks, a).vals[k] == Some("")
  {
    ConstructionEntry(d, base, marks, a, k);
  }

  /** In a fresh store, `--query` holds its argument, whatever the other arguments. */
  lemma FreshQueryEntry(a: ImportArgs)
    ensures Query in Populate(Empty(), a).vals && Populate(Empty(), a).vals[Query] == a(Query)
  {
    var d: Props := Empty();
    QueryNotListed();
    ConstructionEntry(d, BaseOrder, MarkOrder, a, Query);
  }

  /**
   * In a fresh store, a flag that only its guard assigns is present exactly
   * when its argument is truthy, and then holds `''`.
   */
  lemma FreshPresenceEntry(a: ImportArgs, k: Flag)
    requires k in MarkOrder && k !in BaseOrder && k != Query
    ensures k in Populate(Empty(), a).vals <==> Truthy(a(k))
    ensures k in Populate(Empty(), a).vals ==> Populate(Empty(), a).vals[k] == Some("")
  {
    QueryNotListed();
    ConstructionPresence(Empty(), BaseOrder, MarkOrder, a, k);
  }

  /**
   * The shared store after the constructions `calls`, made in turn on the
   * store `d` with the key orders `base` and `marks`: the store is never
   * reset between instances.
   */
  function Replay(d: Props, base: seq<Flag>, marks: seq<Flag>, calls: seq<ImportArgs>): (r: Props)
    requires Query !in marks
    ensures d.keys <= r.keys
    ensures d.Valid() ==> r.Valid()
    decreases |calls|
  {
    if calls == [] then d
    else
      var n := |calls| - 1;
      var prev := Replay(d, base, marks, calls[..n]);
      Construction(prev, base, marks, calls[n])
  }

  /** Some construction among `calls` writes `k`. */
  predicate WrittenSoFar(k: Flag, base: seq<Flag>, marks: seq<Flag>, calls: seq<ImportArgs>)
    decreases |calls|
  {
    calls != [] && (WrittenSoFar(k, base, marks, calls[..|calls| - 1]) || Written(k, base, marks, calls[|calls| - 1]))
  }

  /** `WrittenSoFar` holds exactly when one of the calls writes the key. */
  lemma {:induction false} WrittenSoFarSome(k: Flag, base: seq<Flag>, marks: seq<Flag>, calls: seq<ImportArgs>)
    ensures WrittenSoFar(k, base, marks, calls) <==> exists i :: 0 <= i < |calls| && Written(k, base, marks, calls[i])
    decreases |calls|
  {
    if calls != [] {
      var n := |calls| - 1;
      WrittenSoFarSome(k, base, marks, calls[..n]);
      assert forall i :: 0 <= i < n ==> calls[..n][i] == calls[i];
    }
  }

  /**
   * A key is in the shared store exactly when it was there to begin with or
   * some construction so far wrote it: a presence flag whose argument was
   * truthy in any earlier call stays present, even when every later call
   * passes a falsy argument for it.
   */
  lemma {:induction false} ReplayWritten(d: Props, base: seq<Flag>, marks: seq<Flag>, calls: seq<ImportArgs>, k: Flag)
    requires Query !in marks
    ensures k in Replay(d, base, marks, calls).vals <==> k in d.vals || WrittenSoFar(k, base, marks, calls)
    decreases |calls|
  {
    if calls != [] {
      ReplayWritten(d, base, marks, calls[..|calls| - 1], k);
    }
  }
}
