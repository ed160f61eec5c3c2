/**
 * Serialising the flag store into the `sqoop import` command line: one
 * `"key value"` piece per entry whose value is not `None`, in store order,
 * joined by single spaces after the literal `"sqoop import "`.
 */
module CommandLine {
  import opened Results
  import opened Flags
  import opened OrderedDicts

  /** The flag store: flag keys in insertion order, each with an optional value. */
  type Props = Dict<Flag, Option<string>>

  /** A flag that is emitted, with the text that follows it. */
  type Emitted = (Flag, string)

  /** What key `k` emits: nothing when it is unset or `None`, else itself with its value. */
  function EmitOf<K, V>(vals: map<K, Option<V>>, k: K): (r: seq<(K, V)>)
    ensures |r| <= 1
  {
    if k in vals && vals[k].Some? then [(k, vals[k].value)] else []
  }

  /** The entries of `ks` whose value is not `None`, in the order of `ks`. */
  function Present<K, V>(ks: seq<K>, vals: map<K, Option<V>>): (r: seq<(K, V)>)
    ensures |r| <= |ks|
  {
    if ks == [] then [] else EmitOf(vals, ks[0]) + Present(ks[1..], vals)
  }

  /** A key emits exactly when it holds a value, and then emits itself with that value. */
  lemma EmitOfCases<K, V>(vals: map<K, Option<V>>, k: K)
    ensures EmitOf(vals, k) == [] <==> k !in vals || vals[k] == None
    ensures EmitOf(vals, k) != [] ==> EmitOf(vals, k)[0].0 == k && vals[k] == Some(EmitOf(vals, k)[0].1)
  {
  }

  /** `'{} {}'.format(key, val)` for one emitted entry. */
  function Piece(e: Emitted): string {
    Name(e.0) + " " + e.1
  }

  /** A piece opens with the key's flag and one space, and the value can be read back from the rest. */
  lemma PieceReadBack(e: Emitted)
    ensures Name(e.0) + " " <= Piece(e)
    ensures Piece(e)[|Name(e.0)| + 1..] == e.1
  {
  }

  /** `' '.join` of the pieces of the emitted entries: empty only when nothing is emitted, else led by the first piece. */
  function Line(es: seq<Emitted>): (r: string)
    ensures r == "" <==> es == []
  {
    if es == [] then "" else if |es| == 1 then Piece(es[0]) else Piece(es[0]) + " " + Line(es[1..])
  }

  /** The command the builder caches: `'sqoop import {}'.format(' '.join(pieces))`. */
  function Render(d: Props): (r: string)
    ensures "sqoop import " <= r
  {
    "sqoop import " + Line(Present(d.keys, d.vals))
  }

  /**
   * `[(key, val) for key, val in items if val is not None]`, the values
   * unwrapped: the comprehension of the command line over `d.items()`.
   */
  function ValuedItems<K, V>(items: seq<(K, Option<V>)>): (r: seq<(K, V)>)
    ensures |r| <= |items|
  {
    if items == [] then []
    else
      (if items[0].1.Some? then [(items[0].0, items[0].1.value)] else []) + ValuedItems(items[1..])
  }

  /** A pair is kept exactly when the item holds a value, which is unwrapped. */
  lemma {:induction false} ValuedItemsMember<K, V>(items: seq<(K, Option<V>)>, k: K, v: V)
    ensures (k, v) in ValuedItems(items) <==> (k, Some(v)) in items
  {
    if items != [] {
      ValuedItemsMember(items[1..], k, v);
      assert items == [items[0]] + items[1..];
    }
  }

  /** Filtering the `(key, value)` pairs of the keys `ks` is what `Present` emits for them. */
  lemma {:induction false} PresentPairs<K, V>(ks: seq<K>, vals: map<K, Option<V>>, items: seq<(K, Option<V>)>)
    requires |items| == |ks|
    requires forall i :: 0 <= i < |ks| ==> ks[i] in vals && items[i] == (ks[i], vals[ks[i]])
    ensures Present(ks, vals) == ValuedItems(items)
  {
    if ks != [] {
      PresentPairs(ks[1..], vals, items[1..]);
    }
  }

  /**
   * The cached command as line 78 builds it from the store's items: the
   * prefix, then the space-joined pieces of the items whose value is not
   * `None`, in iteration order.
   */
  lemma RenderItems(d: Props)
    requires d.Valid()
    ensures Render(d) == "sqoop import " + Line(ValuedItems(d.Items()))
  {
    PresentPairs(d.keys, d.vals, d.Items());
  }

  /** A single key emits what `EmitOf` says. */
  lemma PresentSingle<K, V>(ks: seq<K>, vals: map<K, Option<V>>)
    requires |ks| == 1
    ensures Present(ks, vals) == EmitOf(vals, ks[0])
  {
    assert ks[1..] == [];
  }

  /** The emitted entries of a concatenation of key lists are the concatenation of theirs. */
  lemma {:induction false} PresentAppend<K, V>(ks1: seq<K>, ks2: seq<K>, vals: map<K, Option<V>>)
    ensures Present(ks1 + ks2, vals) == Present(ks1, vals) + Present(ks2, vals)
  {
    if ks1 == [] {
      assert ks1 + ks2 == ks2;
    } else {
      assert (ks1 + ks2)[1..] == ks1[1..] + ks2;
      PresentAppend(ks1[1..], ks2, vals);
      assert Present(ks1 + ks2, vals) == EmitOf(vals, ks1[0]) + (Present(ks1[1..], vals) + Present(ks2, vals));
    }
  }

  /** Entries whose value is `None` contribute nothing to the command. */
  lemma {:induction false} PresentAllNone<K, V>(ks: seq<K>, vals: map<K, Option<V>>)
    requires forall k :: k in ks ==> k !in vals || vals[k] == None
    ensures Present(ks, vals) == []
  {
    if ks != [] {
      PresentAllNone(ks[1..], vals);
    }
  }

  /** Assigning a key that is not listed changes nothing that is emitted. */
  lemma {:induction false} PresentUpdateOther<K, V>(ks: seq<K>, vals: map<K, Option<V>>, k: K, v: Option<V>)
    requires k !in ks
    ensures Present(ks, vals[k := v]) == Present(ks, vals)
  {
    if ks != [] {
      PresentUpdateOther(ks[1..], vals, k, v);
    }
  }

  /**
   * Store order is output order: the entry at position `i` is emitted after
   * every earlier entry and before every later one.
   */
  lemma PresentAt<K, V>(ks: seq<K>, vals: map<K, Option<V>>, i: nat)
    requires i < |ks|
    ensures Present(ks, vals) == Present(ks[..i], vals) + EmitOf(vals, ks[i]) + Present(ks[i + 1..], vals)
  {
    var rest := ks[i..];
    assert ks == ks[..i] + rest;
    PresentAppend(ks[..i], rest, vals);
    assert rest[0] == ks[i] && rest[1..] == ks[i + 1..];
  }

  /** Joining two non-empty lists puts exactly one space between their lines. */
  lemma {:induction false} LineAppend(es1: seq<Emitted>, es2: seq<Emitted>)
    requires es1 != [] && es2 != []
    ensures Line(es1 + es2) == Line(es1) + " " + Line(es2)
  {
    if |es1| == 1 {
      assert (es1 + es2)[1..] == es2;
    } else {
      assert (es1 + es2)[1..] == es1[1..] + es2;
      LineAppend(es1[1..], es2);
    }
  }

  /**
   * Reassigning a key that is present changes only what that entry emits,
   * in its own place; everything emitted before and after stays as it was.
   */
  lemma RenderSetExisting(d: Props, i: nat, v: Option<string>)
    requires d.Valid() && i < |d.keys|
    ensures d.Set(d.keys[i], v).Valid()
    ensures Present(d.Set(d.keys[i], v).keys, d.Set(d.keys[i], v).vals)
         == Present(d.keys[..i], d.vals) + EmitOf(map[d.keys[i] := v], d.keys[i]) + Present(d.keys[i + 1..], d.vals)
  {
    var k := d.keys[i];
    var r := d.Set(k, v);
    assert r.keys == d.keys;
    PresentAt(d.keys, r.vals, i);
    assert k !in d.keys[..i] && k !in d.keys[i + 1..];
    PresentUpdateOther(d.keys[..i], d.vals, k, v);
    PresentUpdateOther(d.keys[i + 1..], d.vals, k, v);
  }

  /** Emitting after appending a key not yet listed. */
  lemma PresentSnoc<K, V>(ks: seq<K>, k: K, vals: map<K, Option<V>>, v: Option<V>)
    requires k !in ks
    ensures Present(ks + [k], vals[k := v]) == Present(ks, vals) + EmitOf(map[k := v], k)
  {
    var vals' := vals[k := v];
    PresentAppend(ks, [k], vals');
    PresentUpdateOther(ks, vals, k, v);
    assert Present([k], vals') == EmitOf(vals', k) + Present([], vals');
  }

  /** Assigning a new key to `None` leaves the command unchanged. */
  lemma RenderSetNewNone(d: Props, k: Flag)
    requires d.Valid() && k !in d.vals
    ensures d.Set(k, None).Valid()
    ensures Render(d.Set(k, None)) == Render(d)
  {
    var r := d.Set(k, None);
    PresentSnoc(d.keys, k, d.vals, None);
    assert Present(r.keys, r.vals) == Present(d.keys, d.vals);
  }

  /**
   * Assigning a new key to a value appends its piece at the very end of the
   * joined pieces, separated by one space from whatever came before.
   */
  lemma RenderSetNewSome(d: Props, k: Flag, v: string)
    requires d.Valid() && k !in d.vals
    ensures d.Set(k, Some(v)).Valid()
    ensures Line(Present(d.Set(k, Some(v)).keys, d.Set(k, Some(v)).vals))
         == if Present(d.keys, d.vals) == [] then Piece((k, v))
            else Line(Present(d.keys, d.vals)) + " " + Piece((k, v))
  {
    var r := d.Set(k, Some(v));
    PresentSnoc(d.keys, k, d.vals, Some(v));
    var es := Present(d.keys, d.vals);
    assert Present(r.keys, r.vals) == es + [(k, v)];
    if es != [] {
      LineAppend(es, [(k, v)]);
    } else {
      assert es + [(k, v)] == [(k, v)];
    }
  }

  /**
   * The filter partner of `Present`: an entry is emitted exactly when its
   * key is listed and holds a value other than `None`.
   */
  lemma {:induction false} PresentMember<K, V>(ks: seq<K>, vals: map<K, Option<V>>, k: K, v: V)
    ensures (k, v) in Present(ks, vals) <==> k in ks && k in vals && vals[k] == Some(v)
  {
    if ks != [] {
      PresentMember(ks[1..], vals, k, v);
      assert ks == [ks[0]] + ks[1..];
    }
  }

  /**
   * A presence-only entry (value `''`) followed by more entries renders as
   * its key, then two spaces: the empty value leaves nothing between the
   * separator of its own piece and the joining space.
   */
  lemma DoubleSpace(k: Flag, rest: seq<Emitted>)
    requires rest != []
    ensures Line([(k, "")] + rest) == Name(k) + "  " + Line(rest)
  {
    LineAppend([(k, "")], rest);
    assert Line([(k, "")]) == Name(k) + " ";
  }

  /** Joining after a possibly empty prefix: the prefix's line and one space come first unless the prefix emits nothing. */
  lemma LineAfter(before: seq<Emitted>, es: seq<Emitted>)
    requires es != []
    ensures Line(before + es) == (if before == [] then "" else Line(before) + " ") + Line(es)
  {
    if before == [] {
      assert before + es == es;
    } else {
      LineAppend(before, es);
    }
  }

  /** The entries from position `i` on: what position `i` emits, then the rest. */
  lemma PresentFrom<K, V>(ks: seq<K>, vals: map<K, Option<V>>, i: nat)
    requires i < |ks|
    ensures Present(ks[i..], vals) == EmitOf(vals, ks[i]) + Present(ks[i + 1..], vals)
  {
    assert ks[i..][0] == ks[i] && ks[i..][1..] == ks[i + 1..];
  }

  /** An entry holding a value emits it first among the entries from its position on. */
  lemma PresentFromValue(ks: seq<Flag>, vals: map<Flag, Option<string>>, i: nat, v: string)
    requires i < |ks| && ks[i] in vals && vals[ks[i]] == Some(v)
    ensures Present(ks[i..], vals) == [(ks[i], v)] + Present(ks[i + 1..], vals)
  {
    PresentFrom(ks, vals, i);
  }

  /** An entry holding `''` emits its key with the empty string between what comes before and after it. */
  lemma EmptyValueAt(ks: seq<Flag>, vals: map<Flag, Option<string>>, i: nat)
    requires i < |ks| && ks[i] in vals && vals[ks[i]] == Some("")
    ensures Present(ks, vals) == Present(ks[..i], vals) + ([(ks[i], "")] + Present(ks[i + 1..], vals))
  {
    PresentAt(ks, vals, i);
    assert EmitOf(vals, ks[i]) == [(ks[i], "")];
  }

  /**
   * An entry holding `''` that is followed by an emitted entry puts its key
   * and then two spaces into the joined pieces: whatever the entries before
   * it emit, then the key, two spaces, and the next entry's piece first in
   * what follows.
   */
  lemma EmptyValueDoubleSpace(ks: seq<Flag>, vals: map<Flag, Option<string>>, i: nat, v: string)
    requires i + 1 < |ks|
    requires ks[i] in vals && vals[ks[i]] == Some("")
    requires ks[i + 1] in vals && vals[ks[i + 1]] == Some(v)
    ensures Present(ks[i + 1..], vals) != [] && Present(ks[i + 1..], vals)[0] == (ks[i + 1], v)
    ensures Line(Present(ks, vals))
         == (if Present(ks[..i], vals) == [] then "" else Line(Present(ks[..i], vals)) + " ")
            + (Name(ks[i]) + "  " + Line(Present(ks[i + 1..], vals)))
  {
    var after := Present(ks[i + 1..], vals);
    PresentFromValue(ks, vals, i + 1, v);
    EmptyValueAt(ks, vals, i);
    LineAfter(Present(ks[..i], vals), [(ks[i], "")] + after);
    DoubleSpace(ks[i], after);
  }
}
