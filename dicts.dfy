/**
 * Python's `dict`: a finite map that also remembers the order in which its
 * keys were first inserted (iteration, `values()` and `items()` follow it).
 * A dictionary is the sequence of its keys in insertion order together with
 * the map from each key to its value.
 */
module Dicts {
  import opened Wrappers
  import opened Lists

  datatype RawDict<K, V> = RawDict(keys: seq<K>, entries: map<K, V>)

  /** Every key is listed exactly once, and only the keys are listed. */
  predicate WellFormed<K(==, !new), V>(d: RawDict<K, V>) {
    && Distinct(d.keys)
    && (forall k :: k in d.entries ==> k in d.keys)
    && (forall i :: 0 <= i < |d.keys| ==> d.keys[i] in d.entries)
  }

  type Dict<K(==, !new), V> = d: RawDict<K, V> | WellFormed(d) witness RawDict([], map[])

  /** `{}` */
  function Empty<K(==, !new), V>(): (d: Dict<K, V>)
    ensures d.entries == map[] && d.keys == []
  {
    RawDict([], map[])
  }

  /**
   * `d.get(k)`: the value under `k`, or None. This defines the Python
   * primitive itself; its contract only spells out that definition for the
   * callers.
   */
  function Get<K(==, !new), V>(d: Dict<K, V>, k: K): (r: Option<V>)
    ensures r.Some? <==> k in d.entries
    ensures r.Some? ==> r.value == d.entries[k]
  {
    if k in d.entries then Some(d.entries[k]) else None
  }

  /**
   * `d[k] = v`: `k` now maps to `v`; every other key keeps its value; an
   * existing key keeps its place in the order, a new key goes last.
   */
  function Put<K(==, !new), V>(d: Dict<K, V>, k: K, v: V): (r: Dict<K, V>)
    ensures k in r.entries && r.entries[k] == v
    ensures forall j :: j != k ==> Get(r, j) == Get(d, j)
    ensures r.keys == if k in d.entries then d.keys else d.keys + [k]
  {
    if k in d.entries then RawDict(d.keys, d.entries[k := v])
    else
      var r := RawDict(d.keys + [k], d.entries[k := v]);
      assert forall i :: 0 <= i < |d.keys| ==> d.keys[i] != k;
      r
  }

  /**
   * `del d[k]` (Python raises KeyError when `k` is absent): `k` is gone,
   * every other key keeps its value and its place in the order.
   */
  function Del<K(==, !new), V>(d: Dict<K, V>, k: K): (r: Dict<K, V>)
    requires k in d.entries
    ensures k !in r.entries
    ensures forall j :: j != k ==> Get(r, j) == Get(d, j)
    ensures r.keys == RemoveFirst(d.keys, k)
  {
    var keys := RemoveFirst(d.keys, k);
    var r := RawDict(keys, d.entries - {k});
    assert forall j :: j in r.entries ==> j in d.keys && j != k;
    r
  }

  /** `d.pop(k, None)`, the result dropped: `del d[k]` when `k` is present, no change otherwise. */
  function Pop<K(==, !new), V>(d: Dict<K, V>, k: K): (r: Dict<K, V>)
    ensures k !in r.entries
    ensures forall j :: j != k ==> Get(r, j) == Get(d, j)
    ensures k !in d.entries ==> r == d
  {
    if k in d.entries then Del(d, k) else d
  }

  /**
   * `list(d.values())`: the values in key order. This defines the Python
   * primitive itself; its contract only spells out that definition for the
   * callers.
   */
  function Values<K(==, !new), V>(d: Dict<K, V>): (vs: seq<V>)
    ensures |vs| == |d.keys|
    ensures forall i :: 0 <= i < |vs| ==> vs[i] == d.entries[d.keys[i]]
  {
    seq(|d.keys|, i requires 0 <= i < |d.keys| => d.entries[d.keys[i]])
  }

  /** Deleting a key and then storing its old value again restores the same mapping. */
  lemma PutAfterDel<K(!new), V>(d: Dict<K, V>, k: K)
    requires k in d.entries
    ensures Put(Del(d, k), k, d.entries[k]).entries == d.entries
  {
    assert Put(Del(d, k), k, d.entries[k]).entries == (d.entries - {k})[k := d.entries[k]];
  }

  /** Storing under a new key and then deleting it restores the same mapping. */
  lemma DelAfterPut<K(!new), V>(d: Dict<K, V>, k: K, v: V)
    requires k !in d.entries
    ensures Del(Put(d, k, v), k).entries == d.entries
  {
    var m := Put(d, k, v).entries;
    assert m == d.entries[k := v];
    assert m - {k} == d.entries;
  }
}
