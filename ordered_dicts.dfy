/**
 * Python's insertion-ordered `dict`: a sequence of distinct keys in insertion order plus the
 * key-to-value map. Assigning to a present key keeps its position; a new key goes last.
 */
module OrderedDicts {
  import opened Wrappers

  datatype Dict<K, V> = Dict(keys: seq<K>, vals: map<K, V>)

  /** `keys` lists every key of `vals` exactly once. */
  ghost predicate KeysMatch<K(!new), V>(keys: seq<K>, vals: map<K, V>) {
    && (forall i, j :: 0 <= i < j < |keys| ==> keys[i] != keys[j])
    && (forall k :: k in vals <==> k in keys)
  }

  /** A dict whose key order lists every key exactly once. */
  type ODict<K(!new), V> = d: Dict<K, V> | KeysMatch(d.keys, d.vals) witness Dict([], map[])

  lemma KeysMatchUpdate<K(!new), V>(keys: seq<K>, vals: map<K, V>, k: K, v: V)
    requires KeysMatch(keys, vals) && k in vals
    ensures KeysMatch(keys, vals[k := v])
  {
  }

  lemma KeysMatchAppend<K(!new), V>(keys: seq<K>, vals: map<K, V>, k: K, v: V)
    requires KeysMatch(keys, vals) && k !in vals
    ensures KeysMatch(keys + [k], vals[k := v])
  {
    var keys' := keys + [k];
    forall i, j | 0 <= i < j < |keys'|
      ensures keys'[i] != keys'[j]
    {
      if j == |keys| {
        assert keys[i] in keys;
      }
    }
  }

  function Empty<K(!new), V>(): (r: ODict<K, V>)
    ensures r.keys == [] && r.vals == map[]
  {
    Dict([], map[])
  }

  /** `d.get(k)`. */
  function Get<K(!new), V>(d: ODict<K, V>, k: K): (r: Option<V>)
    ensures r.Some? <==> k in d.vals
    ensures r.Some? ==> r.value == d.vals[k]
  {
    if k in d.vals then Some(d.vals[k]) else None
  }

  /** A key is in the insertion order exactly when the dict holds it. */
  lemma InKeys<K(!new), V>(d: ODict<K, V>, k: K)
    ensures k in d.keys <==> k in d.vals
  {
  }

  /** The value of the i-th key in insertion order (one step of `for k, v in d.items()`). */
  function ValueAt<K(!new), V>(d: ODict<K, V>, i: nat): (r: V)
    requires i < |d.keys|
    ensures d.keys[i] in d.vals && r == d.vals[d.keys[i]]
  {
    d.vals[d.keys[i]]
  }

  /** `d[k] = v`. */
  function Put<K(!new), V>(d: ODict<K, V>, k: K, v: V): (r: ODict<K, V>)
    ensures r.vals == d.vals[k := v]
    ensures k in d.vals ==> r.keys == d.keys
    ensures k !in d.vals ==> r.keys == d.keys + [k]
  {
    if k in d.vals then
      KeysMatchUpdate(d.keys, d.vals, k, v);
      Dict(d.keys, d.vals[k := v])
    else
      KeysMatchAppend(d.keys, d.vals, k, v);
      Dict(d.keys + [k], d.vals[k := v])
  }

  /** `next(iter(d.values()))`: the value of the first key, None for an empty dict. */
  function First<K(!new), V>(d: ODict<K, V>): (r: Option<V>)
    ensures r.None? <==> d.keys == []
    ensures r.Some? ==> r.value == ValueAt(d, 0)
  {
    if |d.keys| == 0 then None else Some(ValueAt(d, 0))
  }

  /** Keys in insertion order are distinct, so iterating a dict visits each key once. */
  lemma KeysDistinct<K(!new), V>(d: ODict<K, V>, i: nat, j: nat)
    requires i < j < |d.keys|
    ensures d.keys[i] != d.keys[j]
  {
  }

  /** Assigning the value a key already holds leaves the dict as it was. */
  lemma PutSame<K(!new), V>(d: ODict<K, V>, k: K)
    requires k in d.vals
    ensures Put(d, k, d.vals[k]) == d
  {
    assert d.vals[k := d.vals[k]] == d.vals;
  }

  /** `d[k] = v` followed by `d[k] = w` is `d[k] = w`. */
  lemma PutPut<K(!new), V>(d: ODict<K, V>, k: K, v: V, w: V)
    ensures Put(Put(d, k, v), k, w) == Put(d, k, w)
  {
    assert d.vals[k := v][k := w] == d.vals[k := w];
  }
}
