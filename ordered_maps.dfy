/** Python dictionaries remember the order in which keys were first
    inserted, and both the property map and the legend map of the viewer
    are iterated in that order. An `OrderedMap` pairs the key order with
    the key-value map. */
module OrderedMaps {

  datatype OrderedMap<K(==, !new), V> = OrderedMap(keys: seq<K>, vals: map<K, V>) {

    /** Keys are listed once each, and exactly the keys of `vals` are listed. */
    ghost predicate Valid() {
      && (forall a, b :: 0 <= a < b < |keys| ==> keys[a] != keys[b])
      && (forall k :: k in vals <==> k in keys)
    }

    /** `d[k] = v`: an existing key keeps its place, a new key goes last. */
    function Put(k: K, v: V): (m: OrderedMap<K, V>)
      ensures Valid() ==> m.Valid()
    {
      OrderedMap(if k in vals then keys else keys + [k], vals[k := v])
    }

    /** `d.values()`, in iteration order. */
    function Values(): (r: seq<V>)
      requires Valid()
      ensures |r| == |keys|
    {
      seq(|keys|, t requires 0 <= t < |keys| => vals[keys[t]])
    }
  }

  function Empty<K(==, !new), V>(): (m: OrderedMap<K, V>)
    ensures m.Valid() && m.keys == []
  {
    OrderedMap([], map[])
  }

  /** Writing the same key twice leaves what the second write leaves. */
  lemma PutPut<K(!new), V>(m: OrderedMap<K, V>, k: K, v1: V, v2: V)
    ensures m.Put(k, v1).Put(k, v2) == m.Put(k, v2)
  {
    assert m.vals[k := v1][k := v2] == m.vals[k := v2];
  }
}
