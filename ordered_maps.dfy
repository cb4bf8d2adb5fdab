/**
 * A Python `dict` seen as an ordered map: its entries in insertion order
 * and the key-to-value mapping. Assigning to a key already present keeps
 * its position; a new key goes to the end.
 */
module OrderedMaps {

  datatype OrderedMap<K(==), V> = OrderedMap(keys: seq<K>, values: map<K, V>) {

    /** Every key is listed once, and the listed keys are the mapped ones. */
    predicate Valid() {
      && (forall a, b :: 0 <= a < b < |keys| ==> keys[a] != keys[b])
      && values.Keys == set k | k in keys
    }

    /** `d[k] = v` */
    function Put(k: K, v: V): (r: OrderedMap<K, V>)
      requires Valid()
      ensures r.Valid()
      ensures r.values == values[k := v]
      ensures k in values ==> r.keys == keys
      ensures k !in values ==> r.keys == keys + [k]
    {
      if k in values then OrderedMap(keys, values[k := v])
      else OrderedMap(keys + [k], values[k := v])
    }
  }

  /** `{}` */
  function Empty<K(==), V>(): (r: OrderedMap<K, V>)
    ensures r.Valid() && r.keys == [] && r.values == map[]
  {
    OrderedMap([], map[])
  }
}
