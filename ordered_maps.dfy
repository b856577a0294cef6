/** Python's dict keeps its keys in insertion order, and the bot iterates
    three of its dicts (tracked URLs per guild, keywords per guild, and the
    scraper's ad map). An OMap is a map together with that key order. */
module OrderedMaps {

  datatype OMap<K(==, !new), V> = OMap(keys: seq<K>, vals: map<K, V>) {

    /** Every key once, and exactly the keys of the map. */
    ghost predicate Valid() {
      && (forall i, j :: 0 <= i < j < |keys| ==> keys[i] != keys[j])
      && (forall k :: k in vals <==> k in keys)
    }

    /** d[k] = v: a new key goes to the end, an existing key keeps its place. */
    function Put(k: K, v: V): (m: OMap<K, V>)
      requires Valid()
      ensures m.Valid()
      ensures m.vals == vals[k := v]
      ensures m.keys == if k in vals then keys else keys + [k]
    {
      if k in vals then OMap(keys, vals[k := v]) else OMap(keys + [k], vals[k := v])
    }

    function GetOr(k: K, default: V): V {
      if k in vals then vals[k] else default
    }
  }

  function Empty<K(==, !new), V>(): (m: OMap<K, V>)
    ensures m.Valid() && m.keys == [] && m.vals == map[]
  {
    OMap([], map[])
  }
}
