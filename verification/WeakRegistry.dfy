/** Maps to weakly held objects. A lookup first drops the entries whose object nobody holds any more. */
module WeakRegistry {

  function Sweep<K, V>(entries: map<K, V>, live: set<V>): map<K, V> {
    map k | k in entries && entries[k] in live :: entries[k]
  }

  /** The entries a lookup leaves and the object it yields, which is `spare` unless a live one is registered. */
  function Resolve<K, V>(entries: map<K, V>, key: K, live: set<V>, spare: V): (r: (map<K, V>, V)) {
    var swept := Sweep(entries, live);
    if key in swept then (swept, swept[key]) else (swept[key := spare], spare)
  }

  /** Every live registration survives a lookup, and afterwards the key is registered with the object returned. */
  lemma ResolveKeeps<K, V>(entries: map<K, V>, key: K, live: set<V>, spare: V)
    ensures var (after, v) := Resolve(entries, key, live, spare);
      && key in after && after[key] == v
      && (forall k | k in entries && entries[k] in live :: k in after && after[k] == entries[k])
      && (forall k | k in after && k != key :: k in entries && entries[k] in live && after[k] == entries[k])
      && (v == spare || (key in entries && v == entries[key] && v in live))
  {
  }

  /** One registry: `COORDINATION_SCOPES`, `operation_locks` or `refresh_flights`. */
  class Registry<K(==), V(==)> {
    var entries: map<K, V>

    constructor ()
      ensures entries == map[]
    {
      entries := map[];
    }

    /** `live` lists the objects with a strong reference, `spare` is the object to allocate if needed. */
    method LookUp(key: K, live: set<V>, spare: V) returns (found: V, created: bool)
      modifies this
      ensures (entries, found) == Resolve(old(entries), key, live, spare)
      ensures created <==> !(key in old(entries) && old(entries)[key] in live)
    {
      entries := Sweep(entries, live);
      if key in entries {
        return entries[key], false;
      }
      entries := entries[key := spare];
      return spare, true;
    }

    /** Removes the entry only if it still names this very object. */
    method Remove(key: K, v: V, live: set<V>)
      modifies this
      ensures entries == if key in old(entries) && old(entries)[key] == v && v in live
                         then old(entries) - {key} else old(entries)
    {
      if key in entries && entries[key] == v && v in live {
        entries := entries - {key};
      }
    }
  }
}
