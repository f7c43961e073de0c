/** The typed map of `internal/syncmap`; each method body is one critical section of its lock. */
module SyncMap {
  import opened Wrappers

  class Map<K(==), V> {
    var m: map<K, V>

    constructor ()
      ensures m == map[]
    {
      m := map[];
    }

    /** The value under `key`; None is Go's `ok == false`. */
    method Load(key: K) returns (value: Option<V>)
      ensures value.Some? <==> key in m
      ensures value.Some? ==> value.value == m[key]
    {
      value := if key in m then Some(m[key]) else None;
    }

    method Store(key: K, value: V)
      modifies this
      ensures m == old(m)[key := value]
    {
      m := m[key := value];
    }

    method Delete(key: K)
      modifies this
      ensures m == old(m) - {key}
    {
      m := m - {key};
    }

    /** Stores only into a free key; in every case `actual` is what the key then holds. */
    method LoadOrStore(key: K, value: V) returns (actual: V, loaded: bool)
      modifies this
      ensures loaded <==> key in old(m)
      ensures m == if loaded then old(m) else old(m)[key := value]
      ensures key in m && actual == m[key]
    {
      if key in m {
        return m[key], true;
      }
      m := m[key := value];
      return value, false;
    }

    method LoadAndDelete(key: K) returns (value: Option<V>)
      modifies this
      ensures value.Some? <==> key in old(m)
      ensures value.Some? ==> value.value == old(m)[key]
      ensures m == old(m) - {key}
    {
      value := if key in m then Some(m[key]) else None;
      m := m - {key};
    }
  }
}
