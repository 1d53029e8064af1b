/** Optional values: JavaScript's `undefined` versus a present value. */
module Wrappers {
  datatype Option<+T> = None | Some(value: T)

  /** `map.get(key)`: `undefined` when the key is missing. */
  function Get<K, V>(m: map<K, V>, key: K): (r: Option<V>)
    ensures r.Some? <==> key in m
    ensures r.Some? ==> r.value == m[key]
  {
    if key in m then Some(m[key]) else None
  }
}
