/** Small helpers shared by the other modules: an optional value and a map lookup that yields one. */
module Wrappers {

  datatype Option<+T> = None | Some(value: T)

  /** The entry of `m` at `k`, if there is one. */
  function Lookup<K, V>(m: map<K, V>, k: K): (r: Option<V>)
    ensures r.Some? <==> k in m
    ensures r.Some? ==> r.value == m[k]
  {
    if k in m then Some(m[k]) else None
  }
}
