/** Option and Result as used throughout the model. */
module Wrappers {

  datatype Option<+T> = None | Some(value: T)

  datatype Result<+T, +E> = Ok(value: T) | Err(error: E)

  /** The entry for `key`, if the map has one. */
  function Lookup<K, V>(m: map<K, V>, key: K): (entry: Option<V>)
    ensures entry.Some? <==> key in m
  {
    if key in m then Some(m[key]) else None
  }

  /** The entry for `key`, or `fallback` when the map has none. */
  function LookupOr<K, V>(m: map<K, V>, key: K, fallback: V): V {
    if key in m then m[key] else fallback
  }
}
