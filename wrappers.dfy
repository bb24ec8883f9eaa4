/** The optional value used for JavaScript's `number | null` and for nullable refs. */
module Wrappers {

  datatype Option<+T> = None | Some(value: T)

  /** Looks a key up in a map, giving None where JavaScript's `m[k]` is `undefined`. */
  function Lookup<K, V>(m: map<K, V>, k: K): Option<V>
  {
    if k in m then Some(m[k]) else None
  }
}
