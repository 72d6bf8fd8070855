/** An optional value: a Go map lookup, or a pointer that may be nil. */
module Wrappers {
  datatype Option<+T> = None | Some(value: T)

  /** The two-result form of a Go map lookup. */
  function Get<K, V>(m: map<K, V>, k: K): Option<V> {
    if k in m then Some(m[k]) else None
  }
}
