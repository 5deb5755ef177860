/** Values that may be missing. */
module Options {

  datatype Option<T> = None | Some(value: T)

  /** The value of a map at a key, if it has one. */
  function Look<K, V>(m: map<K, V>, k: K): Option<V> {
    if k in m then Some(m[k]) else None
  }
}
