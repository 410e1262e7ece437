/** Optional values and the outcome of fallible operations. */
module Results {
  datatype Option<+T> = None | Some(value: T)

  datatype Result<+T, +E> = Ok(value: T) | Err(error: E)

  /** A call may fail before it has any effect, or after its main one. */
  datatype Fault = NoFault | Early | Late

  function Lookup<K, V>(m: map<K, V>, k: K): Option<V> {
    if k in m then Some(m[k]) else None
  }
}
