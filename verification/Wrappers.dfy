/** Result types shared by every module: a possibly absent value, and an outcome that carries its failure. */
module Wrappers {
  datatype Option<+T> = None | Some(value: T)

  datatype Result<+T, +E> = Ok(value: T) | Err(error: E)

  function Entry<K, V>(m: map<K, V>, key: K): Option<V> {
    if key in m then Some(m[key]) else None
  }

  /** A check that either passes or names what failed. */
  datatype Outcome<+E> = Pass | Fail(error: E)
}
