/** The optional value shared by every module of the project. */
module Options {

  datatype Option<+T> = None | Some(value: T)

  /** What a table lookup answers: the row, or nothing. */
  function Lookup<K, V>(m: map<K, V>, k: K): Option<V> {
    if k in m then Some(m[k]) else None
  }
}
