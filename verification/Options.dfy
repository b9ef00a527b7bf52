/** The optional value shared by the other modules. */
module Options {
  datatype Option<+T> = None | Some(value: T)

  /** Map lookup with an absent key made explicit. */
  function Lookup<K, V>(m: map<K, V>, k: K): Option<V> {
    if k in m then Some(m[k]) else None
  }
}
