/** Values that may be absent (a missing map entry, a nil value, no error), and database statements that may fail. */
module Options {
  datatype Option<+T> = None | Some(value: T)

  function Lookup<K, V>(m: map<K, V>, k: K): Option<V> {
    if k in m then Some(m[k]) else None
  }

  /** How a statement goes: it works, or its caller gets an error and it was not (Lost) or was (Applied) carried out. */
  datatype Fate = Works | Lost | Applied
}
