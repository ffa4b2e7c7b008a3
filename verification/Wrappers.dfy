/** A value that may be absent, looking one up, and counting a condition. */
module Wrappers {
  datatype Option<+T> = None | Some(value: T)

  function Lookup<K, V>(m: map<K, V>, k: K): Option<V> {
    if k in m then Some(m[k]) else None
  }

  function One(b: bool): nat {
    if b then 1 else 0
  }
}
