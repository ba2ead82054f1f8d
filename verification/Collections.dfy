/** What every module here needs of options, maps and lists. */
module Collections {

  datatype Option<+T> = None | Some(value: T)

  function Lookup<K, V>(m: map<K, V>, key: K): Option<V> {
    if key in m then Some(m[key]) else None
  }

  function Members<T>(s: seq<T>): set<T> {
    set x | x in s
  }
}
