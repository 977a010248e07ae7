/** Failure-free and failing results shared by every component of the model. */
module Common {

  datatype Option<+T> = None | Some(value: T)

  datatype Result<+T, +E> = Success(value: T) | Failure(error: E)

  /** The value of a map at a key, or None. */
  function Get<K, V>(m: map<K, V>, k: K): Option<V> {
    if k in m then Some(m[k]) else None
  }

  /** Store a value, or remove the key. */
  function Put<K, V>(m: map<K, V>, k: K, v: Option<V>): map<K, V> {
    if v.Some? then m[k := v.value] else m - {k}
  }

  /** The size of a text in UTF-8, from the width of each of its characters. */
  function ByteLength(width: char -> nat, s: string): nat {
    if s == [] then 0 else width(s[0]) + ByteLength(width, s[1..])
  }
}
