/** Types shared by every component. */
module Prelude {

  type byte = x: int | 0 <= x < 256

  /** Byte strings. Go's nil slice is the empty string. */
  type Bytes = seq<byte>

  datatype Option<+T> = None | Some(value: T)

  function Get<K, V>(m: map<K, V>, k: K): Option<V>
  {
    if k in m then Some(m[k]) else None
  }
}
