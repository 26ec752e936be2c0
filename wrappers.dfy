/** Small helper types shared by the other modules. */
module Wrappers {

  /** A value that may be absent. */
  datatype Option<+T> = None | Some(value: T)

  /** An unsigned octet, as stored in `uint8_t` and in socket buffers. */
  newtype byte = b: int | 0 <= b < 256

  function Min(a: int, b: int): (r: int)
  {
    if a <= b then a else b
  }

  /** Regrouping a concatenation of three sequences. */
  lemma AppendAssoc<T>(a: seq<T>, b: seq<T>, c: seq<T>)
    ensures a + (b + c) == (a + b) + c
  {
  }
}
