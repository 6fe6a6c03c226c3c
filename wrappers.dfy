/** Small value types shared by every module of the model. */
module Wrappers {

  datatype Option<T> = None | Some(value: T)

  /** An octet, as Ruby binary strings and foreign buffers hold them. */
  newtype byte = b: int | 0 <= b < 0x100

  function Min(a: int, b: int): int { if a <= b then a else b }
}
