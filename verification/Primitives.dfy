/** The values the modules share: bytes, 16-bit words, and a result that may be missing. */
module Primitives {

  type Byte = b: int | 0 <= b < 0x100
  type Word = w: int | 0 <= w < 0x10000

  datatype Option<T> = None | Some(value: T)
}
