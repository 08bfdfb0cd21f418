/** Machine words and the option type shared by every module. */
module Basics {

  type Byte = x: int | 0 <= x < 0x100

  type Word = x: int | 0 <= x < 0x1_0000

  function WordOf(lo: Byte, hi: Byte): (w: Word)
  {
    var high: int := hi;
    lo + 0x100 * high
  }

  datatype Option<+T> = None | Some(value: T)

  datatype Result<+T, +E> = Ok(value: T) | Err(error: E)
}
