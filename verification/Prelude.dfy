/** Types shared by the models of the byte-level and string-level code. */
module Prelude {
  datatype Option<+T> = None | Some(value: T)

  type byte = b: int | 0 <= b < 256

  const TWO_TO_THE_63: int := 0x8000_0000_0000_0000
  const TWO_TO_THE_64: int := 0x1_0000_0000_0000_0000

  /** Go's int64, and its int on the 64-bit hosts the program is built for. */
  type int64 = n: int | -TWO_TO_THE_63 <= n < TWO_TO_THE_63
}
