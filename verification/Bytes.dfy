/** Octets as the C sources see them through `unsigned char`. */
module Bytes {
  type Byte = b: int | 0 <= b < 256

  const LF: Byte := 10
  const EOF: int := -1   // what getc returns at the end of input
  const TWO32: nat := 0x1_0000_0000

  function Min(a: nat, b: nat): nat {
    if a < b then a else b
  }
}
