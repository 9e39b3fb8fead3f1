/** The machine integers that the program keeps numbers in. */
module Integers {
  const INT_MAX: int := 0x7fff_ffff
  const TWO_32: int := 0x1_0000_0000
  const TWO_64: int := 0x1_0000_0000_0000_0000

  type int32 = n: int | -0x8000_0000 <= n <= 0x7fff_ffff
  type uint32 = n: int | 0 <= n < 0x1_0000_0000
  type uint64 = n: int | 0 <= n < 0x1_0000_0000_0000_0000
}
