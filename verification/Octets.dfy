/** Fixed-width machine numbers. */
module Octets {
  type Byte = n: int | 0 <= n < 256
  type Word16 = n: int | 0 <= n < 0x1_0000
  type Word32 = n: int | 0 <= n < 0x1_0000_0000
  type Word64 = n: int | 0 <= n < 0x1_0000_0000_0000_0000
}
