/** The unsigned C integers the runtime computes with, and their wrap-around. */
module UInt {
  const TWO_32: nat := 0x1_0000_0000
  const TWO_64: nat := 0x1_0000_0000_0000_0000

  type uint8 = x: nat | x < 0x100
  type uint32 = x: nat | x < 0x1_0000_0000
  type uint64 = x: nat | x < 0x1_0000_0000_0000_0000

  function Wrap32(x: int): uint32 {
    x % TWO_32
  }

  function Wrap64(x: int): uint64 {
    x % TWO_64
  }
}
