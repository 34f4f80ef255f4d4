// Fixed-width machine integers of the driver, as ranges of the mathematical integers, and the
// constants its parts share.
module Words {
  type U8 = x: int | 0 <= x < 0x100
  type U16 = x: int | 0 <= x < 0x1_0000
  type U32 = x: int | 0 <= x < 0x1_0000_0000
  type U64 = x: int | 0 <= x < 0x1_0000_0000_0000_0000

  // The bytes of DRAM that identify reports.
  const DSP_DRAM_SIZE: U32 := 0x1EE00000

  const ENOMEM := 12
  const EFAULT := 14
  const EINVAL := 22

  // Unsigned 32-bit arithmetic discards everything above bit 31.
  function Wrap32(x: int): U32 {
    x % 0x1_0000_0000
  }

  function Wrap64(x: int): U64 {
    x % 0x1_0000_0000_0000_0000
  }

  // The signed reading of a 32-bit pattern (conversion of uint32_t to int32_t).
  function Signed32(x: U32): int {
    if x < 0x8000_0000 then x else x - 0x1_0000_0000
  }
}
