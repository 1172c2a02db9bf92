/** Rust's unsigned machine integers, as ranges of `int`. */
module Ints {
  type byte = x: int | 0 <= x < 0x100
  type u16 = x: int | 0 <= x < 0x1_0000
  type u32 = x: int | 0 <= x < 0x1_0000_0000

  const U8_MAX: byte := 0xFF
  const U16_MAX: u16 := 0xFFFF
}
