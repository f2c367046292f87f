/** Fixed-width unsigned integers of the Rust source, as bounded `int`s. */
module Primitives {

  /** `u8`. */
  type Byte = x: int | 0 <= x < 0x100
  /** `u32`. */
  type U32 = x: int | 0 <= x < 0x1_0000_0000
  /** `u64`. */
  type U64 = x: int | 0 <= x < 0x1_0000_0000_0000_0000
  /** `i32`. */
  type I32 = x: int | -0x8000_0000 <= x < 0x8000_0000
}
