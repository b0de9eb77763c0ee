/** Fixed-width unsigned integers of the Rust/C boundary. Each is a subset of
    `int`, so a value keeps its declared width: a `u16` identifier cannot be
    widened or narrowed without an explicit conversion. */
module Ints {
  newtype u8 = x: int | 0 <= x < 0x100
  newtype u16 = x: int | 0 <= x < 0x1_0000
  newtype u32 = x: int | 0 <= x < 0x1_0000_0000
  newtype u64 = x: int | 0 <= x < 0x1_0000_0000_0000_0000
}
