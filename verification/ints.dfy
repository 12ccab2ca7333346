/** Fixed-width integers of the source, as ranges of the unbounded `int`. */
module Ints {

  const U8_MAX: int := 0xff
  const U32_MAX: int := 0xffff_ffff
  const U64_MAX: int := 0xffff_ffff_ffff_ffff

  type u8 = x: int | 0 <= x <= U8_MAX
  type u32 = x: int | 0 <= x <= U32_MAX
  type u64 = x: int | 0 <= x <= U64_MAX
  type i8 = x: int | -0x80 <= x < 0x80
  type i64 = x: int | -0x8000_0000_0000_0000 <= x < 0x8000_0000_0000_0000

  /** Rust's `u64::saturating_add`: the exact sum, capped at `u64::MAX`. */
  function SaturatingAdd(a: u64, b: u64): (r: u64)
    ensures a <= r && b <= r && r <= a + b
    ensures r < U64_MAX ==> r == a + b
  {
    if a + b <= U64_MAX then a + b else U64_MAX
  }

  function Min(a: int, b: int): int {
    if a <= b then a else b
  }
}
