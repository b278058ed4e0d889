/** C's fixed-width integers: the ranges, the conversions and truncating division. */
module MachineInt {
  const TWO_16: int := 0x1_0000
  const TWO_32: int := 0x1_0000_0000
  const TWO_62: int := 0x4000_0000_0000_0000
  const TWO_63: int := 0x8000_0000_0000_0000
  const TWO_64: int := 0x1_0000_0000_0000_0000

  type u8 = x: int | 0 <= x < 0x100
  type u16 = x: int | 0 <= x < 0x1_0000
  type u32 = x: int | 0 <= x < 0x1_0000_0000
  type u64 = x: int | 0 <= x < 0x1_0000_0000_0000_0000
  type i32 = x: int | -0x8000_0000 <= x < 0x8000_0000
  type i64 = x: int | -0x8000_0000_0000_0000 <= x < 0x8000_0000_0000_0000

  /** int64_t to uint64_t. */
  function AsU64(x: i64): u64 {
    if x < 0 then x + TWO_64 else x
  }

  /** uint64_t to int64_t. */
  function AsI64(x: u64): i64 {
    if x < TWO_63 then x else x - TWO_64
  }

  /** Unsigned subtraction, modulo 2^64. */
  function SubU64(a: u64, b: u64): u64 {
    if a >= b then a - b else a - b + TWO_64
  }

  /** A sum or difference of two int64_t. Overflow is undefined in the source; here it wraps,
      and `PtpClock.ArithmeticIsExact` shows that it does not happen. */
  function WrapI64(x: int): i64
    requires -TWO_64 <= x < TWO_64
  {
    if x < -TWO_63 then x + TWO_64 else if x >= TWO_63 then x - TWO_64 else x
  }

  /** uint64_t to a 32-bit int. */
  function AsI32(x: u64): i32 {
    var r := x % TWO_32;
    if r < 0x8000_0000 then r else r - TWO_32
  }

  /** C's `x / 2`: the quotient is truncated towards zero. */
  function Half(x: int): int {
    if x >= 0 then x / 2 else -((-x) / 2)
  }
}
