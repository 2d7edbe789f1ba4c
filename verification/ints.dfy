/** Fixed-width integers of the plotting code, as ranges of `int`, and the
    saturating narrowing conversions the pixel types use. */
module Ints {

  const U16_MAX: int := 0xFFFF
  const U32_MAX: int := 0xFFFF_FFFF
  const I32_MIN: int := -0x8000_0000
  const I32_MAX: int := 0x7FFF_FFFF

  type u16 = x: int | 0 <= x <= U16_MAX
  type u32 = x: int | 0 <= x <= U32_MAX
  type i32 = x: int | I32_MIN <= x <= I32_MAX

  function Clamp(x: int, lo: int, hi: int): (r: int)
    requires lo <= hi
    ensures lo <= r <= hi
    ensures lo <= x <= hi ==> r == x
    ensures x < lo ==> r == lo
    ensures x > hi ==> r == hi
  {
    if x < lo then lo else if x > hi then hi else x
  }

  /** Narrowing to `u32` saturates at both ends instead of wrapping. */
  function SatU32(x: int): (r: u32)
    ensures 0 <= x <= U32_MAX ==> r == x
    ensures x < 0 ==> r == 0
    ensures x > U32_MAX ==> r == U32_MAX
  {
    Clamp(x, 0, U32_MAX)
  }

  /** Narrowing to `i32` saturates at both ends instead of wrapping. */
  function SatI32(x: int): (r: i32)
    ensures I32_MIN <= x <= I32_MAX ==> r == x
    ensures x < I32_MIN ==> r == I32_MIN
    ensures x > I32_MAX ==> r == I32_MAX
  {
    Clamp(x, I32_MIN, I32_MAX)
  }

  /** Saturating unsigned subtraction, `u32::saturating_sub`. */
  function SaturatingSub(a: u32, b: u32): (r: u32)
    ensures a >= b ==> r == a - b
    ensures a < b ==> r == 0
  {
    if a >= b then a - b else 0
  }

  /** The integer part of a real, truncating toward zero as Rust's float
      `as` casts do. */
  function Trunc(x: real): (r: int)
    ensures x >= 0.0 ==> r as real <= x < r as real + 1.0
    ensures x < 0.0 ==> r as real - 1.0 < x <= r as real
  {
    if x >= 0.0 then x.Floor else -((-x).Floor)
  }

  /** `floor` of a real. */
  function Floor(x: real): (r: int)
    ensures r as real <= x < r as real + 1.0
  {
    x.Floor
  }

  /** `ceil` of a real. */
  function Ceil(x: real): (r: int)
    ensures x <= r as real < x + 1.0
  {
    if x.Floor as real == x then x.Floor else x.Floor + 1
  }

  /** Rust's `x as u32` for a float: truncation toward zero, then saturation. */
  function RealToU32(x: real): (r: u32)
    ensures 0.0 <= x < (U32_MAX + 1) as real ==> r as real <= x < r as real + 1.0
    ensures x < 1.0 ==> r == 0
  {
    SatU32(Trunc(x))
  }

  /** Rust's `x as i32` for a float: truncation toward zero, then saturation. */
  function RealToI32(x: real): (r: i32)
    ensures I32_MIN as real <= x <= I32_MAX as real ==> r == Trunc(x)
  {
    SatI32(Trunc(x))
  }
}
