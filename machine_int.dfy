/** Fixed-width integer semantics of the firmware's C++ types (u16, i16, u32,
    i32) over Dafny's unbounded integers: the ranges, the modular conversions
    the compiler performs, and C's division that truncates toward zero. */
module MachineInt {

  const U16Mod: int := 0x1_0000
  const U32Mod: int := 0x1_0000_0000
  const U32Max: int := 0xFFFF_FFFF
  const I32Max: int := 0x7FFF_FFFF

  predicate IsU16(x: int) { 0 <= x < U16Mod }
  predicate IsI16(x: int) { -0x8000 <= x < 0x8000 }
  predicate IsU32(x: int) { 0 <= x < U32Mod }
  predicate IsI32(x: int) { -0x8000_0000 <= x <= I32Max }

  function Abs(x: int): (r: int)
    ensures r >= 0 && (r == x || r == -x)
  {
    if x < 0 then -x else x
  }

  /** Conversion of an integer to u16: reduction modulo 2^16. */
  function U16(x: int): (r: int)
    ensures IsU16(r)
    ensures IsU16(x) ==> r == x
    ensures -U16Mod <= x < 0 ==> r == x + U16Mod
  {
    x % U16Mod
  }

  /** Conversion of an integer to u32: reduction modulo 2^32. */
  function U32(x: int): (r: int)
    ensures IsU32(r)
    ensures IsU32(x) ==> r == x
    ensures -U32Mod <= x < 0 ==> r == x + U32Mod
    ensures U32Mod <= x < 2 * U32Mod ==> r == x - U32Mod
  {
    x % U32Mod
  }

  /** Conversion of an integer to i16 (two's complement wrap-around). */
  function I16(x: int): (r: int)
    ensures IsI16(r)
    ensures IsI16(x) ==> r == x
  {
    (x + 0x8000) % U16Mod - 0x8000
  }

  /** Reinterpretation of a u32 bit pattern as i32 (two's complement). */
  function I32(x: int): (r: int)
    requires IsU32(x)
    ensures IsI32(r)
    ensures U32(r) == x
    ensures x <= I32Max ==> r == x
  {
    if x <= I32Max then x else x - U32Mod
  }

  /** C's integer division `a / b`: the quotient truncated toward zero, so
      that the remainder `a - q * b` has the sign of `a` and is smaller than
      `b` in magnitude. */
  function Quot(a: int, b: int): (q: int)
    requires b != 0
    ensures Abs(a - q * b) < Abs(b)
    ensures a - q * b == 0 || (a - q * b > 0 <==> a > 0)
  {
    if a >= 0 then
      (if b > 0 then a / b else -(a / -b))
    else
      (if b > 0 then -((-a) / b) else (-a) / (-b))
  }

  /** Conversion of a floating-point value to an integer type: the fraction is
      discarded, truncating toward zero. */
  function TruncReal(x: real): (n: int)
    ensures x >= 0.0 ==> n as real <= x < n as real + 1.0
    ensures x < 0.0 ==> n as real - 1.0 < x <= n as real
  {
    if x >= 0.0 then x.Floor else -((-x).Floor)
  }
}
