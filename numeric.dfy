/** The numeric vocabulary shared by every module: the machine constants of the
    floating-point type the library is instantiated with (f32 here), the 16-bit
    iteration counters, absolute value, and the Option that stands in for a
    NaN result. */
module Numeric {

  /** `f32::EPSILON`, the gap between 1.0 and the next representable value: 2^-23. */
  const EPS: real := 1.0 / 8388608.0

  /** `f32::MAX`, the largest finite value: 2^128 - 2^104. */
  const MAXV: real := 340282346638528859811704183484516925440.0

  /** The NPV magnitude below which a rate is accepted as the IRR: 0.001. */
  const NPV_PRECISION: real := 1.0 / 1000.0

  /** Rust's `i16`, the type of every iteration limit and iteration count. */
  newtype i16 = x: int | -0x8000 <= x < 0x8000

  /** A value that is either a number or NaN (`None`). */
  datatype Option<T> = None | Some(value: T)

  function Abs(x: real): (r: real)
    ensures 0.0 <= r && (r == x || r == -x)
  {
    if x < 0.0 then -x else x
  }

  function Max(a: int, b: int): int
  {
    if a < b then b else a
  }

  function MaxReal(a: real, b: real): real
  {
    if a < b then b else a
  }

  function MinReal(a: real, b: real): real
  {
    if a < b then a else b
  }

  /** 2^k as a real. */
  function Pow2(k: nat): (r: real)
    ensures 1.0 <= r
  {
    if k == 0 then 1.0 else 2.0 * Pow2(k - 1)
  }

  lemma ConstantsInRange()
    ensures 0.0 < EPS < 1.0
    ensures 10.0 < MAXV
  {
  }
}
