/**
 * The Substrate fixed-point numbers `FixedU128` and `FixedI128`, by their inner integers.
 * One is the inner value 10^18. Multiplication and division use a wide intermediate,
 * round toward zero, and fail only when the result does not fit or on division by zero.
 */
module FixedPoint {
  import opened Wrappers

  const ACCURACY: nat := 1_000_000_000_000_000_000
  const U128_MAX: nat := 0xFFFF_FFFF_FFFF_FFFF_FFFF_FFFF_FFFF_FFFF
  const I128_MAX: nat := 0x7FFF_FFFF_FFFF_FFFF_FFFF_FFFF_FFFF_FFFF
  const I128_MIN: int := -0x8000_0000_0000_0000_0000_0000_0000_0000
  const I64_MAX: nat := 0x7FFF_FFFF_FFFF_FFFF
  const I64_MIN: int := -0x8000_0000_0000_0000
  const U32_MAX: nat := 0xFFFF_FFFF

  type Balance = x: int | 0 <= x <= U128_MAX witness 0

  predicate FitsU128(x: int) {
    0 <= x <= U128_MAX
  }

  predicate FitsI128(x: int) {
    I128_MIN <= x <= I128_MAX
  }

  function CheckU128(x: int): Option<Balance> {
    if FitsU128(x) then Some(x) else None
  }

  function CheckI128(x: int): Option<int> {
    if FitsI128(x) then Some(x) else None
  }

  /** Integer division rounding toward zero, as Rust's `/` on signed integers. */
  function TruncDiv(a: int, b: int): int
    requires b != 0
  {
    var q := (if a < 0 then -a else a) / (if b < 0 then -b else b);
    if (a < 0) != (b < 0) then -q else q
  }

  // ---------- FixedU128

  function MulU(a: Balance, b: Balance): Option<Balance> {
    CheckU128(a * b / ACCURACY)
  }

  function DivU(a: Balance, b: Balance): Option<Balance> {
    if b == 0 then None else CheckU128(a * ACCURACY / b)
  }

  function FromIntegerU(n: Balance): Option<Balance> {
    CheckU128(n * ACCURACY)
  }

  // ---------- FixedI128

  function MulI(a: int, b: int): Option<int> {
    CheckI128(TruncDiv(a * b, ACCURACY))
  }

  function DivI(a: int, b: int): Option<int> {
    if b == 0 then None else CheckI128(TruncDiv(a * ACCURACY, b))
  }

  function FromIntegerI(n: int): Option<int> {
    CheckI128(n * ACCURACY)
  }
}
