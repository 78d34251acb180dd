/**
 * `currency::Amount` arithmetic: the four ways the bridge scales an amount by a
 * `FixedU128`, and how their roundings relate.
 */
module Amounts {
  import opened Wrappers
  import opened FixedPoint
  import Currencies
  import Floors

  type CurrencyId = Currencies.CurrencyId

  datatype Error = InvalidCurrency | TryIntoIntError | Overflow | Underflow

  datatype Amount = Amount(amount: Balance, currency: CurrencyId) {

    function CheckedSub(other: Amount): Result<Amount, Error> {
      var _ :- Need(currency == other.currency, InvalidCurrency);
      var difference :- CheckU128(amount - other.amount).OkOr(Underflow);
      Ok(Amount(difference, currency))
    }

    /** `checked_mul_int`: one wide product, one division by the accuracy. */
    function FixedPointMul(scalar: Balance): Result<Amount, Error> {
      var scaled :- CheckU128(scalar * amount / ACCURACY).OkOr(Underflow);
      Ok(Amount(scaled, currency))
    }

    function FixedPointMulRoundedUp(scalar: Balance): Result<Amount, Error> {
      var self :- FromIntegerU(amount).OkOr(TryIntoIntError);
      var product :- MulU(self, scalar).OkOr(Overflow);
      var shifted :- CheckU128(product + ACCURACY).OkOr(Overflow);
      var less :- CheckU128(shifted - 1).OkOr(Underflow);
      Ok(Amount(less / ACCURACY, currency))
    }

    function RoundedMul(fraction: Balance): Result<Amount, Error> {
      var self :- FromIntegerU(amount).OkOr(Overflow);
      var product :- MulU(self, fraction).OkOr(Overflow);
      var shifted :- CheckU128(product + HALF).OkOr(Overflow);
      Ok(Amount(shifted / ACCURACY, currency))
    }

    function CheckedDiv(scalar: Balance): Result<Amount, Error> {
      var self :- FromIntegerU(amount).OkOr(TryIntoIntError);
      var quotient :- DivU(self, scalar).OkOr(Overflow);
      Ok(Amount(quotient / ACCURACY, currency))
    }
  }

  /** `checked_from_rational(1, 2)`. */
  const HALF: Balance := 500_000_000_000_000_000

  /** Scaling a whole amount is exact before the final division. */
  lemma ScaledProduct(a: Balance, s: Balance)
    requires FromIntegerU(a).Some?
    ensures FromIntegerU(a).value * s / ACCURACY == a * s
  {
    assert a * ACCURACY * s == a * s * ACCURACY;
    Floors.ExactDiv(a * s, ACCURACY);
  }

  /** `rounded_mul` is the nearest integer to the exact product, ties going up; it fails only by overflow. */
  lemma RoundedMulIsNearest(x: Amount, s: Balance)
    ensures x.RoundedMul(s).Ok? <==> x.amount * ACCURACY <= U128_MAX && x.amount * s + HALF <= U128_MAX
    ensures x.RoundedMul(s).Ok? ==>
              var r := x.RoundedMul(s).value.amount;
              && x.RoundedMul(s).value.currency == x.currency
              && r * ACCURACY - HALF <= x.amount * s < r * ACCURACY + HALF
  {
    assert x.amount * s >= 0 by { Floors.MulMono(0, x.amount, s); }
    if FromIntegerU(x.amount).Some? {
      ScaledProduct(x.amount, s);
      Floors.DivBounds(x.amount * s + HALF, ACCURACY);
    }
  }

  /** The rounded-up form is the exact ceiling of the product; it fails only by overflow. */
  lemma RoundedUpIsCeiling(x: Amount, s: Balance)
    ensures x.FixedPointMulRoundedUp(s).Ok? <==>
              x.amount * ACCURACY <= U128_MAX && x.amount * s + ACCURACY <= U128_MAX
    ensures x.FixedPointMulRoundedUp(s).Ok? ==>
              var r := x.FixedPointMulRoundedUp(s).value.amount;
              && x.FixedPointMulRoundedUp(s).value.currency == x.currency
              && r * ACCURACY - ACCURACY < x.amount * s <= r * ACCURACY
  {
    assert x.amount * s >= 0 by { Floors.MulMono(0, x.amount, s); }
    if FromIntegerU(x.amount).Some? {
      ScaledProduct(x.amount, s);
      Floors.DivBounds(x.amount * s + ACCURACY - 1, ACCURACY);
    }
  }

  /** The integer product is the exact floor; it fails only if that does not fit. */
  lemma FixedPointMulIsFloor(x: Amount, s: Balance)
    ensures x.FixedPointMul(s).Ok? <==> x.amount * s / ACCURACY <= U128_MAX
    ensures x.FixedPointMul(s).Ok? ==>
              var r := x.FixedPointMul(s).value.amount;
              && x.FixedPointMul(s).value.currency == x.currency
              && r * ACCURACY <= x.amount * s < r * ACCURACY + ACCURACY
  {
    assert x.amount * s == s * x.amount >= 0 by { Floors.MulMono(0, x.amount, s); }
    Floors.DivMono(0, x.amount * s, ACCURACY);
    Floors.DivBounds(x.amount * s, ACCURACY);
  }

  /** Subtraction is within one currency and never below zero. */
  lemma CheckedSubIff(x: Amount, y: Amount)
    ensures x.CheckedSub(y).Ok? <==> x.currency == y.currency && y.amount <= x.amount
    ensures x.CheckedSub(y).Ok? ==>
              x.CheckedSub(y).value.amount + y.amount == x.amount && x.CheckedSub(y).value.currency == x.currency
    ensures x.currency != y.currency ==> x.CheckedSub(y) == Err(InvalidCurrency)
  {
  }

  /** `checked_div` rounds twice, yet its result is the single floor of the exact quotient. */
  lemma CheckedDivIsSingleFloor(x: Amount, s: Balance)
    ensures x.CheckedDiv(s).Ok? ==>
              && s > 0
              && x.CheckedDiv(s).value.amount == x.amount * ACCURACY / s
              && x.CheckedDiv(s).value.currency == x.currency
    ensures x.CheckedDiv(s).Ok? <==>
              s > 0 && x.amount * ACCURACY <= U128_MAX && x.amount * ACCURACY * ACCURACY / s <= U128_MAX
  {
    if s > 0 {
      var wide := x.amount * ACCURACY * ACCURACY;
      Floors.DivMono(0, wide, s);
      Floors.NestedFloor(wide, s, ACCURACY);
      Floors.CancelFactor(x.amount * ACCURACY, s, ACCURACY);
    }
  }

  /**
   * The scalings are ordered: floor, nearest, ceiling, floor plus one. When the two fee
   * forms succeed the floor succeeds too.
   */
  lemma ScalingsOrdered(x: Amount, s: Balance)
    requires x.RoundedMul(s).Ok? && x.FixedPointMulRoundedUp(s).Ok?
    ensures x.FixedPointMul(s).Ok?
    ensures var down := x.FixedPointMul(s).value.amount;
            var near := x.RoundedMul(s).value.amount;
            var up := x.FixedPointMulRoundedUp(s).value.amount;
            && down <= near <= up <= down + 1
            && (down == up <==> x.amount * s % ACCURACY == 0)
  {
    RoundedMulIsNearest(x, s);
    RoundedUpIsCeiling(x, s);
    assert x.amount * s == s * x.amount >= 0 by { Floors.MulMono(0, x.amount, s); }
    Floors.DivBounds(x.amount * s, ACCURACY);
  }

  /** Dividing by a scalar and multiplying back by it never gains. */
  lemma DivThenMulNeverGains(x: Amount, s: Balance)
    requires x.CheckedDiv(s).Ok? && x.CheckedDiv(s).value.FixedPointMul(s).Ok?
    ensures x.CheckedDiv(s).value.FixedPointMul(s).value.amount <= x.amount
  {
    CheckedDivIsSingleFloor(x, s);
    var q := x.CheckedDiv(s).value;
    FixedPointMulIsFloor(q, s);
    Floors.DivBounds(x.amount * ACCURACY, s);
    Floors.MulOrder(q.FixedPointMul(s).value.amount, x.amount, ACCURACY);
  }
}
