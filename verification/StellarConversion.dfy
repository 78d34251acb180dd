/**
 * Converting between chain balances (12 decimals) and Stellar stroops (7 decimals), and
 * rounding a balance to one that converts without loss.
 */
module StellarConversion {
  import opened Wrappers
  import opened FixedPoint
  import Floors

  /** 10^(12 - 7). */
  const CONVERSION_RATE: nat := 100_000

  type Stroops = x: int | I64_MIN <= x <= I64_MAX witness 0

  function SaturatingU128(x: int): Balance {
    if x < 0 then 0 else if x > U128_MAX then U128_MAX else x
  }

  /** `BalanceConversion::lookup`. */
  function ToStroops(balance: Balance): Option<Stroops> {
    var stroops := balance / CONVERSION_RATE;
    if stroops > I64_MAX then None else Some(stroops)
  }

  /** `BalanceConversion::unlookup`: a negative stroop amount counts as zero. */
  function FromStroops(stroops: Stroops): Balance {
    var value := if stroops < 0 then 0 else stroops;
    SaturatingU128(value * CONVERSION_RATE)
  }

  predicate IsCompatible(balance: Balance) {
    balance % CONVERSION_RATE == 0
  }

  // ---------- FixedU128 rounding, with its saturating additions

  function Trunc(x: Balance): Balance {
    x / ACCURACY * ACCURACY
  }

  function Frac(x: Balance): Balance {
    x - Trunc(x)
  }

  function Ceil(x: Balance): Balance {
    if Frac(x) == 0 then x else Trunc(SaturatingU128(x + ACCURACY))
  }

  function Round(x: Balance): Balance {
    if SaturatingU128(Frac(x) * 10) < 5 * ACCURACY then Trunc(x) else Ceil(x)
  }

  /** `round_to_compatible_with_target`, including its final check. */
  function RoundToCompatible(amount: Balance): Option<Balance> {
    var scaled :- DivU(amount, CONVERSION_RATE);
    var rounded :- MulU(Round(scaled), CONVERSION_RATE);
    if IsCompatible(rounded) then Some(rounded) else None
  }

  /** What the rounding is for: the nearest multiple of the conversion rate, ties going up. */
  function NearestCompatible(amount: int): int {
    (amount + CONVERSION_RATE / 2) / CONVERSION_RATE * CONVERSION_RATE
  }

  /** 10^18 / 10^5. */
  const SCALE: nat := 10_000_000_000_000

  lemma ScaledUp(amount: Balance)
    ensures amount * ACCURACY / CONVERSION_RATE == amount * SCALE
  {
    assert amount * ACCURACY == amount * SCALE * CONVERSION_RATE;
    Floors.ExactDiv(amount * SCALE, CONVERSION_RATE);
  }

  /** Fixed-point rounding of a scaled amount, saturating at the top of the range, never loses the carry. */
  lemma RoundScaled(amount: Balance)
    requires amount * SCALE <= U128_MAX
    ensures Round(amount * SCALE) == (amount + CONVERSION_RATE / 2) / CONVERSION_RATE * ACCURACY
  {
    var q, f := amount / CONVERSION_RATE, amount % CONVERSION_RATE;
    assert amount == q * CONVERSION_RATE + f;
    assert amount * SCALE == q * ACCURACY + f * SCALE;
    Floors.FloorUnique(amount * SCALE, ACCURACY, q);
    assert Frac(amount * SCALE) == f * SCALE;
    if f < CONVERSION_RATE / 2 {
      Floors.FloorUnique(amount + CONVERSION_RATE / 2, CONVERSION_RATE, q);
    } else {
      Floors.FloorUnique(amount + CONVERSION_RATE / 2, CONVERSION_RATE, q + 1);
      CarrySurvives(amount * SCALE, q);
    }
  }

  /** Saturating at the largest 128-bit value still truncates to the next whole number. */
  lemma CarrySurvives(x: Balance, q: int)
    requires q * ACCURACY + ACCURACY / 2 <= x < q * ACCURACY + ACCURACY
    ensures Trunc(SaturatingU128(x + ACCURACY)) == (q + 1) * ACCURACY
  {
    Floors.FloorUnique(SaturatingU128(x + ACCURACY), ACCURACY, q + 1);
  }

  /**
   * Rounding succeeds exactly when the amount times 10^13 fits, its final compatibility
   * check never fails, and the result is the nearest compatible amount.
   */
  lemma RoundIsNearest(amount: Balance)
    ensures RoundToCompatible(amount).Some? <==> amount * SCALE <= U128_MAX
    ensures amount * SCALE <= U128_MAX ==> RoundToCompatible(amount).value == NearestCompatible(amount)
  {
    ScaledUp(amount);
    if amount * SCALE <= U128_MAX {
      RoundScaled(amount);
      var k := (amount + CONVERSION_RATE / 2) / CONVERSION_RATE;
      assert k * ACCURACY * CONVERSION_RATE == k * CONVERSION_RATE * ACCURACY;
      Floors.ExactDiv(k * CONVERSION_RATE, ACCURACY);
      Floors.DivBounds(amount + CONVERSION_RATE / 2, CONVERSION_RATE);
    }
  }

  /** Rounding is monotone, moves an amount by at most half a stroop, and fixes exactly the compatible amounts. */
  lemma NearestLaws(a: nat, b: nat)
    ensures a <= b ==> NearestCompatible(a) <= NearestCompatible(b)
    ensures a - CONVERSION_RATE / 2 < NearestCompatible(a) <= a + CONVERSION_RATE / 2
    ensures NearestCompatible(a) == a <==> a % CONVERSION_RATE == 0
    ensures NearestCompatible(NearestCompatible(a)) == NearestCompatible(a)
  {
  }

  /** If an amount can be rounded, so can every smaller one, in order. */
  lemma RoundMonotone(a: Balance, b: Balance)
    requires a <= b && RoundToCompatible(b).Some?
    ensures RoundToCompatible(a).Some? && RoundToCompatible(a).value <= RoundToCompatible(b).value
  {
    RoundIsNearest(a);
    RoundIsNearest(b);
    NearestLaws(a, b);
  }

  /** The rounded amount can itself be rounded, even at the top of the range, and is then left alone. */
  lemma RoundIdempotent(a: Balance)
    requires RoundToCompatible(a).Some?
    ensures IsCompatible(RoundToCompatible(a).value)
    ensures RoundToCompatible(RoundToCompatible(a).value) == RoundToCompatible(a)
    ensures IsCompatible(a) ==> RoundToCompatible(a) == Some(a)
  {
    RoundIsNearest(a);
    NearestLaws(a, a);
    RoundIsNearest(RoundToCompatible(a).value);
  }

  /** `lookup` then `unlookup` restores exactly the compatible amounts, and otherwise drops the odd part. */
  lemma LookupRoundTrip(balance: Balance)
    ensures ToStroops(balance).Some? <==> balance < (I64_MAX + 1) * CONVERSION_RATE
    ensures ToStroops(balance).Some? ==>
              && FromStroops(ToStroops(balance).value) == balance - balance % CONVERSION_RATE
              && (FromStroops(ToStroops(balance).value) == balance <==> IsCompatible(balance))
  {
  }

  /** `unlookup` then `lookup` restores every non-negative stroop amount. */
  lemma UnlookupRoundTrip(stroops: Stroops)
    ensures IsCompatible(FromStroops(stroops))
    ensures ToStroops(FromStroops(stroops)) == Some(if stroops < 0 then 0 else stroops)
  {
  }
}
