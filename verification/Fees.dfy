/** The issue fee: its bounded rate, its rounding, and how it splits a request. */
module Fees {
  import opened Wrappers
  import opened FixedPoint
  import opened Amounts
  import Floors
  import Stellar = StellarConversion

  datatype FeeError = AmountError(error: Amounts.Error) | IncompatibleAmount | CompatibleRoundingFailed

  /** `get_issue_fee`. */
  function IssueFee(amount: Amount, rate: Balance): Result<Amount, Amounts.Error> {
    amount.RoundedMul(rate)
  }

  /** Neither the fixed-point form of `x`, nor the product before it is rounded, exceeds 128 bits. */
  predicate FeeFits(x: int, rate: Balance) {
    x * ACCURACY <= U128_MAX && x * rate + HALF <= U128_MAX
  }

  /** The fee as arithmetic: the nearest integer to the product, ties going up. */
  function FeeOf(x: int, rate: Balance): int {
    (x * rate + HALF) / ACCURACY
  }

  lemma IssueFeeIff(x: Amount, rate: Balance)
    ensures IssueFee(x, rate).Ok? <==> FeeFits(x.amount, rate)
    ensures IssueFee(x, rate).Ok? ==> IssueFee(x, rate).value == Amount(IssueFee(x, rate).value.amount, x.currency)
    ensures IssueFee(x, rate).Ok? ==> IssueFee(x, rate).value.amount == FeeOf(x.amount, rate)
  {
    RoundedMulIsNearest(x, rate);
    if IssueFee(x, rate).Ok? {
      Floors.FloorUnique(x.amount * rate + HALF, ACCURACY, IssueFee(x, rate).value.amount);
    }
  }

  datatype Split = Split(user: Amount, fee: Amount)

  /**
   * The fee part of `_request_issue`: the amount must be compatible with Stellar, the fee
   * is rounded to a compatible amount and taken off what the user receives.
   */
  function SplitRequest(requested: Amount, rate: Balance): Result<Split, FeeError> {
    var _ :- Need(Stellar.IsCompatible(requested.amount), IncompatibleAmount);
    match IssueFee(requested, rate)
    case Err(e) => Err(AmountError(e))
    case Ok(fee) =>
      var rounded :- Stellar.RoundToCompatible(fee.amount).OkOr(CompatibleRoundingFailed);
      match requested.CheckedSub(Amount(rounded, fee.currency))
      case Err(e) => Err(AmountError(e))
      case Ok(user) => Ok(Split(user, Amount(rounded, fee.currency)))
  }

  /** At a rate of at most one the fee is at most the amount. */
  lemma FeeWithinAmount(x: Amount, rate: Balance)
    requires rate <= ACCURACY && IssueFee(x, rate).Ok?
    ensures IssueFee(x, rate).value.amount <= x.amount
    ensures x.CheckedSub(IssueFee(x, rate).value).Ok?
  {
    RoundedMulIsNearest(x, rate);
    var fee := IssueFee(x, rate).value.amount;
    assert x.amount * rate <= x.amount * ACCURACY by { Floors.MulMono(rate, ACCURACY, x.amount); }
    Floors.MulOrder(x.amount + 1, fee, ACCURACY);
  }

  /** Below a compatible amount, rounding a fee succeeds and stays below it. */
  lemma RoundedFeeWithin(fee: Balance, amount: Balance)
    requires fee <= amount && Stellar.IsCompatible(amount) && amount * ACCURACY <= U128_MAX
    ensures var r := Stellar.RoundToCompatible(fee);
            && r.Some? && r.value == Stellar.NearestCompatible(fee) <= amount
            && Stellar.IsCompatible(r.value) && Stellar.IsCompatible(amount - r.value)
            && -(Stellar.CONVERSION_RATE / 2) <= r.value - fee <= Stellar.CONVERSION_RATE / 2
  {
    Stellar.RoundIsNearest(fee);
    Stellar.NearestLaws(fee, amount);
  }

  /**
   * The fee split is always payable: at a rate of at most one it fails only where the
   * amount is incompatible or a fixed-point operation overflows, never by underflow, and
   * the two parts are Stellar amounts that add up to the request.
   */
  lemma SplitIsExact(x: Amount, rate: Balance)
    requires rate <= ACCURACY
    ensures SplitRequest(x, rate).Ok? <==>
              && Stellar.IsCompatible(x.amount)
              && x.amount * ACCURACY <= U128_MAX && x.amount * rate + HALF <= U128_MAX
    ensures SplitRequest(x, rate).Ok? ==>
              var s := SplitRequest(x, rate).value;
              && s.user.currency == s.fee.currency == x.currency
              && s.fee.amount == Stellar.NearestCompatible(FeeOf(x.amount, rate))
              && s.user.amount + s.fee.amount == x.amount
              && Stellar.IsCompatible(s.user.amount) && Stellar.IsCompatible(s.fee.amount)
              && var shift := s.fee.amount - IssueFee(x, rate).value.amount;
              -(Stellar.CONVERSION_RATE / 2) <= shift <= Stellar.CONVERSION_RATE / 2
  {
    IssueFeeIff(x, rate);
    if IssueFee(x, rate).Ok? && Stellar.IsCompatible(x.amount) {
      FeeWithinAmount(x, rate);
      RoundedFeeWithin(IssueFee(x, rate).value.amount, x.amount);
    }
  }
}
