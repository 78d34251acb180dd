/** Price conversion: nested fixed-point roundings, bounded against the exact rational. */
module Oracle {
  import opened Wrappers
  import opened FixedPoint
  import Currencies
  import Floors

  datatype Error = ParachainNotRunning | MissingExchangeRate | Overflow | Underflow | TryIntoIntError

  function Pow10(n: nat): nat {
    if n == 0 then 1 else 10 * Pow10(n - 1)
  }

  lemma {:induction false} Pow10Add(a: nat, b: nat)
    ensures Pow10(a + b) == Pow10(a) * Pow10(b) > 0
  {
    if a > 0 {
      Pow10Add(a - 1, b);
      assert 10 * Pow10(a - 1) * Pow10(b) == 10 * (Pow10(a - 1) * Pow10(b));
    } else {
      Pow10Positive(b);
    }
  }

  lemma {:induction false} Pow10Positive(n: nat)
    ensures Pow10(n) > 0
  {
    if n > 0 { Pow10Positive(n - 1); }
  }

  /** 10^n as a fixed-point number; the power itself must fit in 128 bits. */
  function PowerOfTen(n: nat): Result<Balance, Error> {
    var power :- CheckU128(Pow10(n)).OkOr(Overflow);
    FromIntegerU(power).OkOr(TryIntoIntError)
  }

  /** `convert_amount`, with the prices as inner values. */
  function ConvertAmount(amount: Balance, fromPrice: Balance, toPrice: Balance, fromDecimals: nat, toDecimals: nat)
    : Result<Balance, Error>
  {
    if amount == 0 then Ok(0)
    else
      var value :- MulU(fromPrice, amount).OkOr(Overflow);
      if fromDecimals > toDecimals then
        var quotient :- DivU(value, toPrice).OkOr(Underflow);
        var power :- PowerOfTen(fromDecimals - toDecimals);
        DivU(quotient, power).OkOr(Underflow)
      else
        var power :- PowerOfTen(toDecimals - fromDecimals);
        var scaled :- MulU(value, power).OkOr(Overflow);
        DivU(scaled, toPrice).OkOr(Underflow)
  }

  /**
   * The result of a chain of floors, as one floor: with v the floored value of the amount,
   * the result is v * 10^18 * 10^up / (toPrice * 10^down), where one of up, down is zero.
   */
  lemma ConvertIsOneFloor(a: Balance, p: Balance, q: Balance, from: nat, to: nat)
    requires a > 0 && ConvertAmount(a, p, q, from, to).Ok?
    ensures q > 0
    ensures var v := p * a / ACCURACY;
            var r := ConvertAmount(a, p, q, from, to).value;
            if from > to then
              Pow10(from - to) > 0 && q * Pow10(from - to) > 0 && r == v * ACCURACY / (q * Pow10(from - to))
            else r == v * Pow10(to - from) * ACCURACY / q
  {
    var v := p * a / ACCURACY;
    if from > to {
      var d := Pow10(from - to);
      Pow10Positive(from - to);
      Floors.CancelFactor(v * ACCURACY / q, d, ACCURACY);
      Floors.NestedFloor(v * ACCURACY, q, d);
    } else {
      var m := Pow10(to - from);
      assert v * (m * ACCURACY) == v * m * ACCURACY;
      Floors.ExactDiv(v * m, ACCURACY);
    }
  }

  /**
   * A conversion succeeds if and only if the amount is zero, or the target has a price and
   * each product and quotient on the way fits 128 bits: the value, then the quotient or the
   * scaled value, 10^18 times the power of ten, and the result.
   */
  predicate Convertible(a: Balance, p: Balance, q: Balance, from: nat, to: nat) {
    a == 0 ||
    var v := p * a / ACCURACY;
    && q > 0 && v <= U128_MAX
    && if from > to then v * ACCURACY / q <= U128_MAX && Pow10(from - to) * ACCURACY <= U128_MAX
       else
         && Pow10(to - from) * ACCURACY <= U128_MAX && v * Pow10(to - from) <= U128_MAX
         && v * Pow10(to - from) * ACCURACY / q <= U128_MAX
  }

  lemma ConvertIff(a: Balance, p: Balance, q: Balance, from: nat, to: nat)
    ensures ConvertAmount(a, p, q, from, to).Ok? <==> Convertible(a, p, q, from, to)
    ensures ConvertAmount(0, p, q, from, to) == Ok(0)
  {
    var v := p * a / ACCURACY;
    assert p * a >= 0 by { Floors.MulMono(0, p, a); }
    Floors.DivMono(0, p * a, ACCURACY);
    if a > 0 && q > 0 && v <= U128_MAX {
      if from > to {
        DownIff(v, q, Pow10(from - to));
        Pow10Positive(from - to);
      } else {
        UpIff(v, q, Pow10(to - from));
        Pow10Positive(to - from);
      }
    }
  }

  /** The two roundings of a conversion to fewer decimals; the second cannot fail. */
  lemma DownIff(v: Balance, q: Balance, d: nat)
    requires q > 0
    ensures DivU(v, q).Some? <==> v * ACCURACY / q <= U128_MAX
    ensures d > 0 && d * ACCURACY <= U128_MAX && DivU(v, q).Some? ==> DivU(DivU(v, q).value, d * ACCURACY).Some?
  {
    Floors.DivMono(0, v * ACCURACY, q);
    if d > 0 && d * ACCURACY <= U128_MAX && DivU(v, q).Some? {
      var x := DivU(v, q).value;
      Floors.CancelFactor(x, d, ACCURACY);
      Floors.DivBounds(x, d);
      Floors.DivMono(0, x, d);
      Floors.MulMono(1, d, x / d);
    }
  }

  lemma UpIff(v: Balance, q: Balance, m: nat)
    requires q > 0
    ensures m * ACCURACY <= U128_MAX ==> (MulU(v, m * ACCURACY).Some? <==> v * m <= U128_MAX)
    ensures m * ACCURACY <= U128_MAX && v * m <= U128_MAX ==>
              && MulU(v, m * ACCURACY) == Some(v * m)
              && (DivU(v * m, q).Some? <==> v * m * ACCURACY / q <= U128_MAX)
  {
    assert v * m >= 0 by { Floors.MulMono(0, v, m); }
    assert v * (m * ACCURACY) == v * m * ACCURACY;
    Floors.ExactDiv(v * m, ACCURACY);
    Floors.DivMono(0, v * m * ACCURACY, q);
  }

  /** From x <= y < x + e to the same bounds scaled by t. */
  lemma ScaleBounds(x: int, y: int, e: int, t: int)
    requires x <= y < x + e && t > 0
    ensures x * t <= y * t < x * t + e * t
  {
    Floors.MulMono(x, y, t);
    Floors.MulMono(y + 1, x + e, t);
  }

  /** The bounds of the conversion when the target has fewer decimals: f = d * t. */
  lemma BoundDown(v: int, pa: int, r: int, q: int, d: int, t: int, f: int)
    requires q > 0 && d > 0 && t > 0 && f == d * t && q * d > 0
    requires v == pa / ACCURACY && r == v * ACCURACY / (q * d)
    ensures r * q * f <= pa * t < (r + 1) * q * f + ACCURACY * t
  {
    Floors.DivBounds(pa, ACCURACY);
    Floors.DivBounds(v * ACCURACY, q * d);
    ScaleBounds(r * (q * d), pa, q * d + ACCURACY, t);
    Regroup(r, q, d, t, f);
    Regroup(1, q, d, t, f);
    assert (q * d + ACCURACY) * t == q * d * t + ACCURACY * t;
    OneMore(r, q, f);
  }

  /** The bounds of the conversion when the target has no fewer decimals: t = m * f. */
  lemma BoundUp(v: int, pa: int, r: int, q: int, m: int, t: int, f: int)
    requires m > 0 && q > 0 && f > 0 && t == m * f
    requires v == pa / ACCURACY && r == v * m * ACCURACY / q
    ensures r * q * f <= pa * t < (r + 1) * q * f + ACCURACY * t
  {
    Floors.DivBounds(pa, ACCURACY);
    Floors.DivBounds(v * m * ACCURACY, q);
    ScaleBounds(v * ACCURACY, pa, ACCURACY, m);
    assert v * ACCURACY * m == v * m * ACCURACY;
    ScaleBounds(r * q, pa * m, q + ACCURACY * m, f);
    Regroup(1, pa, m, f, t);
    Regroup(1, ACCURACY, m, f, t);
    assert (q + ACCURACY * m) * f == q * f + ACCURACY * m * f;
    OneMore(r, q, f);
  }

  lemma OneMore(r: int, q: int, f: int)
    ensures (r + 1) * q * f == r * q * f + q * f
  {
  }

  lemma Regroup(r: int, q: int, d: int, t: int, f: int)
    requires f == d * t
    ensures r * (q * d) * t == r * q * f
  {
    assert r * (q * d) * t == r * q * (d * t);
  }

  lemma ConvertBoundDown(v: int, pa: int, r: int, q: int, from: nat, to: nat)
    requires q > 0 && from > to && Pow10(from - to) > 0 && q * Pow10(from - to) > 0
    requires v == pa / ACCURACY && r == v * ACCURACY / (q * Pow10(from - to))
    ensures r * q * Pow10(from) <= pa * Pow10(to) < (r + 1) * q * Pow10(from) + ACCURACY * Pow10(to)
  {
    Pow10Positive(to);
    Pow10Add(from - to, to);
    BoundDown(v, pa, r, q, Pow10(from - to), Pow10(to), Pow10(from));
  }

  lemma ConvertBoundUp(v: int, pa: int, r: int, q: int, from: nat, to: nat)
    requires q > 0 && from <= to
    requires v == pa / ACCURACY && r == v * Pow10(to - from) * ACCURACY / q
    ensures r * q * Pow10(from) <= pa * Pow10(to) < (r + 1) * q * Pow10(from) + ACCURACY * Pow10(to)
  {
    Pow10Positive(from);
    Pow10Positive(to - from);
    Pow10Add(to - from, from);
    BoundUp(v, pa, r, q, Pow10(to - from), Pow10(to), Pow10(from));
  }

  /**
   * A result that does not exceed the exact rational p * a * 10^to / (q * 10^from), and
   * falls short of it by less than 1 + 10^18 * 10^(to - from) / q. Both are stated
   * multiplied out by q * 10^from.
   */
  predicate Priced(a: Balance, p: Balance, q: Balance, from: nat, to: nat, r: Balance) {
    && r * q * Pow10(from) <= p * a * Pow10(to)
    && (a > 0 ==> p * a * Pow10(to) < (r + 1) * q * Pow10(from) + ACCURACY * Pow10(to))
  }

  /** Every conversion is within the rounding of two divisions of the exact value. */
  lemma ConvertBound(a: Balance, p: Balance, q: Balance, from: nat, to: nat, r: Balance)
    requires ConvertAmount(a, p, q, from, to) == Ok(r)
    ensures Priced(a, p, q, from, to, r)
  {
    if a > 0 {
      ConvertIsOneFloor(a, p, q, from, to);
      if from > to {
        ConvertBoundDown(p * a / ACCURACY, p * a, r, q, from, to);
      } else {
        ConvertBoundUp(p * a / ACCURACY, p * a, r, q, from, to);
      }
    }
  }

  lemma NoGain(a: int, there: int, back: int, p: int, q: int, f: int, t: int)
    requires p > 0 && t > 0
    requires there * q * f <= p * a * t && back * p * t <= q * there * f
    ensures back <= a
  {
    assert q * there == there * q;
    assert p * t > 0 && back * p * t == back * (p * t) && p * a * t == a * (p * t);
    Floors.MulOrder(back, a, p * t);
  }

  /** Converting there and back never returns more than the start. */
  lemma ThereAndBack(a: Balance, p: Balance, q: Balance, from: nat, to: nat)
    requires ConvertAmount(a, p, q, from, to).Ok?
    requires ConvertAmount(ConvertAmount(a, p, q, from, to).value, q, p, to, from).Ok?
    ensures ConvertAmount(ConvertAmount(a, p, q, from, to).value, q, p, to, from).value <= a
  {
    var there := ConvertAmount(a, p, q, from, to).value;
    var back := ConvertAmount(there, q, p, to, from).value;
    if there > 0 {
      ConvertBound(a, p, q, from, to, there);
      ConvertBound(there, q, p, to, from, back);
      ConvertIsOneFloor(there, q, p, to, from);
      Pow10Positive(to);
      NoGain(a, there, back, p, q, Pow10(from), Pow10(to));
    }
  }

  /** A larger amount never converts to less. */
  lemma ConvertMonotone(a: Balance, b: Balance, p: Balance, q: Balance, from: nat, to: nat)
    requires a <= b && ConvertAmount(a, p, q, from, to).Ok? && ConvertAmount(b, p, q, from, to).Ok?
    ensures ConvertAmount(a, p, q, from, to).value <= ConvertAmount(b, p, q, from, to).value
  {
    if a > 0 {
      ConvertIsOneFloor(a, p, q, from, to);
      ConvertIsOneFloor(b, p, q, from, to);
      Floors.MulMono(a, b, p);
      assert p * a == a * p && p * b == b * p;
      Floors.DivMono(p * a, p * b, ACCURACY);
      var v, w := p * a / ACCURACY, p * b / ACCURACY;
      if from > to {
        Floors.DivMono(v * ACCURACY, w * ACCURACY, q * Pow10(from - to));
      } else {
        Floors.MulMono(v, w, Pow10(to - from));
        Floors.DivMono(v * Pow10(to - from) * ACCURACY, w * Pow10(to - from) * ACCURACY, q);
      }
    }
  }

  // ---------- Conversions by currency

  type CurrencyId = Currencies.CurrencyId

  /** The prices of the data provider and the decimals lookup, where a price may be missing. */
  datatype Feed = Feed(running: bool, prices: map<CurrencyId, Balance>, decimals: CurrencyId -> nat) {

    function GetPrice(c: CurrencyId): Result<Balance, Error> {
      if !running then Err(ParachainNotRunning)
      else if c in prices then Ok(prices[c])
      else Err(MissingExchangeRate)
    }

    /** `convert`: an amount in the target currency already is returned as it is, whatever the prices. */
    function Convert(amount: Balance, from: CurrencyId, to: CurrencyId): Result<Balance, Error> {
      if from == to then Ok(amount)
      else
        var fromPrice :- GetPrice(from);
        var toPrice :- GetPrice(to);
        ConvertAmount(amount, fromPrice, toPrice, decimals(from), decimals(to))
    }

    function ToUsd(amount: Balance, c: CurrencyId): Result<Balance, Error> {
      var price :- GetPrice(c);
      ConvertAmount(amount, price, ACCURACY, decimals(c), USD_DECIMALS)
    }

    function FromUsd(amount: Balance, c: CurrencyId): Result<Balance, Error> {
      var price :- GetPrice(c);
      ConvertAmount(amount, ACCURACY, price, USD_DECIMALS, decimals(c))
    }
  }

  const USD_DECIMALS: nat := 12

  /** A conversion to the same currency is the amount itself, whatever the feed. */
  lemma SameCurrencyIsFree(f: Feed, a: Balance, c: CurrencyId)
    ensures f.Convert(a, c, c) == Ok(a)
  {
  }

  /** Otherwise a conversion needs a running chain, both prices, and every step to fit. */
  lemma FeedIff(f: Feed, a: Balance, c: CurrencyId, d: CurrencyId)
    ensures c != d ==>
              (f.Convert(a, c, d).Ok? <==>
                 && f.running && c in f.prices && d in f.prices
                 && Convertible(a, f.prices[c], f.prices[d], f.decimals(c), f.decimals(d)))
    ensures f.ToUsd(a, c).Ok? <==>
              f.running && c in f.prices && Convertible(a, f.prices[c], ACCURACY, f.decimals(c), USD_DECIMALS)
    ensures f.FromUsd(a, c).Ok? <==>
              f.running && c in f.prices && Convertible(a, ACCURACY, f.prices[c], USD_DECIMALS, f.decimals(c))
  {
    if f.running && c in f.prices {
      ConvertIff(a, f.prices[c], ACCURACY, f.decimals(c), USD_DECIMALS);
      ConvertIff(a, ACCURACY, f.prices[c], USD_DECIMALS, f.decimals(c));
      if d in f.prices {
        ConvertIff(a, f.prices[c], f.prices[d], f.decimals(c), f.decimals(d));
      }
    }
  }

  /** No round trip through another currency, or through dollars, returns more than it started with. */
  lemma NoGainByConverting(f: Feed, a: Balance, c: CurrencyId, d: CurrencyId)
    ensures f.Convert(a, c, d).Ok? && f.Convert(f.Convert(a, c, d).value, d, c).Ok? ==>
              f.Convert(f.Convert(a, c, d).value, d, c).value <= a
    ensures f.ToUsd(a, c).Ok? && f.FromUsd(f.ToUsd(a, c).value, c).Ok? ==>
              f.FromUsd(f.ToUsd(a, c).value, c).value <= a
    ensures f.FromUsd(a, c).Ok? && f.ToUsd(f.FromUsd(a, c).value, c).Ok? ==>
              f.ToUsd(f.FromUsd(a, c).value, c).value <= a
  {
    if c != d && f.Convert(a, c, d).Ok? && f.Convert(f.Convert(a, c, d).value, d, c).Ok? {
      ThereAndBack(a, f.prices[c], f.prices[d], f.decimals(c), f.decimals(d));
    }
    if f.ToUsd(a, c).Ok? && f.FromUsd(f.ToUsd(a, c).value, c).Ok? {
      ThereAndBack(a, f.prices[c], ACCURACY, f.decimals(c), USD_DECIMALS);
    }
    if f.FromUsd(a, c).Ok? && f.ToUsd(f.FromUsd(a, c).value, c).Ok? {
      ThereAndBack(a, ACCURACY, f.prices[c], USD_DECIMALS, f.decimals(c));
    }
  }

  /** Each conversion by currency is at the prices and decimals of that currency, in that direction. */
  lemma ConvertedAtPrice(f: Feed, a: Balance, c: CurrencyId, d: CurrencyId, r: Balance)
    ensures c != d && f.Convert(a, c, d) == Ok(r) ==>
              && f.running && c in f.prices && d in f.prices
              && Priced(a, f.prices[c], f.prices[d], f.decimals(c), f.decimals(d), r)
    ensures f.ToUsd(a, c) == Ok(r) ==>
              f.running && c in f.prices && Priced(a, f.prices[c], ACCURACY, f.decimals(c), USD_DECIMALS, r)
    ensures f.FromUsd(a, c) == Ok(r) ==>
              f.running && c in f.prices && Priced(a, ACCURACY, f.prices[c], USD_DECIMALS, f.decimals(c), r)
  {
    if c != d && f.Convert(a, c, d) == Ok(r) {
      ConvertBound(a, f.prices[c], f.prices[d], f.decimals(c), f.decimals(d), r);
    }
    if f.ToUsd(a, c) == Ok(r) {
      ConvertBound(a, f.prices[c], ACCURACY, f.decimals(c), USD_DECIMALS, r);
    }
    if f.FromUsd(a, c) == Ok(r) {
      ConvertBound(a, ACCURACY, f.prices[c], USD_DECIMALS, f.decimals(c), r);
    }
  }
}
