/** Facts about nested integer division that the fixed-point proofs share. */
module Floors {

  lemma DivBounds(x: int, d: int)
    requires d > 0
    ensures (x / d) * d <= x < (x / d) * d + d
  {
  }

  lemma MulMono(a: int, b: int, d: int)
    requires a <= b && d >= 0
    ensures a * d <= b * d
  {
  }

  /** A positive factor keeps and reflects the order. */
  lemma MulOrder(a: int, b: int, d: int)
    requires d > 0
    ensures a <= b <==> a * d <= b * d
  {
    if a <= b {
      MulMono(a, b, d);
    } else {
      MulMono(b + 1, a, d);
    }
  }

  /** The quotient is the only integer whose multiples of `d` enclose `x`. */
  lemma FloorUnique(x: int, d: int, q: int)
    requires d > 0
    requires q * d <= x < q * d + d
    ensures x / d == q
  {
    DivBounds(x, d);
    MulOrder(x / d + 1, q, d);
    MulOrder(q + 1, x / d, d);
  }

  lemma ExactDiv(q: int, d: int)
    requires d > 0
    ensures q * d / d == q
  {
    FloorUnique(q * d, d, q);
  }

  lemma DivMono(x: int, y: int, d: int)
    requires d > 0 && x <= y
    ensures x / d <= y / d
  {
    DivBounds(x, d);
    DivBounds(y, d);
    MulOrder(y / d + 1, x / d, d);
  }

  /** Dividing twice rounds no more than dividing once by the product. */
  lemma NestedFloor(x: int, a: int, b: int)
    requires a > 0 && b > 0
    ensures a * b > 0 && x / a / b == x / (a * b)
  {
    var q := x / a / b;
    DivBounds(x, a);
    DivBounds(x / a, b);
    assert q * b * a <= x / a * a by { MulMono(q * b, x / a, a); }
    assert (x / a + 1) * a <= (q * b + b) * a by { MulMono(x / a + 1, q * b + b, a); }
    assert q * b * a == q * (a * b) && (q * b + b) * a == q * (a * b) + a * b;
    FloorUnique(x, a * b, q);
  }

  /** A common factor cancels inside a floor. */
  lemma CancelFactor(x: int, d: int, k: int)
    requires d > 0 && k > 0
    ensures d * k > 0 && x * k / (d * k) == x / d
  {
    NestedFloor(x * k, k, d);
    ExactDiv(x, k);
    assert k * d == d * k;
  }
}
