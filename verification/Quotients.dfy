/** Facts about real division that the solver does not find on its own. */
module Quotients {

  lemma QuotientTimes(x: real, d: real)
    requires d != 0.0
    ensures (x / d) * d == x
  {}

  lemma QuotientUnique(q: real, x: real, d: real)
    requires d != 0.0 && q * d == x
    ensures q == x / d
  {}

  /** Growing by the return is the same as taking the price ratio. */
  lemma ReturnIsRatio(price: real, prev: real)
    requires prev != 0.0
    ensures 1.0 + (price - prev) / prev == price / prev
  {
    var r := (price - prev) / prev;
    QuotientTimes(price - prev, prev);
    assert (1.0 + r) * prev == prev + r * prev;
    QuotientUnique(1.0 + r, price, prev);
  }

  lemma QuotientChain(a: real, b: real, c: real)
    requires a != 0.0 && b != 0.0
    ensures (b / a) * (c / b) == c / a
  {
    var x, y := b / a, c / b;
    QuotientTimes(b, a);
    QuotientTimes(c, b);
    assert (x * y) * a == y * (x * a);
    QuotientUnique(x * y, c, a);
  }

  lemma QuotientScaled(c: real, a: real, d: real)
    requires d != 0.0
    ensures (c * a) / d == c * (a / d)
  {
    var q := a / d;
    QuotientTimes(a, d);
    assert (c * q) * d == c * (q * d);
    QuotientUnique(c * q, c * a, d);
  }

  lemma QuotientSameFactor(c: real, a: real, d: real)
    requires d != 0.0 && c != 0.0
    ensures c * d != 0.0 && (c * a) / (c * d) == a / d
  {
    var q := a / d;
    QuotientTimes(a, d);
    assert q * (c * d) == c * (q * d);
    QuotientUnique(q, c * a, c * d);
  }

  lemma QuotientMonotone(x: real, y: real, d: real)
    requires x <= y && d > 0.0
    ensures x / d <= y / d
  {}

  lemma QuotientPositive(x: real, d: real)
    requires x > 0.0 && d > 0.0
    ensures x / d > 0.0
  {}

  lemma QuotientAntitone(x: real, a: real, b: real)
    requires x > 0.0 && 0.0 < a <= b
    ensures x / b <= x / a
  {
    var q := x / b;
    QuotientTimes(x, b);
    assert q * a <= q * b;
    QuotientUnique(q, q * a, a);
    QuotientMonotone(q * a, x, a);
  }
}
