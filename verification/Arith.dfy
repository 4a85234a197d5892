/** Integer division, as far as the other modules need it. */
module Arith {

  lemma AtLeastOnce(k: int, d: nat)
    ensures k >= 1 ==> k * d >= d
  {
    if k >= 1 {
      assert k * d == (k - 1) * d + d;
    }
  }

  lemma Quotient(n: nat, d: nat, q: nat)
    requires d >= 1 && q * d <= n < q * d + d
    ensures n / d == q
  {
    var p := n / d;
    assert p * d <= n < p * d + d;
    AtLeastOnce(p - q, d);
    AtLeastOnce(q - p, d);
    assert (p - q) * d == p * d - q * d == -((q - p) * d);
  }

  lemma DivStep(n: nat, d: nat)
    requires 1 <= d <= n
    ensures n / d == (n - d) / d + 1
  {
    var q := (n - d) / d;
    assert q * d <= n - d < q * d + d;
    assert (q + 1) * d == q * d + d;
    Quotient(n, d, q + 1);
  }

  lemma QuotientBounds(a: nat, n: nat)
    requires n > 0
    ensures 0 <= a / n
    ensures n > 1 && a > 0 ==> a / n < a
  {
    var q := a / n;
    assert q * n <= a < q * n + n;
    AtLeastOnce(-q, n);
    assert -q * n == -(q * n);
    if n > 1 && q >= 0 {
      AtLeastOnce(n - 1, q);
      assert q * n == q + (n - 1) * q;
    }
  }

  lemma ScaleOrder(x: real, y: real, d: real)
    requires d > 0.0
    ensures x <= y <==> x * d <= y * d
  {
    if x < y {
      assert (y - x) * d > 0.0;
    } else if y < x {
      assert (x - y) * d > 0.0;
    }
  }

  lemma QuotientOrder(a: int, b: int, d: int)
    requires d > 0
    ensures a <= b <==> a as real / d as real <= b as real / d as real
  {
    var x, y, e := a as real / d as real, b as real / d as real, d as real;
    assert x * e == a as real && y * e == b as real;
    ScaleOrder(x, y, e);
  }

  lemma Fraction(a: nat, d: nat)
    requires a <= d && d > 0
    ensures 0.0 <= a as real / d as real <= 1.0
    ensures a == d ==> a as real / d as real == 1.0
    ensures a == 0 ==> a as real / d as real == 0.0
  {
    QuotientOrder(0, a, d);
    QuotientOrder(a, d, d);
  }
}
