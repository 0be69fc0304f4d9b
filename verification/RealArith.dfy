// Products of reals, for the models that bound or expand them.
module RealArith {

  lemma ProductNonNegative(x: real, y: real)
    requires x >= 0.0 && y >= 0.0
    ensures x * y >= 0.0
  {
  }

  lemma QuotientOrder(x: real, y: real, n: real)
    requires x <= y && n > 0.0
    ensures x / n <= y / n
  {
    var p, q := x / n, y / n;
    assert (q - p) * n == y - x by { assert p * n == x && q * n == y; }
    NegativeProduct(q - p, n);
  }

  lemma NegativeProduct(d: real, n: real)
    requires n > 0.0
    ensures d < 0.0 ==> d * n < 0.0
  {
  }

  lemma DistanceScaled(p: nat, q: nat, w: real)
    ensures (p - q) as real * w == p as real * w - q as real * w
  {
    assert (p - q) as real == p as real - q as real;
  }
}
