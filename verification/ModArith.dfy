// Modular arithmetic that the n-gram hash relies on, built up from the uniqueness of division.
module ModArith {

  function Pow(b: int, e: nat): int
    decreases e
  {
    if e == 0 then 1 else b * Pow(b, e - 1)
  }

  lemma ScaledDifference(k: int, x: int, y: int)
    ensures k * (x - y) == k * x - k * y
  {
  }

  lemma ProductNonNegative(x: int, y: int)
    requires x >= 0 && y >= 0
    ensures x * y >= 0
  {
  }

  lemma ModUnique(x: int, t: int, q: int, r: int)
    requires t > 0 && x == q * t + r && 0 <= r < t
    ensures x % t == r && x / t == q
  {
    var q', r' := x / t, x % t;
    assert x == q' * t + r' && 0 <= r' < t;
    assert (q - q') * t == r' - r;
    NonzeroMultiple(q - q', t);
  }

  lemma NonzeroMultiple(k: int, t: int)
    requires t > 0
    ensures k >= 1 ==> k * t >= t
    ensures k <= -1 ==> k * t <= -t
  {
    if k >= 1 {
      assert k * t == t + (k - 1) * t;
    } else if k <= -1 {
      assert k * t == -t + (k + 1) * t;
    }
  }

  /** Adding a multiple of the modulus changes nothing. */
  lemma ModShift(x: int, k: int, t: int)
    requires t > 0
    ensures (x + k * t) % t == x % t
  {
    var q, r := x / t, x % t;
    assert x + k * t == (q + k) * t + r by { assert (q + k) * t == q * t + k * t; }
    ModUnique(x + k * t, t, q + k, r);
  }

  /** A factor may be reduced before it is used in a sum of products. */
  lemma ModReduceFactor(x: int, a: int, b: int, t: int)
    requires t > 0
    ensures (x + a * (b % t)) % t == (x + a * b) % t
  {
    var q := b / t;
    assert b == q * t + b % t;
    assert a * b == a * (b % t) + (a * q) * t by {
      assert a * b == a * (q * t + b % t) == a * (q * t) + a * (b % t);
      assert a * (q * t) == (a * q) * t;
    }
    ModShift(x + a * (b % t), a * q, t);
  }

  lemma ModReduceSummand(x: int, y: int, t: int)
    requires t > 0
    ensures (x % t + y) % t == (x + y) % t
  {
    var q := x / t;
    assert x == q * t + x % t;
    ModShift(x % t + y, q, t);
  }

  /** Equal residues: the difference is a multiple of the modulus. */
  lemma SameResidue(x: int, y: int, t: int)
    requires t > 0 && x % t == y % t
    ensures (x - y) % t == 0
  {
    var k := x / t - y / t;
    assert x - y == k * t by {
      assert x == (x / t) * t + x % t;
      assert y == (y / t) * t + y % t;
    }
    ModShift(0, k, t);
  }

  lemma OddTimesOdd(a: int, b: int)
    ensures a % 2 == 1 && b % 2 == 1 ==> (a * b) % 2 == 1
  {
    if a % 2 == 1 && b % 2 == 1 {
      var x := a / 2;
      assert a == 2 * x + 1;
      assert a * b == 2 * (x * b) + b;
    }
  }

  /** An odd number that divides 2x divides x. */
  lemma OddDividesDouble(t: int, x: int)
    requires t > 0 && t % 2 == 1 && (2 * x) % t == 0
    ensures x % t == 0
  {
    var q := (2 * x) / t;
    assert 2 * x == q * t;
    assert q % 2 == 0 by { OddTimesOdd(q, t); }
    var h := q / 2;
    assert 2 * x == (2 * h) * t == 2 * (h * t);
    ModUnique(x, t, h, 0);
  }

  /** An odd number that divides x * 2^k divides x. */
  lemma {:induction false} OddDividesShifted(t: int, x: int, k: nat)
    requires t > 0 && t % 2 == 1 && (x * Pow(2, k)) % t == 0
    ensures x % t == 0
    decreases k
  {
    if k > 0 {
      assert x * Pow(2, k) == 2 * (x * Pow(2, k - 1));
      OddDividesDouble(t, x * Pow(2, k - 1));
      OddDividesShifted(t, x, k - 1);
    }
  }

  lemma {:induction false} PowAdd(b: int, m: nat, n: nat)
    ensures Pow(b, m + n) == Pow(b, m) * Pow(b, n)
    decreases m
  {
    if m > 0 {
      PowAdd(b, m - 1, n);
      assert Pow(b, m + n) == b * Pow(b, m - 1 + n) == b * (Pow(b, m - 1) * Pow(b, n));
    }
  }

  lemma {:induction false} PowMul(b: int, m: nat, n: nat)
    ensures Pow(Pow(b, m), n) == Pow(b, m * n)
    decreases n
  {
    if n > 0 {
      PowMul(b, m, n - 1);
      assert m * n == m + m * (n - 1);
      PowAdd(b, m, m * (n - 1));
    }
  }
}
