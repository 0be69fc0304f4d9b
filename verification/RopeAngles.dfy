// Which angle each pair of a row is turned by, and where its two halves end up.
module RopeAngles {
  import opened RealArith
  import opened Rope
  import opened Vectors

  /** The laws of the powers of one base. */
  ghost predicate Powers(m: Math, b: real)
  {
    m.pow(b, 1.0) == b && m.pow(b, 0.0) == 1.0 && forall x, y :: AddsExponents(m, b, x, y)
  }

  ghost predicate AddsExponents(m: Math, b: real, x: real, y: real)
  {
    m.pow(b, x + y) == m.pow(b, x) * m.pow(b, y)
  }

  /** The n-th power by repeated product. */
  function Times(b: real, n: nat): real { if n == 0 then 1.0 else Times(b, n - 1) * b }

  function Scaled(n: nat, x: real): real { n as real * x }

  lemma {:induction false} PowTimes(m: Math, b: real, x: real, n: nat)
    requires Powers(m, b)
    ensures Times(m.pow(b, x), n) == m.pow(b, Scaled(n, x))
  {
    hide Scaled, Powers;
    ScaledSteps(x, n);
    if n == 0 {
      PowZero(m, b);
    } else {
      PowTimes(m, b, x, n - 1);
      Exponents(m, b, Scaled(n - 1, x), x, Scaled(n, x));
    }
  }

  lemma ScaledSteps(x: real, n: nat)
    ensures if n == 0 then Scaled(n, x) == 0.0 else Scaled(n - 1, x) + x == Scaled(n, x)
  {
  }

  lemma PowZero(m: Math, b: real)
    requires Powers(m, b)
    ensures m.pow(b, 0.0) == 1.0
  {
  }

  lemma Exponents(m: Math, b: real, x: real, y: real, z: real)
    requires Powers(m, b) && x + y == z
    ensures m.pow(b, z) == m.pow(b, x) * m.pow(b, y)
  {
    assert AddsExponents(m, b, x, y);
  }

  lemma OneMore(n: nat, x: real)
    requires n > 0
    ensures (n - 1) as real * x + x == n as real * x
  {
  }

  lemma {:induction false} TimesProduct(a: real, b: real, n: nat)
    ensures Times(a * b, n) == Times(a, n) * Times(b, n)
  {
    if n > 0 {
      TimesProduct(a, b, n - 1);
      Swap(Times(a, n - 1), Times(b, n - 1), a, b);
    }
  }

  lemma Swap(x: real, y: real, a: real, b: real)
    ensures (x * y) * (a * b) == (x * a) * (y * b)
  {
  }

  lemma {:induction false} TimesOne(n: nat)
    ensures Times(1.0, n) == 1.0
  {
    if n > 0 { TimesOne(n - 1); }
  }

  lemma Cancel(k: nat, dim: nat)
    requires dim > 0
    ensures Scaled(dim, (2 * k) as real / dim as real) == Scaled(2 * k, 1.0)
  {
    var q := (2 * k) as real / dim as real;
    assert q * dim as real == (2 * k) as real;
  }

  /** Pair k's speed, raised to the dimension, is theta to the power -2k. */
  lemma SpeedPower(m: Math, theta: real, dim: nat, k: nat)
    requires m.Positive() && Powers(m, theta) && dim > 0
    ensures Frequency(m, theta, dim, k) > 0.0
    ensures Times(Frequency(m, theta, dim, k), dim) * Times(theta, 2 * k) == 1.0
  {
    var e := (2 * k) as real / dim as real;
    var p, f := m.pow(theta, e), Frequency(m, theta, dim, k);
    PositivePower(m, theta, e);
    assert f * p == 1.0;
    TimesProduct(f, p, dim);
    TimesOne(dim);
    assert Times(f, dim) * Times(p, dim) == 1.0;
    PowTimes(m, theta, e, dim);
    Cancel(k, dim);
    PowTimes(m, theta, 1.0, 2 * k);
    assert Times(p, dim) == Times(theta, 2 * k);
  }

  lemma PositivePower(m: Math, b: real, e: real)
    requires m.Positive()
    ensures m.pow(b, e) > 0.0
  {
  }

  /** An angle per position that satisfies the law of pair k. */
  ghost predicate Speed(a: real, theta: real, dim: nat, k: nat)
  {
    a > 0.0 && Times(a, dim) * Times(theta, 2 * k) == 1.0
  }

  lemma SpeedExists(m: Math, theta: real, dim: nat, k: nat) returns (a: real)
    requires m.Positive() && Powers(m, theta) && dim > 0
    ensures Speed(a, theta, dim, k) && a == Frequency(m, theta, dim, k)
  {
    a := Frequency(m, theta, dim, k);
    SpeedPower(m, theta, dim, k);
  }

  lemma {:induction false} TimesGrows(a: real, b: real, n: nat)
    requires 0.0 < a < b
    ensures 0.0 < Times(a, n) <= Times(b, n) && (n > 0 ==> Times(a, n) < Times(b, n))
  {
    if n > 0 {
      TimesGrows(a, b, n - 1);
      LargerProduct(Times(a, n - 1), Times(b, n - 1), a, b);
    }
  }

  lemma LargerProduct(x: real, y: real, a: real, b: real)
    requires 0.0 < x <= y && 0.0 < a < b
    ensures 0.0 < x * a < y * b
  {
    ProductNonNegative(y - x, b);
    assert x * a > 0.0 && x * (b - a) > 0.0;
    assert y * b == x * a + x * (b - a) + (y - x) * b;
  }

  /** The law leaves one angle only. */
  lemma SpeedIsUnique(a: real, b: real, theta: real, dim: nat, k: nat)
    requires Speed(a, theta, dim, k) && Speed(b, theta, dim, k) && dim > 0
    ensures a == b
  {
    if a < b {
      TimesGrows(a, b, dim);
      SameFactor(Times(a, dim), Times(b, dim), Times(theta, 2 * k));
    } else if b < a {
      TimesGrows(b, a, dim);
      SameFactor(Times(a, dim), Times(b, dim), Times(theta, 2 * k));
    }
  }

  lemma SameFactor(x: real, y: real, z: real)
    requires x * z == 1.0 && y * z == 1.0
    ensures x == y
  {
    assert x == x * (y * z) == y * (x * z) == y;
  }

  /**
   * Both tables turn pair k, at every position, by the position times one angle a: the positive number whose
   * dim-th power is theta^(-2k).
   */
  lemma TableAngles(m: Math, theta: real, dim: nat, t: nat, k: nat, a: real)
    requires m.Positive() && Powers(m, theta) && dim % 2 == 0 && k < dim / 2 && Speed(a, theta, dim, k)
    ensures CosRow(m, theta, dim, t)[k] == CosRow(m, theta, dim, t)[dim / 2 + k] == m.cos(t as real * a)
    ensures SinRow(m, theta, dim, t)[k] == SinRow(m, theta, dim, t)[dim / 2 + k] == m.sin(t as real * a)
  {
    hide CosRow, SinRow, Frequency, Speed, Powers, Math.Positive;
    var b := SpeedExists(m, theta, dim, k);
    SpeedIsUnique(a, b, theta, dim, k);
    TableEntries(m, theta, dim, t, k);
    var turn := Turn(m, theta, dim, t, k);
    assert turn == t as real * a;
    assert m.cos(turn) == m.cos(t as real * a) && m.sin(turn) == m.sin(t as real * a);
  }

  /**
   * Where a row goes: pair k's first half to place k and its second half to place dim/2 + k, turned by the
   * angle of k times the position, from the first towards the second.
   */
  lemma RowTurned(m: Math, theta: real, x: Vec, t: nat, k: nat, a: real)
    requires m.Positive() && Powers(m, theta) && |x| % 2 == 0 && k < |x| / 2 && Speed(a, theta, |x|, k)
    ensures var y, h, turn := Rotated(m, theta, x, t), |x| / 2, t as real * a;
      && y[k] == x[2 * k] * m.cos(turn) - x[2 * k + 1] * m.sin(turn)
      && y[h + k] == x[2 * k + 1] * m.cos(turn) + x[2 * k] * m.sin(turn)
  {
    hide CosRow, SinRow, RopeInterleave, Speed, Powers, Math.Positive;
    TableAngles(m, theta, |x|, t, k, a);
    var turn := t as real * a;
    RopeEntries(x, CosRow(m, theta, |x|, t), SinRow(m, theta, |x|, t), k);
    SubtractProduct(x[2 * k] * m.cos(turn), x[2 * k + 1], m.sin(turn));
  }

  lemma SubtractProduct(p: real, x: real, y: real)
    ensures p + -x * y == p - x * y
  {
  }
}
