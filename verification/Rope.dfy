// Interleaved rotary position embedding over the reals, with cos, sin and pow as given functions.
module Rope {
  import opened Vectors
  import opened RealArith

  /** The elementary functions the model calls. */
  datatype Math = Math(exp: real -> real, sqrt: real -> real, cos: real -> real, sin: real -> real,
                       pow: (real, real) -> real) {
    ghost predicate Positive()
    {
      && (forall x :: exp(x) > 0.0)
      && (forall x :: x > 0.0 ==> sqrt(x) > 0.0)
      && (forall b, e {:trigger pow(b, e)} :: pow(b, e) > 0.0)
    }

    /** The angle-difference identities and the Pythagorean one, at all angles. */
    ghost predicate Trigonometric()
    {
      forall a, b :: Difference(a, b)
    }

    ghost predicate Difference(a: real, b: real)
    {
      && cos(a - b) == cos(a) * cos(b) + sin(a) * sin(b)
      && sin(a - b) == sin(a) * cos(b) - cos(a) * sin(b)
      && cos(a) * cos(a) + sin(a) * sin(a) == 1.0
    }
  }

  /** The laws asked of the functions can be met together. */
  lemma LawfulMathExists()
    ensures exists m: Math :: m.Positive() && m.Trigonometric()
  {
    var m := Math(_ => 1.0, _ => 1.0, _ => 1.0, _ => 0.0, (_, _) => 1.0);
    assert m.Positive() && m.Trigonometric();
  }

  /** The rotation speed of pair k: 1 / theta^(2k / dim). */
  function Frequency(m: Math, theta: real, dim: nat, k: nat): real
    requires m.Positive() && dim > 0
  {
    1.0 / m.pow(theta, (2 * k) as real / dim as real)
  }

  /** How far pair k has turned after t positions (t may be a difference of two positions). */
  function Turn(m: Math, theta: real, dim: nat, t: int, k: nat): real
    requires m.Positive() && dim > 0
  {
    t as real * Frequency(m, theta, dim, k)
  }

  /** The angles of position t, one per pair. */
  function Angles(m: Math, theta: real, dim: nat, t: nat): (row: Vec)
    requires m.Positive() && dim % 2 == 0
    ensures |row| == dim / 2
    ensures forall k :: 0 <= k < dim / 2 ==> row[k] == Turn(m, theta, dim, t, k)
  {
    seq(dim / 2, k requires 0 <= k < dim / 2 => Turn(m, theta, dim, t, k))
  }

  /** Rows t of the cos and sin tables: the angles twice over. */
  function CosRow(m: Math, theta: real, dim: nat, t: nat): (row: Vec)
    requires m.Positive() && dim % 2 == 0
    ensures |row| == dim
  {
    var both := Angles(m, theta, dim, t) + Angles(m, theta, dim, t);
    seq(|both|, k requires 0 <= k < |both| => m.cos(both[k]))
  }

  function SinRow(m: Math, theta: real, dim: nat, t: nat): (row: Vec)
    requires m.Positive() && dim % 2 == 0
    ensures |row| == dim
  {
    var both := Angles(m, theta, dim, t) + Angles(m, theta, dim, t);
    seq(|both|, k requires 0 <= k < |both| => m.sin(both[k]))
  }

  /** Pairs (x0, x1), (x2, x3), ... to x0, x2, ..., x1, x3, ... */
  function Deinterleave(x: Vec): (y: Vec)
    requires |x| % 2 == 0
    ensures |y| == |x|
  {
    var h := |x| / 2;
    seq(|x|, k requires 0 <= k < |x| => if k < h then x[2 * k] else x[2 * (k - h) + 1])
  }

  function RotateHalf(x: Vec): (y: Vec)
    requires |x| % 2 == 0
    ensures |y| == |x|
  {
    var h := |x| / 2;
    seq(|x|, k requires 0 <= k < |x| => if k < h then -x[h + k] else x[k - h])
  }

  function RopeInterleave(x: Vec, cos: Vec, sin: Vec): (y: Vec)
    requires |x| == |cos| == |sin| && |x| % 2 == 0
    ensures |y| == |x|
  {
    var d := Deinterleave(x);
    var r := RotateHalf(d);
    seq(|x|, k requires 0 <= k < |x| => d[k] * cos[k] + r[k] * sin[k])
  }

  function Rotated(m: Math, theta: real, x: Vec, t: nat): (y: Vec)
    requires m.Positive() && |x| % 2 == 0
    ensures |y| == |x|
  {
    RopeInterleave(x, CosRow(m, theta, |x|, t), SinRow(m, theta, |x|, t))
  }

  // -------------------------------------------------------------------- sums

  /** Folding the two halves on top of each other. */
  lemma {:induction false} SumHalves(f: int -> real, h: nat, n: nat, g: int -> real)
    requires n <= h && forall k :: 0 <= k < n ==> g(k) == f(k) + f(h + k)
    ensures Sum(g, n) + Sum(f, h) == Sum(f, n) + Sum(f, h + n)
  {
    if n > 0 { SumHalves(f, h, n - 1, g); }
  }

  lemma {:induction false} SumPairs(f: int -> real, h: nat, g: int -> real)
    requires forall k :: 0 <= k < h ==> g(k) == f(2 * k) + f(2 * k + 1)
    ensures Sum(g, h) == Sum(f, 2 * h)
  {
    if h > 0 {
      SumPairs(f, h - 1, g);
      assert Sum(f, 2 * h) == Sum(f, 2 * h - 1) + f(2 * h - 1);
      assert Sum(f, 2 * h - 1) == Sum(f, 2 * h - 2) + f(2 * h - 2);
    }
  }

  // -------------------------------------------------------- the rotation law

  /** A point of the plane turned by an angle with the given cosine and sine. */
  function TurnedFirst(a0: real, a1: real, c: real, s: real): real { a0 * c + -a1 * s }

  function TurnedSecond(a0: real, a1: real, c: real, s: real): real { a1 * c + a0 * s }

  function PairDot(u0: real, u1: real, v0: real, v1: real): real { u0 * v0 + u1 * v1 }

  /** The dot product of two points, one turned against the other. */
  function TurnedDot(a0: real, a1: real, b0: real, b1: real, c: real, s: real): real
  {
    (a0 * b0 + a1 * b1) * c + (a0 * b1 - a1 * b0) * s
  }

  function CosDifference(ca: real, sa: real, cb: real, sb: real): real { ca * cb + sa * sb }

  function SinDifference(ca: real, sa: real, cb: real, sb: real): real { sa * cb - ca * sb }

  /** The contribution of pair k to the product of two vectors rotated delta positions apart. */
  ghost function PairAt(m: Math, theta: real, x: Vec, y: Vec, delta: int, k: int): real
    requires m.Positive() && |x| == |y| && |x| % 2 == 0 && 0 <= k < |x| / 2
  {
    var a := Turn(m, theta, |x|, delta, k);
    TurnedDot(x[2 * k], x[2 * k + 1], y[2 * k], y[2 * k + 1], m.cos(a), m.sin(a))
  }

  ghost function PairTerm(m: Math, theta: real, x: Vec, y: Vec, delta: int): int -> real
    requires m.Positive() && |x| == |y| && |x| % 2 == 0
  {
    k => if 0 <= k < |x| / 2 then PairAt(m, theta, x, y, delta, k) else 0.0
  }

  lemma RotatePair(a0: real, a1: real, b0: real, b1: real, ca: real, sa: real, cb: real, sb: real)
    ensures PairDot(TurnedFirst(a0, a1, ca, sa), TurnedSecond(a0, a1, ca, sa), TurnedFirst(b0, b1, cb, sb),
            TurnedSecond(b0, b1, cb, sb))
         == TurnedDot(a0, a1, b0, b1, CosDifference(ca, sa, cb, sb), SinDifference(ca, sa, cb, sb))
  {
  }

  /** Entries k and h + k of the result: pair k turned by one angle, when both tables repeat it. */
  lemma RopeEntries(x: Vec, c: Vec, s: Vec, k: nat)
    requires |x| == |c| == |s| && |x| % 2 == 0 && k < |x| / 2
    requires c[|x| / 2 + k] == c[k] && s[|x| / 2 + k] == s[k]
    ensures var u := RopeInterleave(x, c, s);
            && u[k] == TurnedFirst(x[2 * k], x[2 * k + 1], c[k], s[k])
            && u[|x| / 2 + k] == TurnedSecond(x[2 * k], x[2 * k + 1], c[k], s[k])
  {
    var h, d, r := |x| / 2, Deinterleave(x), RotateHalf(Deinterleave(x));
    assert d[k] == x[2 * k] && d[h + k] == x[2 * k + 1];
    assert r[k] == -x[2 * k + 1] && r[h + k] == x[2 * k];
  }

  lemma TableEntries(m: Math, theta: real, dim: nat, t: nat, k: nat)
    requires m.Positive() && dim % 2 == 0 && k < dim / 2
    ensures CosRow(m, theta, dim, t)[k] == CosRow(m, theta, dim, t)[dim / 2 + k] == m.cos(Turn(m, theta, dim, t, k))
    ensures SinRow(m, theta, dim, t)[k] == SinRow(m, theta, dim, t)[dim / 2 + k] == m.sin(Turn(m, theta, dim, t, k))
  {
    var both := Angles(m, theta, dim, t) + Angles(m, theta, dim, t);
    assert both[k] == both[dim / 2 + k] == Turn(m, theta, dim, t, k);
  }

  lemma TurnDifference(m: Math, theta: real, dim: nat, p: nat, q: nat, k: nat)
    requires m.Positive() && dim > 0
    ensures Turn(m, theta, dim, p - q, k) == Turn(m, theta, dim, p, k) - Turn(m, theta, dim, q, k)
  {
    DistanceScaled(p, q, Frequency(m, theta, dim, k));
  }

  lemma DifferenceOf(m: Math, a: real, b: real)
    requires m.Trigonometric()
    ensures m.cos(a - b) == CosDifference(m.cos(a), m.sin(a), m.cos(b), m.sin(b))
    ensures m.sin(a - b) == SinDifference(m.cos(a), m.sin(a), m.cos(b), m.sin(b))
  {
    assert m.Difference(a, b);
  }

  /** One pair of two ropes, given what the four table entries are. */
  lemma PairOfRopes(m: Math, x: Vec, y: Vec, c: Vec, s: Vec, c': Vec, s': Vec, k: nat, a: real, b: real)
    requires m.Trigonometric() && |x| == |y| == |c| == |s| == |c'| == |s'| && |x| % 2 == 0 && k < |x| / 2
    requires c[|x| / 2 + k] == c[k] == m.cos(a) && s[|x| / 2 + k] == s[k] == m.sin(a)
    requires c'[|x| / 2 + k] == c'[k] == m.cos(b) && s'[|x| / 2 + k] == s'[k] == m.sin(b)
    ensures var u, v, h := RopeInterleave(x, c, s), RopeInterleave(y, c', s'), |x| / 2;
            PairDot(u[k], u[h + k], v[k], v[h + k])
            == TurnedDot(x[2 * k], x[2 * k + 1], y[2 * k], y[2 * k + 1], m.cos(a - b), m.sin(a - b))
  {
    hide *;
    RopeEntries(x, c, s, k);
    RopeEntries(y, c', s', k);
    DifferenceOf(m, a, b);
    RotatePair(x[2 * k], x[2 * k + 1], y[2 * k], y[2 * k + 1], m.cos(a), m.sin(a), m.cos(b), m.sin(b));
  }

  /** One pair of two rotated vectors. */
  lemma PairOfProduct(m: Math, theta: real, x: Vec, y: Vec, p: nat, q: nat, k: nat)
    requires m.Positive() && m.Trigonometric() && |x| == |y| && |x| % 2 == 0 && k < |x| / 2
    ensures var u, v := Rotated(m, theta, x, p), Rotated(m, theta, y, q);
            PairDot(u[k], u[|x| / 2 + k], v[k], v[|x| / 2 + k]) == PairAt(m, theta, x, y, p - q, k)
  {
    hide RopeInterleave, CosRow, SinRow, Turn, PairDot, TurnedDot;
    TableEntries(m, theta, |x|, p, k);
    TableEntries(m, theta, |x|, q, k);
    TurnDifference(m, theta, |x|, p, q, k);
    PairOfRopes(m, x, y, CosRow(m, theta, |x|, p), SinRow(m, theta, |x|, p), CosRow(m, theta, |x|, q),
        SinRow(m, theta, |x|, q),
      k, Turn(m, theta, |x|, p, k), Turn(m, theta, |x|, q, k));
  }

  lemma TermOfPair(m: Math, theta: real, x: Vec, y: Vec, p: nat, q: nat, k: nat)
    requires m.Positive() && m.Trigonometric() && |x| == |y| && |x| % 2 == 0 && k < |x| / 2
    ensures PairTerm(m, theta, x, y, p - q)(k) == PairAt(m, theta, x, y, p - q, k)
    ensures var u, v, h := Rotated(m, theta, x, p), Rotated(m, theta, y, q), |x| / 2;
            Product(u, v)(k) + Product(u, v)(h + k) == PairDot(u[k], u[h + k], v[k], v[h + k])
  {
    hide Rotated, PairAt, Math.Positive, Math.Trigonometric;
  }

  lemma ProductDependsOnDistance(m: Math, theta: real, x: Vec, y: Vec, p: nat, q: nat)
    requires m.Positive() && m.Trigonometric() && |x| == |y| && |x| % 2 == 0
    ensures Dot(Rotated(m, theta, x, p), Rotated(m, theta, y, q)) == Sum(PairTerm(m, theta, x, y, p - q), |x| / 2)
  {
    hide Rotated, PairAt, PairTerm, Product, Math.Positive, Math.Trigonometric;
    var f := Product(Rotated(m, theta, x, p), Rotated(m, theta, y, q));
    var g := PairTerm(m, theta, x, y, p - q);
    forall k | 0 <= k < |x| / 2
      ensures g(k) == f(k) + f(|x| / 2 + k)
    {
      TermOfPair(m, theta, x, y, p, q, k);
      PairOfProduct(m, theta, x, y, p, q, k);
    }
    SumHalves(f, |x| / 2, |x| / 2, g);
    assert |x| / 2 + |x| / 2 == |x|;
  }

  /** Scores of rotated queries and keys are the same for every pair of positions equally far apart. */
  lemma RelativePositions(m: Math, theta: real, x: Vec, y: Vec, p: nat, q: nat, p': nat, q': nat)
    requires m.Positive() && m.Trigonometric() && |x| == |y| && |x| % 2 == 0 && p - q == p' - q'
    ensures Dot(Rotated(m, theta, x, p), Rotated(m, theta, y, q))
         == Dot(Rotated(m, theta, x, p'), Rotated(m, theta, y, q'))
  {
    ProductDependsOnDistance(m, theta, x, y, p, q);
    ProductDependsOnDistance(m, theta, x, y, p', q');
  }

  lemma PairAtZero(m: Math, theta: real, x: Vec, y: Vec, k: nat)
    requires m.Positive() && m.Trigonometric() && |x| == |y| && |x| % 2 == 0 && k < |x| / 2
    ensures PairAt(m, theta, x, y, 0, k) == PairDot(x[2 * k], x[2 * k + 1], y[2 * k], y[2 * k + 1])
  {
    hide Frequency;
    assert m.Difference(0.0, 0.0);
    assert m.cos(0.0) == 1.0 && m.sin(0.0) == 0.0;
    assert Turn(m, theta, |x|, 0, k) == 0.0;
  }

  /** At equal positions the rotation cancels; with x == y, it preserves the norm. */
  lemma RotationIsIsometry(m: Math, theta: real, x: Vec, y: Vec, p: nat)
    requires m.Positive() && m.Trigonometric() && |x| == |y| && |x| % 2 == 0
    ensures Dot(Rotated(m, theta, x, p), Rotated(m, theta, y, p)) == Dot(x, y)
  {
    hide Rotated, PairAt;
    ProductDependsOnDistance(m, theta, x, y, p, p);
    var f, g := Product(x, y), PairTerm(m, theta, x, y, 0);
    forall k | 0 <= k < |x| / 2
      ensures g(k) == f(2 * k) + f(2 * k + 1)
    {
      assert g(k) == PairAt(m, theta, x, y, 0, k);
      PairAtZero(m, theta, x, y, k);
    }
    SumPairs(f, |x| / 2, g);
  }
}
