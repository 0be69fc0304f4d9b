// Rounding a 32-bit float pattern to bfloat16 with the carry trick, and what that trick computes.
module Bf16 {

  const SIGN: nat := 0x8000_0000
  const INF: nat := 0x7F80_0000

  type word = u: int | 0 <= u < 0x1_0000_0000

  /** The rounding increment: 0x7FFF, plus one when the kept part is odd. */
  function Increment(u: word): nat { (u / 0x1_0000) % 2 + 0x7FFF }

  /** The writer's two bytes as one number: a 32-bit add that wraps, then the upper half. */
  function RoundToHalf(u: word): (h: nat)
    ensures h < 0x1_0000
  {
    ((u + Increment(u)) % 0x1_0000_0000) / 0x1_0000
  }

  /** The reader's float: the same sum with its lower half cleared. */
  function Round(u: word): word
  {
    var s := (u + Increment(u)) % 0x1_0000_0000;
    s - s % 0x1_0000
  }

  /** The written half, shifted back up, is the rounded float: writer and oracle agree on every pattern. */
  lemma HalfIsRound(u: word)
    ensures RoundToHalf(u) * 0x1_0000 == Round(u)
  {
  }

  lemma RoundIdempotent(u: word)
    ensures Round(Round(u)) == Round(u)
  {
    RoundByHalves(u);
    var r := Round(u);
    assert r % 0x1_0000 == 0;
    RoundByHalves(r);
  }

  // ------------------------------------------------------------------ values

  function Pow2(n: nat): (p: nat)
    ensures p >= 1
  {
    if n == 0 then 1 else 2 * Pow2(n - 1)
  }

  function Magnitude(u: word): nat { u % SIGN }

  predicate Finite(u: word) { Magnitude(u) < INF }

  predicate IsNan(u: word) { Magnitude(u) > INF }

  predicate IsBf16(u: word) { u % 0x1_0000 == 0 }

  /** The spacing of floats around a magnitude, in units of the smallest float, 2^-149. */
  function Spacing(mag: nat): nat { var e := mag / 0x80_0000; Pow2(if e == 0 then 0 else e - 1) }

  /**
   * The value of a magnitude in units of 2^-149. The infinity pattern gets the value that the next
   * binade would start at, which is what rounding to nearest compares with (section 4.3.1 of IEEE 754-2019).
   */
  function Units(mag: nat): nat
  {
    var e, f := mag / 0x80_0000, mag % 0x80_0000;
    (if e == 0 then f else 0x80_0000 + f) * Spacing(mag)
  }

  function Value(u: word): int { if u >= SIGN then 0 - Units(Magnitude(u)) else Units(Magnitude(u)) }

  lemma UnitsZero()
    ensures Units(0) == 0
  {
  }

  /** One step up in the pattern is one spacing up in value, also across a power of two. */
  lemma UnitsStep(mag: nat)
    ensures Units(mag + 1) == Units(mag) + Spacing(mag)
  {
    var e, f := mag / 0x80_0000, mag % 0x80_0000;
    var s := Spacing(mag);
    if f + 1 < 0x80_0000 {
      assert (mag + 1) / 0x80_0000 == e && (mag + 1) % 0x80_0000 == f + 1;
      var base := if e == 0 then f else 0x80_0000 + f;
      assert (base + 1) * s == base * s + s;
    } else {
      assert (mag + 1) / 0x80_0000 == e + 1 && (mag + 1) % 0x80_0000 == 0;
      if e == 0 {
        assert Spacing(mag + 1) == 1 && s == 1;
      } else {
        assert Spacing(mag + 1) == Pow2(e) == 2 * Pow2(e - 1) == 2 * s;
        assert 0x80_0000 * (2 * s) == (0x80_0000 + f) * s + s by { Twice(f, s); }
      }
    }
  }

  lemma Twice(f: nat, s: nat)
    requires f == 0x80_0000 - 1
    ensures 0x80_0000 * (2 * s) == (0x80_0000 + f) * s + s
  {
  }

  /** Within one block of patterns that share their upper half, values are evenly spaced. */
  lemma {:induction false} UnitsLinear(lo: nat, k: nat)
    requires lo % 0x1_0000 == 0 && k <= 0x1_0000
    ensures Units(lo + k) == Units(lo) + k * Spacing(lo)
    decreases k
  {
    hide Units, Spacing;
    if k > 0 {
      UnitsLinear(lo, k - 1);
      UnitsStep(lo + k - 1);
      SameBinade(lo, k - 1);
      OneMore(k, Spacing(lo));
    }
  }

  lemma OneMore(k: nat, s: nat)
    requires k > 0
    ensures k * s == (k - 1) * s + s
  {
  }

  lemma SameBinade(lo: nat, k: nat)
    requires lo % 0x1_0000 == 0 && k < 0x1_0000
    ensures Spacing(lo + k) == Spacing(lo)
  {
    var e, f := lo / 0x80_0000, lo % 0x80_0000;
    assert f % 0x1_0000 == 0 && f + k < 0x80_0000;
    assert lo + k == e * 0x80_0000 + (f + k);
  }

  lemma {:induction false} UnitsMonotone(a: nat, b: nat)
    requires a <= b
    ensures Units(a) <= Units(b)
    ensures a < b ==> Units(a) < Units(b)
    decreases b - a
  {
    if a < b {
      UnitsMonotone(a, b - 1);
      UnitsStep(b - 1);
    }
  }

  function Abs(x: int): int { if x < 0 then -x else x }

  /** Which of its two neighbours a finite magnitude is rounded to. */
  function RoundedMagnitude(mag: nat): nat
  {
    var lo, k := mag - mag % 0x1_0000, mag % 0x1_0000;
    if k < 0x8000 || (k == 0x8000 && (lo / 0x1_0000) % 2 == 0) then lo else lo + 0x1_0000
  }

  /** The upper half grows by one exactly when the lower half carries into it. */
  lemma RoundByHalves(u: word)
    ensures var hi, k := u / 0x1_0000, u % 0x1_0000;
            Round(u) == if k > 0x8000 || (k == 0x8000 && hi % 2 == 1)
                        then (if hi == 0xFFFF then 0 else (hi + 1) * 0x1_0000) else hi * 0x1_0000
  {
    var hi, k := u / 0x1_0000, u % 0x1_0000;
    var s := k + Increment(u);
    assert u + Increment(u) == hi * 0x1_0000 + s;
    if s < 0x1_0000 {
      assert (hi * 0x1_0000 + s) % 0x1_0000 == s;
    } else {
      assert hi * 0x1_0000 + s == (hi + 1) * 0x1_0000 + (s - 0x1_0000);
      assert ((hi + 1) * 0x1_0000 + (s - 0x1_0000)) % 0x1_0000 == s - 0x1_0000;
    }
  }

  /** The carry trick keeps the sign and rounds the magnitude; finite patterns never overflow into the sign. */
  lemma RoundKeepsSign(u: word)
    requires Finite(u)
    ensures Round(u) == u - Magnitude(u) + RoundedMagnitude(Magnitude(u))
    ensures Magnitude(Round(u)) == RoundedMagnitude(Magnitude(u)) <= INF
    ensures (Round(u) >= SIGN) == (u >= SIGN)
  {
    RoundByHalves(u);
    Halves(u);
  }

  /** The magnitude has the pattern's lower half, and its upper half without the sign. */
  lemma Halves(u: word)
    ensures var mag := Magnitude(u);
            && mag % 0x1_0000 == u % 0x1_0000
            && mag / 0x1_0000 == (u / 0x1_0000) % 0x8000
            && (mag / 0x1_0000) % 2 == (u / 0x1_0000) % 2
            && u - mag == (if u >= SIGN then SIGN else 0)
  {
    assert Magnitude(u) == if u >= SIGN then u - SIGN else u;
  }

  /** Of two neighbours, the rounded one is no further away than the other; ties go to the even pattern. */
  lemma NearestNeighbour(mag: nat)
    ensures var lo, r := mag - mag % 0x1_0000, RoundedMagnitude(mag);
            && Units(lo) <= Units(mag) < Units(lo + 0x1_0000)
            && Abs(Units(mag) - Units(r)) <= Units(mag) - Units(lo)
            && Abs(Units(mag) - Units(r)) <= Units(lo + 0x1_0000) - Units(mag)
            && (Units(mag) - Units(lo) == Units(lo + 0x1_0000) - Units(mag) ==> (r / 0x1_0000) % 2 == 0)
  {
    var lo, k := mag - mag % 0x1_0000, mag % 0x1_0000;
    var s := Spacing(lo);
    hide *;
    UnitsLinear(lo, k);
    UnitsLinear(lo, 0x1_0000);
    PositiveSpacing(lo);
    Multiples(k, s);
    TowardsNearest(mag);
  }

  lemma PositiveSpacing(lo: nat)
    ensures Spacing(lo) >= 1
  {
  }

  /** Which neighbour is taken; either may be on a tie, as long as it is even. */
  lemma TowardsNearest(mag: nat)
    ensures var lo, k, r := mag - mag % 0x1_0000, mag % 0x1_0000, RoundedMagnitude(mag);
            && (k < 0x8000 ==> r == lo) && (k > 0x8000 ==> r == lo + 0x1_0000)
            && (k == 0x8000 ==> (r == lo || r == lo + 0x1_0000) && (r / 0x1_0000) % 2 == 0)
  {
    var q := mag / 0x1_0000;
    assert mag - mag % 0x1_0000 == q * 0x1_0000 && q * 0x1_0000 / 0x1_0000 == q
        && (q + 1) * 0x1_0000 / 0x1_0000 == q + 1;
  }

  lemma Multiples(k: nat, s: nat)
    requires s >= 1 && k < 0x1_0000
    ensures k * s < 0x1_0000 * s
    ensures k < 0x8000 ==> 2 * (k * s) < 0x1_0000 * s
    ensures k == 0x8000 ==> 2 * (k * s) == 0x1_0000 * s
    ensures k > 0x8000 ==> 2 * (k * s) > 0x1_0000 * s
  {
    StrictMul(k, 0x1_0000, s);
    if k < 0x8000 { StrictMul(k, 0x8000, s); }
    if k > 0x8000 { StrictMul(0x8000, k, s); }
  }

  lemma StrictMul(a: int, b: int, s: int)
    requires a < b && s >= 1
    ensures a * s < b * s
  {
    assert (b - a) * s >= 1;
  }

  /** Among all even-spaced candidates, compared by magnitude. */
  lemma NearestMagnitude(mag: nat, c: nat)
    requires c % 0x1_0000 == 0
    ensures var r := RoundedMagnitude(mag);
            && r % 0x1_0000 == 0
            && Abs(Units(mag) - Units(r)) <= Abs(Units(mag) - Units(c))
            && (Abs(Units(mag) - Units(r)) == Abs(Units(mag) - Units(c)) && Units(c) != Units(r) ==>
                  (r / 0x1_0000) % 2 == 0)
  {
    var lo, r := mag - mag % 0x1_0000, RoundedMagnitude(mag);
    NearestNeighbour(mag);
    Blocks(mag, c);
    if c <= lo { UnitsMonotone(c, lo); } else { UnitsMonotone(lo + 0x1_0000, c); }
    hide *;
    Choose(Units(mag), Units(lo), Units(lo + 0x1_0000), Units(r), Units(c), (r / 0x1_0000) % 2 == 0);
  }

  lemma Blocks(mag: nat, c: nat)
    requires c % 0x1_0000 == 0
    ensures var lo, r := mag - mag % 0x1_0000, RoundedMagnitude(mag);
            (r == lo || r == lo + 0x1_0000) && r % 0x1_0000 == 0 && (c <= lo || c >= lo + 0x1_0000)
  {
    var q, p := mag / 0x1_0000, c / 0x1_0000;
    assert mag - mag % 0x1_0000 == q * 0x1_0000 && c == p * 0x1_0000;
  }

  /** Of two neighbours around m, the nearer one beats every value outside them. */
  lemma Choose(m: int, l: int, h: int, r: int, c: int, even: bool)
    requires l <= m < h && (r == l || r == h) && (c <= l || c >= h)
    requires Abs(m - r) <= m - l && Abs(m - r) <= h - m && (m - l == h - m ==> even)
    ensures Abs(m - r) <= Abs(m - c) && (Abs(m - r) == Abs(m - c) && c != r ==> even)
  {
  }

  /**
   * Round to nearest, ties to even, for every finite float: no bfloat16 is closer, and when one with a
   * different value is equally close, the chosen pattern is the even one.
   */
  lemma RoundIsNearestEven(u: word, b: word)
    requires Finite(u) && IsBf16(b) && Magnitude(b) <= INF
    ensures IsBf16(Round(u)) && Magnitude(Round(u)) <= INF
    ensures Abs(Value(u) - Value(Round(u))) <= Abs(Value(u) - Value(b))
    ensures Abs(Value(u) - Value(Round(u))) == Abs(Value(u) - Value(b)) && Value(b) != Value(Round(u))
            ==> (Round(u) / 0x1_0000) % 2 == 0
  {
    hide Round, RoundedMagnitude, Units;
    var mag, c := Magnitude(u), Magnitude(b);
    RoundKeepsSign(u);
    Halves(b);
    Halves(Round(u));
    NearestMagnitude(mag, c);
    NearestMagnitude(mag, 0);
    UnitsMonotone(0, c);
    UnitsMonotone(0, mag);
    UnitsZero();
  }

  /**
   * For NaN patterns the trick is not a conversion: a NaN stays a NaN exactly when its payload is clear of
   * both ends, and otherwise the carry turns it into an infinity or a zero.
   */
  lemma NanSurvival(u: word)
    requires IsNan(u)
    ensures IsNan(Round(u)) <==> 0x7F80_8000 < Magnitude(u) < 0x7FFF_8000
    ensures Magnitude(u) <= 0x7F80_8000 ==> Magnitude(Round(u)) == INF
    ensures Magnitude(u) >= 0x7FFF_8000 ==> Magnitude(Round(u)) == 0
  {
    RoundByHalves(u);
    Halves(u);
  }
}
