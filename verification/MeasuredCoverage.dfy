// From the tallied log to the coverage that the tree search assumes.
module MeasuredCoverage {
  import opened RealArith
  import opened Text
  import opened ShadowTopk
  import opened TreeShape

  /** Rounding to four places: it keeps order, and 0 and 1 stay. */
  ghost predicate Rounds(round: real -> real)
  {
    round(0.0) == 0.0 && round(1.0) == 1.0 && forall x, y :: x <= y ==> round(x) <= round(y)
  }

  /** The first KMAX top-r rates that are written for a depth. */
  function Rates(e: Stats, round: real -> real): (rates: seq<real>)
    requires |e.hits| >= KMAX
    ensures |rates| == KMAX
  {
    var n := if e.n < 1 then 1 else e.n;
    seq(KMAX, r requires 0 <= r < KMAX => round(e.hits[r] as real / n as real))
  }

  /** Depths beyond the deepest measured one repeat it, up to the eighth. */
  function Depth(k: nat, deepest: nat): nat { if k + 1 <= deepest then k + 1 else deepest }

  const PLATEAU: nat := 8

  /** A table with exactly the depths 1 to deepest, and enough ranks at each. */
  ghost predicate Contiguous(table: Table, deepest: nat)
  {
    && deepest >= 1 && (forall d :: d in table <==> 1 <= d <= deepest)
    && forall d :: d in table ==> |table[d].hits| >= KMAX
  }

  function RatesAt(table: Table, deepest: nat, round: real -> real, k: nat): (rates: seq<real>)
    requires Depth(k, deepest) in table && |table[Depth(k, deepest)].hits| >= KMAX
    ensures |rates| == KMAX
  {
    Rates(table[Depth(k, deepest)], round)
  }

  /** Reading the written table: the measured depths, then the plateau. */
  method Load(table: Table, deepest: nat, round: real -> real) returns (c: Coverage)
    requires Contiguous(table, deepest)
    ensures |c.s| == |c.h| == if deepest < PLATEAU then PLATEAU else deepest
    ensures forall k :: 0 <= k < |c.h| ==> c.h[k] == RatesAt(table, deepest, round, k) && c.s[k] == c.h[k][0]
  {
    hide Rates;
    var s: seq<real>, h: seq<seq<real>> := [], [];
    for d := 1 to deepest + 1
      invariant |s| == |h| == d - 1
      invariant forall k :: 0 <= k < d - 1 ==> h[k] == RatesAt(table, deepest, round, k) && s[k] == h[k][0]
    {
      var rates := Rates(table[d], round);
      s, h := s + [rates[0]], h + [rates];
    }
    while |s| < PLATEAU
      invariant deepest <= |s| == |h| && (|s| <= PLATEAU || |s| == deepest)
      invariant forall k :: 0 <= k < |s| ==> h[k] == RatesAt(table, deepest, round, k) && s[k] == h[k][0]
    {
      s, h := s + [s[deepest - 1]], h + [h[deepest - 1]];
    }
    c := Coverage(s, h);
  }

  lemma {:induction false} DepthPositive(earlier: seq<Line>, t: Line, i: nat, spine: bool)
    requires t.Target? && i <= |t.drafts|
    ensures Count(SamplesFrom(earlier, t, i, spine), 0, true, All) == 0
    decreases |t.drafts| - i
  {
    hide Count, Latest;
    if i < |t.drafts| && i < |t.v| && Latest(earlier, t.base + i).Some? {
      var s := SampleAt(Latest(earlier, t.base + i).value, t, i, spine);
      var next := spine && t.drafts[i] == t.v[i];
      DepthPositive(earlier, t, i + 1, next);
      CountAppend([s], SamplesFrom(earlier, t, i + 1, next), 0, true, All);
      CountOne(s, 0, true, All);
    } else {
      NoSamples(0);
    }
  }

  lemma {:induction false} NoDepthZero(log: seq<Line>)
    ensures Count(Samples(log), 0, true, All) == 0
  {
    hide Count;
    if log == [] {
      NoSamples(0);
    } else {
      var front, l := log[..|log| - 1], log[|log| - 1];
      NoDepthZero(front);
      var own := if l.Target? then SamplesFrom(front, l, 0, true) else [];
      if l.Target? { DepthPositive(front, l, 0, true); } else { NoSamples(0); }
      CountAppend(Samples(front), own, 0, true, All);
      assert Samples(log) == Samples(front) + own;
    }
  }

  /** Every depth below a measured one is measured. */
  lemma {:induction false} ShallowerMeasured(log: seq<Line>, d: nat, e: nat)
    requires 1 <= d <= e
    ensures Count(Samples(log), e, true, All) <= Count(Samples(log), d, true, All)
    decreases e - d
  {
    hide Count, Samples;
    if d < e {
      ShallowerMeasured(log, d, e - 1);
      DepthsShrink(log, e - 1);
    }
  }

  lemma Deepest(keys: set<nat>) returns (m: nat)
    requires keys != {}
    ensures m in keys && forall d :: d in keys ==> d <= m
  {
    var x :| x in keys;
    if keys == {x} {
      m := x;
    } else {
      var rest := keys - {x};
      assert keys == rest + {x} && rest != {};
      m := Deepest(rest);
      if m < x { m := x; }
    }
  }

  /** The conditional table of any log has the depths 1 up to its deepest. */
  lemma TalliedContiguous(t: Tally, log: seq<Line>, kmax: nat) returns (deepest: nat)
    requires Tallies(t, log, kmax) && kmax >= KMAX && t.cond != map[]
    ensures Contiguous(t.cond, deepest)
  {
    hide Count, Samples, Latest;
    assert t.cond.Keys != {};
    deepest := Deepest(t.cond.Keys);
    NoDepthZero(log);
    forall d: nat
      ensures d in t.cond <==> 1 <= d <= deepest
    {
      if 1 <= d <= deepest { ShallowerMeasured(log, d, deepest); }
    }
    forall d | d in t.cond
      ensures |t.cond[d].hits| >= KMAX
    {
      assert TabulatesAt(t.cond[d], Samples(log), d, true, kmax);
    }
  }

  lemma RateBounds(n: nat, a: nat, b: nat)
    requires n > 0 && a <= b <= n
    ensures 0.0 <= a as real / n as real <= b as real / n as real <= 1.0
  {
    QuotientOrder(0.0, a as real, n as real);
    QuotientOrder(a as real, b as real, n as real);
    QuotientOrder(b as real, n as real, n as real);
  }

  /** The rates of a tallied depth are cumulative coverage. */
  lemma RatesCumulative(e: Stats, ss: seq<Sample>, d: nat, kmax: nat, round: real -> real)
    requires TabulatesAt(e, ss, d, true, kmax) && kmax >= KMAX && Count(ss, d, true, All) > 0 && Rounds(round)
    ensures var h := Rates(e, round);
            0.0 <= h[0] && h[KMAX - 1] <= 1.0 && forall i, j :: 0 <= i <= j < KMAX ==> h[i] <= h[j]
  {
    hide Count;
    forall i, j | 0 <= i <= j < KMAX
      ensures 0.0 <= Rates(e, round)[i] <= Rates(e, round)[j] <= 1.0
    {
      HitsMonotone(ss, d, true, i, j);
      RateBounds(e.n, e.hits[i], e.hits[j]);
      var x, y := e.hits[i] as real / e.n as real, e.hits[j] as real / e.n as real;
      assert round(0.0) <= round(x) <= round(y) <= round(1.0);
    }
  }

  /** What the search needs of its coverage holds for whatever was measured. */
  lemma MeasuredIsCumulative(t: Tally, log: seq<Line>, kmax: nat, deepest: nat, round: real -> real, c: Coverage)
    requires Tallies(t, log, kmax) && kmax >= KMAX && Contiguous(t.cond, deepest) && Rounds(round)
    requires |c.s| == |c.h|
    requires forall k :: 0 <= k < |c.h| ==> c.h[k] == RatesAt(t.cond, deepest, round, k) && c.s[k] == c.h[k][0]
    ensures c.Cumulative()
  {
    hide Count, Samples, Latest, Rates, Rounds;
    forall k | 0 <= k < |c.s|
      ensures c.CumulativeAt(k)
    {
      var d := Depth(k, deepest);
      assert d in t.cond && TabulatesAt(t.cond[d], Samples(log), d, true, kmax);
      RatesCumulative(t.cond[d], Samples(log), d, kmax, round);
    }
  }

  /** For every log, every shape's expected length lies between 1 and its spine plus 1. */
  lemma MeasuredExpectation(t: Tally, log: seq<Line>, kmax: nat, deepest: nat, round: real -> real, c: Coverage,
                            widths: seq<nat>)
    requires Tallies(t, log, kmax) && kmax >= KMAX && Contiguous(t.cond, deepest) && Rounds(round)
    requires |c.s| == |c.h| && |widths| <= |c.s|
    requires forall k :: 0 <= k < |c.h| ==> c.h[k] == RatesAt(t.cond, deepest, round, k) && c.s[k] == c.h[k][0]
    ensures Fits(c, widths) && 1.0 <= 1.0 + Accepted(c, widths, |widths|) <= 1.0 + |widths| as real
  {
    hide Tallies, Accepted, Rates;
    MeasuredIsCumulative(t, log, kmax, deepest, round, c);
    ExpectationBounds(c, widths, widths);
  }
}
