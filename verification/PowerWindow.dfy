// Energy of a measured window: the trapezoid rule over the power samples that fall in it.
module PowerWindow {
  import opened Text
  import opened RealArith

  /** One row: averaged and instantaneous power, clock, utilisation, temperature, power cap and power brake. */
  datatype Sample = Sample(t: real, avg: real, instant: Option<real>, clock: Option<real>, util: Option<real>,
                           temp: Option<real>, capped: bool, braked: bool)

  const MIN_TRUSTWORTHY_WINDOW_S: real := 10.0

  // ------------------------------------------------------ selecting and sorting

  function InWindow(rows: seq<Sample>, start: real, end: real): (r: seq<Sample>)
    ensures forall k :: 0 <= k < |r| ==> start <= r[k].t <= end
  {
    if rows == [] then []
    else
      var front, x := InWindow(rows[..|rows| - 1], start, end), rows[|rows| - 1];
      if start <= x.t <= end then front + [x] else front
  }

  predicate Ordered(rows: seq<Sample>) { forall i, j :: 0 <= i < j < |rows| ==> rows[i].t <= rows[j].t }

  /** Stable insertion by time. */
  function Insert(rows: seq<Sample>, x: Sample): (r: seq<Sample>)
    ensures |r| == |rows| + 1
  {
    if rows == [] then [x]
    else
      var front, last := rows[..|rows| - 1], rows[|rows| - 1];
      if last.t <= x.t then rows + [x] else Insert(front, x) + [last]
  }

  function ByTime(rows: seq<Sample>): (r: seq<Sample>)
    ensures |r| == |rows|
  {
    if rows == [] then [] else Insert(ByTime(rows[..|rows| - 1]), rows[|rows| - 1])
  }

  lemma {:induction false} InsertSorts(rows: seq<Sample>, x: Sample)
    requires Ordered(rows)
    ensures Ordered(Insert(rows, x)) && multiset(Insert(rows, x)) == multiset(rows) + multiset{x}
  {
    if rows != [] {
      var front, last := rows[..|rows| - 1], rows[|rows| - 1];
      assert rows == front + [last];
      if x.t < last.t {
        InsertSorts(front, x);
        var r := Insert(front, x);
        hide Insert;
        forall k | 0 <= k < |r|
          ensures r[k].t <= last.t
        {
          assert r[k] in multiset(r);
          assert r[k] == x || r[k] in front;
        }
        OrderedSnoc(r, last);
      }
    }
  }

  lemma OrderedSnoc(rows: seq<Sample>, x: Sample)
    requires Ordered(rows) && forall k :: 0 <= k < |rows| ==> rows[k].t <= x.t
    ensures Ordered(rows + [x])
  {
  }

  /** The sort orders the samples by time and keeps them all. */
  lemma {:induction false} ByTimeSorts(rows: seq<Sample>)
    ensures Ordered(ByTime(rows)) && multiset(ByTime(rows)) == multiset(rows)
  {
    if rows != [] {
      ByTimeSorts(rows[..|rows| - 1]);
      assert rows == rows[..|rows| - 1] + [rows[|rows| - 1]];
      InsertSorts(ByTime(rows[..|rows| - 1]), rows[|rows| - 1]);
    }
  }

  lemma SelectedInWindow(rows: seq<Sample>, start: real, end: real)
    ensures var r := ByTime(InWindow(rows, start, end));
            Ordered(r) && forall k :: 0 <= k < |r| ==> start <= r[k].t <= end
  {
    ByTimeSorts(InWindow(rows, start, end));
    var w := InWindow(rows, start, end);
    var r := ByTime(w);
    forall k | 0 <= k < |r|
      ensures r[k] in w
    {
      assert r[k] in multiset(r);
    }
  }

  // ------------------------------------------------------------------- sums

  function Trapezoid(a: Sample, b: Sample): real { 0.5 * (a.avg + b.avg) * (b.t - a.t) }

  function Energy(rows: seq<Sample>): real
  {
    if |rows| < 2 then 0.0
    else
      var a, b := rows[|rows| - 2], rows[|rows| - 1];
      Energy(rows[..|rows| - 1]) + Trapezoid(a, b)
  }

  function Gaps(rows: seq<Sample>): (g: seq<real>)
    ensures |g| == if |rows| < 2 then 0 else |rows| - 1
  {
    if |rows| < 2 then [] else Gaps(rows[..|rows| - 1]) + [rows[|rows| - 1].t - rows[|rows| - 2].t]
  }

  function Sum(xs: seq<real>): real { if xs == [] then 0.0 else Sum(xs[..|xs| - 1]) + xs[|xs| - 1] }

  function Max(xs: seq<real>): (m: real)
    requires xs != []
    ensures m in xs && forall k :: 0 <= k < |xs| ==> xs[k] <= m
  {
    if |xs| == 1 then xs[0]
    else
      var front, last := Max(xs[..|xs| - 1]), xs[|xs| - 1];
      if front >= last then front else last
  }

  function Min(xs: seq<real>): (m: real)
    requires xs != []
    ensures m in xs && forall k :: 0 <= k < |xs| ==> m <= xs[k]
  {
    if |xs| == 1 then xs[0]
    else
      var front, last := Min(xs[..|xs| - 1]), xs[|xs| - 1];
      if front <= last then front else last
  }

  function Powers(rows: seq<Sample>): (p: seq<real>)
    ensures |p| == |rows|
  {
    seq(|rows|, k requires 0 <= k < |rows| => rows[k].avg)
  }

  /** Average distance between averaged and instantaneous power, over the samples that have both. */
  function Lags(rows: seq<Sample>): seq<real>
  {
    if rows == [] then []
    else
      var x := rows[|rows| - 1];
      Lags(rows[..|rows| - 1]) + if x.instant.Some? then [Abs(x.avg - x.instant.value)] else []
  }

  function Abs(x: real): real { if x < 0.0 then -x else x }

  // ------------------------------------------------------------ the other columns

  /** A column's values where they are known. */
  function Known(rows: seq<Sample>, column: Sample -> Option<real>): seq<real>
  {
    if rows == [] then []
    else
      var x := column(rows[|rows| - 1]);
      Known(rows[..|rows| - 1], column) + if x.Some? then [x.value] else []
  }

  /** Sum over count, 0 when there is nothing to average. */
  function Mean(xs: seq<real>): real { Sum(xs) / (if xs == [] then 1 else |xs|) as real }

  function Active(rows: seq<Sample>, flag: Sample -> bool): (n: nat)
    ensures n <= |rows|
  {
    if rows == [] then 0 else Active(rows[..|rows| - 1], flag) + if flag(rows[|rows| - 1]) then 1 else 0
  }

  function Fraction(rows: seq<Sample>, flag: Sample -> bool): real
    requires rows != []
  {
    Active(rows, flag) as real / |rows| as real
  }

  datatype Side = Side(capFrac: real, brakeFrac: real, clockMean: real, utilMean: real, tempMax: Option<real>)

  function SideOf(r: seq<Sample>): Side
    requires r != []
  {
    var temps := Known(r, (x: Sample) => x.temp);
    Side(Fraction(r, (x: Sample) => x.capped), Fraction(r, (x: Sample) => x.braked),
         Mean(Known(r, (x: Sample) => x.clock)), Mean(Known(r, (x: Sample) => x.util)),
         if temps == [] then None else Some(Max(temps)))
  }

  // ----------------------------------------------------------------- the report

  datatype Reason = ShortWindow | WideGap | LowCoverage

  datatype Report = Unavailable
                  | TooFew(samples: nat, windowS: real)
                  | Measured(energyJ: real, meanW: Option<real>, maxW: real, minW: real, samples: nat, windowS: real,
                             coveredS: real, coverage: Option<real>, maxGapS: real, edgeError: Option<real>,
                             lagW: Option<real>, side: Side, reasons: seq<Reason>)
  {
    predicate Trustworthy() { Measured? && reasons == [] }
  }

  /** Each failed check adds a reason. */
  function ReasonsOf(windowS: real, maxGap: real, coverage: Option<real>, periodS: real): seq<Reason>
  {
    var a := if windowS < MIN_TRUSTWORTHY_WINDOW_S then [ShortWindow] else [];
    var b := if maxGap > 2.0 * periodS then a + [WideGap] else a;
    if coverage.Some? && coverage.value < 0.9 then b + [LowCoverage] else b
  }

  function Covered(r: seq<Sample>): real
    requires |r| >= 1
  {
    r[|r| - 1].t - r[0].t
  }

  function Ratio(x: real, y: real): Option<real> { if y > 0.0 then Some(x / y) else None }

  /** The report on at least two samples in time order. */
  function Assemble(r: seq<Sample>, windowS: real, periodS: real): Report
    requires |r| >= 2
  {
    var covered := Covered(r);
    var coverage := Ratio(covered, windowS);
    var maxGap := Max(Gaps(r));
    Measured(Energy(r), Ratio(Energy(r), covered), Max(Powers(r)), Min(Powers(r)), |r|, windowS, covered, coverage,
      maxGap, Ratio(1.0, windowS), Ratio(Sum(Lags(r)), |Lags(r)| as real), SideOf(r),
      ReasonsOf(windowS, maxGap, coverage, periodS))
  }

  function ReportOf(rows: seq<Sample>, start: real, end: real, periodMs: nat): Report
  {
    var r := ByTime(InWindow(rows, start, end));
    if |r| < 2 then TooFew(|r|, end - start) else Assemble(r, end - start, periodMs as real / 1000.0)
  }

  /** The sampler: the reader thread appends rows, measurements integrate over a snapshot of them. */
  class Sampler {
    var rows: seq<Sample>
    var unavailable: bool
    const periodMs: nat

    constructor (periodMs: nat, found: bool)
      ensures rows == [] && unavailable == !found && this.periodMs == periodMs
    {
      rows := [];
      unavailable := !found;
      this.periodMs := periodMs;
    }

    /** One parsed line of seven fields; a line without averaged power is dropped. */
    method Read(t: real, avg: Option<real>, instant: Option<real>, clock: Option<real>, util: Option<real>,
                temp: Option<real>, capped: bool, braked: bool)
      modifies this`rows
      ensures rows == if avg.None? then old(rows)
                      else old(rows) + [Sample(t, avg.value, instant, clock, util, temp, capped, braked)]
    {
      if avg.Some? { rows := rows + [Sample(t, avg.value, instant, clock, util, temp, capped, braked)]; }
    }

    method Integrate(start: real, end: real) returns (out: Report)
      ensures out == if unavailable then Unavailable else ReportOf(rows, start, end, periodMs)
    {
      hide ByTime, InWindow, Energy, Gaps, Powers, Max, Min, Lags, Sum, SideOf;
      var windowS := end - start;
      if unavailable { return Unavailable; }
      var r := ByTime(InWindow(rows, start, end));
      if |r| < 2 { return TooFew(|r|, windowS); }
      var energyJ, gaps := Trapezoids(r);
      var covered := r[|r| - 1].t - r[0].t;
      var powers, lags := Powers(r), Lags(r);
      var periodS := periodMs as real / 1000.0;
      var coverage := if windowS > 0.0 then Some(covered / windowS) else None;
      var mean := if covered > 0.0 then Some(energyJ / covered) else None;
      var lag := if |lags| as real > 0.0 then Some(Sum(lags) / |lags| as real) else None;
      var reasons: seq<Reason> := [];
      if windowS < MIN_TRUSTWORTHY_WINDOW_S { reasons := [ShortWindow]; }
      if Max(gaps) > 2.0 * periodS { reasons := reasons + [WideGap]; }
      if coverage.Some? && coverage.value < 0.9 { reasons := reasons + [LowCoverage]; }
      var edge := if windowS > 0.0 then Some(1.0 / windowS) else None;
      out := Measured(energyJ, mean, Max(powers), Min(powers), |r|, windowS, covered, coverage, Max(gaps), edge, lag,
        SideOf(r), reasons);
    }
  }

  /** The loop over neighbouring samples. */
  method Trapezoids(rows: seq<Sample>) returns (energyJ: real, gaps: seq<real>)
    requires |rows| >= 2
    ensures energyJ == Energy(rows) && gaps == Gaps(rows)
  {
    energyJ, gaps := 0.0, [];
    for k := 1 to |rows|
      invariant energyJ == Energy(rows[..k]) && gaps == Gaps(rows[..k])
    {
      assert rows[..k + 1][..k] == rows[..k];
      var a, b := rows[k - 1], rows[k];
      var dt := b.t - a.t;
      gaps := gaps + [dt];
      energyJ := energyJ + 0.5 * (a.avg + b.avg) * dt;
    }
    assert rows[..|rows|] == rows;
  }

  // -------------------------------------------------------------------- laws

  /** The gaps sum to the covered time. */
  lemma {:induction false} GapsCover(rows: seq<Sample>)
    requires |rows| >= 1
    ensures Sum(Gaps(rows)) == rows[|rows| - 1].t - rows[0].t
  {
    if |rows| >= 2 {
      GapsCover(rows[..|rows| - 1]);
      var g := Gaps(rows);
      assert g[..|g| - 1] == Gaps(rows[..|rows| - 1]);
    }
  }

  lemma {:induction false} SumBound(xs: seq<real>, most: real)
    requires forall k :: 0 <= k < |xs| ==> xs[k] <= most
    ensures Sum(xs) <= |xs| as real * most
  {
    if xs != [] {
      SumBound(xs[..|xs| - 1], most);
      assert |xs| as real * most == (|xs| - 1) as real * most + most;
    }
  }

  /** The energy lies between the extreme powers times the covered time. */
  lemma {:induction false} EnergyBounds(rows: seq<Sample>, lo: real, hi: real)
    requires |rows| >= 1 && Ordered(rows) && forall k :: 0 <= k < |rows| ==> lo <= rows[k].avg <= hi
    ensures var covered := rows[|rows| - 1].t - rows[0].t; lo * covered <= Energy(rows) <= hi * covered
  {
    hide *;
    if |rows| == 1 {
      NoEnergy(rows, lo, hi);
    } else {
      var front, a, last := rows[..|rows| - 1], rows[|rows| - 2], rows[|rows| - 1];
      FrontOrdered(rows);
      EnergyBounds(front, lo, hi);
      TrapezoidBounds(a, last, lo, hi);
      EnergyStep(rows);
      BoundsAdd(lo, hi, a.t - rows[0].t, last.t - a.t, Energy(front), Trapezoid(a, last), last.t - rows[0].t);
    }
  }

  lemma FrontOrdered(rows: seq<Sample>)
    requires |rows| >= 2 && Ordered(rows)
    ensures var front := rows[..|rows| - 1];
            Ordered(front) && front[0] == rows[0] && front[|front| - 1] == rows[|rows| - 2]
    ensures rows[|rows| - 2].t <= rows[|rows| - 1].t
  {
  }

  lemma EnergyStep(rows: seq<Sample>)
    requires |rows| >= 2
    ensures Energy(rows) == Energy(rows[..|rows| - 1]) + Trapezoid(rows[|rows| - 2], rows[|rows| - 1])
  {
    hide Trapezoid;
  }

  lemma NoEnergy(rows: seq<Sample>, lo: real, hi: real)
    requires |rows| == 1
    ensures var covered := rows[|rows| - 1].t - rows[0].t; lo * covered == Energy(rows) == hi * covered == 0.0
  {
  }

  lemma BoundsAdd(lo: real, hi: real, x: real, y: real, e: real, part: real, z: real)
    requires lo * x <= e <= hi * x && lo * y <= part <= hi * y && z == x + y
    ensures lo * z <= e + part <= hi * z
  {
    assert lo * z == lo * x + lo * y && hi * z == hi * x + hi * y;
  }

  lemma TrapezoidBounds(a: Sample, b: Sample, lo: real, hi: real)
    requires lo <= a.avg <= hi && lo <= b.avg <= hi && b.t >= a.t
    ensures lo * (b.t - a.t) <= Trapezoid(a, b) <= hi * (b.t - a.t)
  {
    var m := 0.5 * (a.avg + b.avg);
    ProductNonNegative(m - lo, b.t - a.t);
    ProductNonNegative(hi - m, b.t - a.t);
  }

  /** Energy is additive when the samples are split at any of them. */
  lemma {:induction false} EnergySplits(rows: seq<Sample>, k: nat)
    requires k < |rows|
    ensures Energy(rows) == Energy(rows[..k + 1]) + Energy(rows[k..])
    decreases |rows|
  {
    var l := |rows| - 1;
    if k < l {
      EnergySplits(rows[..l], k);
      assert rows[..l][..k + 1] == rows[..k + 1] && rows[..l][k..] == rows[k..][..|rows[k..]| - 1];
    } else {
      assert rows[..k + 1] == rows;
    }
  }

  /** The reported mean lies between the reported extremes. */
  lemma MeanWithinExtremes(rows: seq<Sample>, start: real, end: real, periodMs: nat)
    ensures var out := ReportOf(rows, start, end, periodMs);
            out.Measured? ==>
            && 0.0 <= out.coveredS <= out.windowS
            && out.minW * out.coveredS <= out.energyJ <= out.maxW * out.coveredS
            && (out.meanW.Some? <==> out.coveredS > 0.0)
            && (out.meanW.Some? ==> out.minW <= out.meanW.value <= out.maxW)
  {
    hide ByTime, InWindow, Energy, Gaps, Max, Min, Lags, Sum, ReasonsOf;
    var r := ByTime(InWindow(rows, start, end));
    if |r| >= 2 {
      SpanInWindow(rows, start, end);
      ExtremesBound(r);
    }
  }

  lemma ExtremesBound(r: seq<Sample>)
    requires |r| >= 2 && Ordered(r) && Covered(r) >= 0.0
    ensures var lo, hi, covered := Min(Powers(r)), Max(Powers(r)), Covered(r);
            && lo * covered <= Energy(r) <= hi * covered
            && (covered > 0.0 ==> lo <= Energy(r) / covered <= hi)
  {
    hide Energy, Max, Min, Powers, Ordered;
    var powers := Powers(r);
    var lo, hi, covered := Min(powers), Max(powers), Covered(r);
    AveragesWithin(r);
    EnergyBounds(r, lo, hi);
    if covered > 0.0 { Quotient(Energy(r), covered, lo, hi); }
  }

  lemma AveragesWithin(r: seq<Sample>)
    requires r != []
    ensures forall k :: 0 <= k < |r| ==> Min(Powers(r)) <= r[k].avg <= Max(Powers(r))
  {
    hide Max, Min;
    var powers := Powers(r);
    assert forall k :: 0 <= k < |r| ==> powers[k] == r[k].avg;
  }

  lemma SpanInWindow(rows: seq<Sample>, start: real, end: real)
    requires |ByTime(InWindow(rows, start, end))| >= 2
    ensures var r := ByTime(InWindow(rows, start, end)); Ordered(r) && 0.0 <= Covered(r) <= end - start
  {
    hide InWindow, ByTime;
    SelectedInWindow(rows, start, end);
    var r := ByTime(InWindow(rows, start, end));
    var first, last := r[0], r[|r| - 1];
    assert start <= first.t && last.t <= end;
  }

  lemma Quotient(e: real, c: real, lo: real, hi: real)
    requires c > 0.0 && lo * c <= e <= hi * c
    ensures lo <= e / c <= hi
  {
    var q := e / c;
    assert q * c == e;
    Below(q, lo, c);
    Below(hi, q, c);
  }

  lemma Below(a: real, b: real, c: real)
    requires c > 0.0
    ensures a < b ==> a * c < b * c
  {
    if a < b { assert (b - a) * c > 0.0; }
  }

  /** A trustworthy result has at least 1 + 0.45 * window / period samples. */
  lemma TrustNeedsSamples(rows: seq<Sample>, start: real, end: real, periodMs: nat)
    requires periodMs > 0
    ensures var out, periodS := ReportOf(rows, start, end, periodMs), periodMs as real / 1000.0;
            out.Trustworthy() ==> out.samples as real >= 1.0 + 0.45 * out.windowS / periodS
  {
    hide ByTime, InWindow, Energy, Powers, Max, Min, Lags, Sum;
    var out, p := ReportOf(rows, start, end, periodMs), periodMs as real / 1000.0;
    if out.Trustworthy() {
      var r := ByTime(InWindow(rows, start, end));
      var gaps := Gaps(r);
      assert Max(gaps) <= 2.0 * p && out.coverage.Some? && out.coverage.value >= 0.9;
      GapsCover(r);
      SumBound(gaps, 2.0 * p);
      EnoughSamples((|r| - 1) as real, out.windowS, out.coveredS, p);
    }
  }

  lemma EnoughSamples(n: real, w: real, c: real, p: real)
    requires p > 0.0 && w > 0.0 && c <= n * (2.0 * p) && c / w >= 0.9
    ensures n + 1.0 >= 1.0 + 0.45 * w / p
  {
    var f, q := c / w, 0.45 * w / p;
    assert f * w == c && q * p == 0.45 * w;
    ProductNonNegative(f - 0.9, w);
    Below(n, q, p);
  }

  // ------------------------------------------------------- laws of the other columns

  lemma {:induction false} SumBetween(xs: seq<real>, lo: real, hi: real)
    requires forall k :: 0 <= k < |xs| ==> lo <= xs[k] <= hi
    ensures lo * |xs| as real <= Sum(xs) <= hi * |xs| as real
  {
    if xs != [] {
      var l := |xs| - 1;
      SumBetween(xs[..l], lo, hi);
      OneMoreTimes(lo, l);
      OneMoreTimes(hi, l);
    }
  }

  lemma OneMoreTimes(x: real, n: nat)
    ensures x * (n + 1) as real == x * n as real + x
  {
  }

  /** An average lies between the extremes of what it averages. */
  lemma MeanBetween(xs: seq<real>)
    ensures if xs == [] then Mean(xs) == 0.0 else Min(xs) <= Mean(xs) <= Max(xs)
  {
    hide Max, Min;
    if xs == [] {
      assert Sum(xs) == 0.0;
    } else {
      SumBetween(xs, Min(xs), Max(xs));
      Quotient(Sum(xs), |xs| as real, Min(xs), Max(xs));
    }
  }

  lemma FractionBetween(rows: seq<Sample>, flag: Sample -> bool)
    requires rows != []
    ensures 0.0 <= Fraction(rows, flag) <= 1.0
  {
    Quotient(Active(rows, flag) as real, |rows| as real, 0.0, 1.0);
  }

  /** Fractions lie between 0 and 1, means between the extremes of the known values, the peak is one of them. */
  lemma SideInRange(r: seq<Sample>)
    requires r != []
    ensures var side, temps := SideOf(r), Known(r, (x: Sample) => x.temp);
      && 0.0 <= side.capFrac <= 1.0 && 0.0 <= side.brakeFrac <= 1.0
      && (side.tempMax.None? <==> temps == [])
      && (side.tempMax.Some? ==>
            side.tempMax.value in temps && forall k :: 0 <= k < |temps| ==> temps[k] <= side.tempMax.value)
    ensures var clocks := Known(r, (x: Sample) => x.clock);
            if clocks == [] then SideOf(r).clockMean == 0.0 else Min(clocks) <= SideOf(r).clockMean <= Max(clocks)
    ensures var utils := Known(r, (x: Sample) => x.util);
            if utils == [] then SideOf(r).utilMean == 0.0 else Min(utils) <= SideOf(r).utilMean <= Max(utils)
  {
    hide Known, Fraction, Mean, Max, Min;
    FractionBetween(r, (x: Sample) => x.capped);
    FractionBetween(r, (x: Sample) => x.braked);
    MeanBetween(Known(r, (x: Sample) => x.clock));
    MeanBetween(Known(r, (x: Sample) => x.util));
  }
}
