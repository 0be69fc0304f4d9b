// What the power report means: exact energy for affine power, and when it is to be trusted.
module PowerLaws {
  import opened Text
  import opened RealArith
  import opened PowerWindow

  // ---------------------------------------------------------------- the samples

  /** Selected are the samples of the window, each as often as it was read. */
  lemma {:induction false} SelectedIff(rows: seq<Sample>, start: real, end: real, x: Sample)
    ensures multiset(ByTime(InWindow(rows, start, end)))[x] == if start <= x.t <= end then multiset(rows)[x] else 0
  {
    ByTimeSorts(InWindow(rows, start, end));
    hide ByTime;
    if rows != [] {
      var front, last := rows[..|rows| - 1], rows[|rows| - 1];
      SelectedIff(front, start, end, x);
      ByTimeSorts(InWindow(front, start, end));
      assert rows == front + [last];
    }
  }

  // ----------------------------------------------------------------- the energy

  /** Power on the line p + q*t. */
  ghost predicate Affine(rows: seq<Sample>, p: real, q: real)
  {
    forall k :: 0 <= k < |rows| ==> rows[k].avg == p + q * rows[k].t
  }

  /** For power affine in time the energy is exact: the integral of p + q*t over the covered time. */
  lemma {:induction false} AffineExact(rows: seq<Sample>, p: real, q: real)
    requires rows != [] && Affine(rows, p, q)
    ensures var a, b := rows[0].t, rows[|rows| - 1].t; Energy(rows) == p * (b - a) + q * (b * b - a * a) * 0.5
  {
    hide Trapezoid, Energy;
    if |rows| == 1 {
      NoEnergy(rows, 0.0, 0.0);
      assert rows[0].t == rows[|rows| - 1].t;
      Zeros(p, q, rows[0].t);
    } else {
      var front, x, y := rows[..|rows| - 1], rows[|rows| - 2], rows[|rows| - 1];
      assert front[0] == rows[0] && front[|front| - 1] == x;
      AffineExact(front, p, q);
      EnergyStep(rows);
      OneTrapezoid(x, y, p, q);
      IntegralAdds(p, q, rows[0].t, x.t, y.t);
    }
  }

  lemma Zeros(p: real, q: real, a: real)
    ensures p * (a - a) + q * (a * a - a * a) * 0.5 == 0.0
  {
    var z := a * a;
    assert p * 0.0 == 0.0 && q * 0.0 == 0.0;
    assert z - z == 0.0 && a - a == 0.0;
  }

  lemma OneTrapezoid(x: Sample, y: Sample, p: real, q: real)
    requires x.avg == p + q * x.t && y.avg == p + q * y.t
    ensures Trapezoid(x, y) == p * (y.t - x.t) + q * (y.t * y.t - x.t * x.t) * 0.5
  {
    var s, d := x.t + y.t, y.t - x.t;
    assert x.avg + y.avg == 2.0 * p + q * s;
    assert Trapezoid(x, y) == 0.5 * (2.0 * p + q * s) * d;
    Spread(p, q, s, d);
    Squares(x.t, y.t);
  }

  lemma Spread(p: real, q: real, s: real, d: real)
    ensures 0.5 * (2.0 * p + q * s) * d == p * d + q * (s * d) * 0.5
  {
    assert (q * s) * d == q * (s * d);
  }

  lemma Squares(x: real, y: real)
    ensures (x + y) * (y - x) == y * y - x * x
  {
  }

  lemma IntegralAdds(p: real, q: real, a: real, b: real, c: real)
    ensures p * (b - a) + q * (b * b - a * a) * 0.5 + (p * (c - b) + q * (c * c - b * b) * 0.5)
         == p * (c - a) + q * (c * c - a * a) * 0.5
  {
    var u, v, w := a * a, b * b, c * c;
    assert q * (v - u) + q * (w - v) == q * (w - u);
    assert p * (b - a) + p * (c - b) == p * (c - a);
  }

  // ----------------------------------------------------------------- the report

  lemma {:induction false} GapAt(rows: seq<Sample>, k: nat)
    requires k + 1 < |rows|
    ensures |Gaps(rows)| == |rows| - 1 && Gaps(rows)[k] == rows[k + 1].t - rows[k].t
  {
    if k + 2 < |rows| { GapAt(rows[..|rows| - 1], k); }
  }

  ghost function Having(rows: seq<Sample>, flag: Sample -> bool): set<int> { set k | 0 <= k < |rows| && flag(rows[k]) }

  lemma {:induction false} ActiveCounts(rows: seq<Sample>, flag: Sample -> bool)
    ensures Active(rows, flag) == |Having(rows, flag)|
  {
    if rows == [] {
      assert Having(rows, flag) == {};
    } else {
      var l := |rows| - 1;
      ActiveCounts(rows[..l], flag);
      assert Having(rows, flag) == if flag(rows[l]) then Having(rows[..l], flag) + {l} else Having(rows[..l], flag);
    }
  }

  /** Powers and gaps are those of some sample and some pair of neighbours, and no other exceeds them. */
  ghost predicate Extremes(r: seq<Sample>, out: Report)
    requires out.Measured?
  {
    && (exists k :: 0 <= k < |r| && r[k].avg == out.maxW) && (exists k :: 0 <= k < |r| && r[k].avg == out.minW)
    && (forall k :: 0 <= k < |r| ==> out.minW <= r[k].avg <= out.maxW)
    && (exists k :: 0 < k < |r| && r[k].t - r[k - 1].t == out.maxGapS)
    && forall k :: 0 < k < |r| ==> r[k].t - r[k - 1].t <= out.maxGapS
  }

  /** The ratios, where they can be formed. */
  ghost predicate Ratios(r: seq<Sample>, out: Report)
    requires r != [] && out.Measured?
  {
    && out.coveredS == r[|r| - 1].t - r[0].t
    && (out.meanW.Some? <==> out.coveredS > 0.0) && (out.meanW.Some? ==> out.meanW.value * out.coveredS == out.energyJ)
    && (out.coverage.Some? <==> out.windowS > 0.0)
    && (out.coverage.Some? ==> out.coverage.value * out.windowS == out.coveredS)
    && (out.edgeError.Some? <==> out.windowS > 0.0)
    && (out.edgeError.Some? ==> out.edgeError.value * out.windowS == 1.0)
    && out.side.capFrac * |r| as real == |Having(r, (x: Sample) => x.capped)| as real
    && out.side.brakeFrac * |r| as real == |Having(r, (x: Sample) => x.braked)| as real
  }

  lemma ReportWritten(rows: seq<Sample>, start: real, end: real, periodMs: nat)
    ensures var r, out := ByTime(InWindow(rows, start, end)), ReportOf(rows, start, end, periodMs);
      && (out.Measured? <==> |r| >= 2)
      && (out.Measured? ==>
           && out.samples == |r| && out.windowS == end - start && out.energyJ == Energy(r)
           && Extremes(r, out) && Ratios(r, out))
  {
    hide *;
    var r := ByTime(InWindow(rows, start, end));
    Unfold(rows, start, end, periodMs);
    if |r| >= 2 {
      ExtremesLaw(r, end - start, periodMs as real / 1000.0);
      RatiosLaw(r, end - start, periodMs as real / 1000.0);
    }
  }

  lemma Unfold(rows: seq<Sample>, start: real, end: real, periodMs: nat)
    ensures var r, out := ByTime(InWindow(rows, start, end)), ReportOf(rows, start, end, periodMs);
      && (out.Measured? <==> |r| >= 2)
      && (|r| >= 2 ==>
           && out == Assemble(r, end - start, periodMs as real / 1000.0)
           && out.samples == |r| && out.windowS == end - start && out.energyJ == Energy(r))
  {
    hide ByTime, InWindow, Energy, Max, Min, Gaps, Lags, SideOf, ReasonsOf, Sum, Powers;
  }

  lemma ExtremesLaw(r: seq<Sample>, windowS: real, periodS: real)
    requires |r| >= 2
    ensures Extremes(r, Assemble(r, windowS, periodS))
  {
    hide Energy, Max, Min, Gaps, Lags, SideOf, ReasonsOf, Sum;
    var powers, gaps := Powers(r), Gaps(r);
    forall k: int | 0 < k < |r|
      ensures gaps[k - 1] == r[k].t - r[k - 1].t
    {
      GapAt(r, k - 1);
    }
    var i, j, g :| 0 <= i < |r| && powers[i] == Max(powers) && 0 <= j < |r| && powers[j] == Min(powers)
        && 0 <= g < |gaps| && gaps[g] == Max(gaps);
    assert r[i].avg == Max(powers) && r[j].avg == Min(powers);
    assert gaps[g + 1 - 1] == r[g + 1].t - r[g + 1 - 1].t;
    forall k | 0 <= k < |r|
      ensures Min(powers) <= r[k].avg <= Max(powers)
    {
      assert powers[k] == r[k].avg;
    }
  }

  lemma RatiosLaw(r: seq<Sample>, windowS: real, periodS: real)
    requires |r| >= 2
    ensures Ratios(r, Assemble(r, windowS, periodS))
  {
    hide Energy, Max, Min, Gaps, Lags, ReasonsOf, Sum, Powers, Active, Having, Known, Mean;
    var out := Assemble(r, windowS, periodS);
    var capped, braked := (x: Sample) => x.capped, (x: Sample) => x.braked;
    ActiveCounts(r, capped);
    ActiveCounts(r, braked);
    Undo(Active(r, capped) as real, |r| as real);
    Undo(Active(r, braked) as real, |r| as real);
    if windowS > 0.0 {
      Undo(out.coveredS, windowS);
      Undo(1.0, windowS);
    }
    if out.coveredS > 0.0 { Undo(out.energyJ, out.coveredS); }
  }

  lemma Undo(x: real, y: real)
    requires y > 0.0
    ensures x / y * y == x
  {
  }

  // ---------------------------------------------------------------------- trust

  /**
   * A report is to be trusted exactly when the window is at least ten seconds, no two neighbouring samples are
   * more than two periods apart, and the samples span nine tenths of the window.
   */
  lemma TrustIff(rows: seq<Sample>, start: real, end: real, periodMs: nat)
    ensures var r := ByTime(InWindow(rows, start, end));
      ReportOf(rows, start, end, periodMs).Trustworthy() <==>
        && |r| >= 2 && end - start >= 10.0
        && (forall k :: 0 < k < |r| ==> r[k].t - r[k - 1].t <= 2.0 * (periodMs as real / 1000.0))
        && r[|r| - 1].t - r[0].t >= 0.9 * (end - start)
  {
    hide ByTime, InWindow, Energy, Max, Min, Gaps, Lags, SideOf, Sum, Powers, Extremes, Ratios, ReportOf, Assemble,
        ReasonsOf;
    var r, out, p := ByTime(InWindow(rows, start, end)), ReportOf(rows, start, end, periodMs),
        periodMs as real / 1000.0;
    Unfold(rows, start, end, periodMs);
    ReportWritten(rows, start, end, periodMs);
    if |r| >= 2 {
      ReasonsFor(r, end - start, p);
      WithinGap(r, out, 2.0 * p);
      CoverageOf(r, out);
      if end - start >= 10.0 {
        Share(out.coverage.value, end - start, r[|r| - 1].t - r[0].t);
      }
    }
  }

  lemma WithinGap(r: seq<Sample>, out: Report, most: real)
    requires out.Measured? && Extremes(r, out)
    ensures out.maxGapS <= most <==> forall k :: 0 < k < |r| ==> r[k].t - r[k - 1].t <= most
  {
  }

  lemma CoverageOf(r: seq<Sample>, out: Report)
    requires r != [] && out.Measured? && Ratios(r, out)
    ensures (out.coverage.Some? <==> out.windowS > 0.0)
    ensures out.coverage.Some? ==> out.coverage.value * out.windowS == r[|r| - 1].t - r[0].t
  {
  }

  lemma ReasonsFor(r: seq<Sample>, windowS: real, periodS: real)
    requires |r| >= 2
    ensures var out := Assemble(r, windowS, periodS);
      && (ShortWindow in out.reasons <==> windowS < 10.0)
      && (WideGap in out.reasons <==> out.maxGapS > 2.0 * periodS)
      && (LowCoverage in out.reasons <==> out.coverage.Some? && out.coverage.value < 0.9)
      && (out.reasons == [] <==>
           ShortWindow !in out.reasons && WideGap !in out.reasons && LowCoverage !in out.reasons)
  {
    hide Energy, Max, Min, Gaps, Lags, SideOf, Sum, Powers;
    var out := Assemble(r, windowS, periodS);
    assert out.reasons == [] || out.reasons[0] in out.reasons;
  }

  lemma Share(share: real, w: real, c: real)
    requires w > 0.0 && share * w == c
    ensures share >= 0.9 <==> c >= 0.9 * w
  {
    if share >= 0.9 { ProductNonNegative(share - 0.9, w); } else { Below(share, 0.9, w); }
  }

  // -------------------------------------------------------------- steady columns

  /** Lag: averaged and instantaneous power c apart wherever both are known average to c; none known, no lag. */
  lemma LagLaw(r: seq<Sample>, windowS: real, periodS: real, c: real)
    requires |r| >= 2
    requires forall k :: 0 <= k < |r| && r[k].instant.Some? ==>
               r[k].avg - r[k].instant.value == c || r[k].instant.value - r[k].avg == c
    requires c >= 0.0
    ensures Assemble(r, windowS, periodS).lagW
         == if exists k :: 0 <= k < |r| && r[k].instant.Some? then Some(c) else None
  {
    hide Energy, Max, Min, Gaps, SideOf, ReasonsOf, Powers, Lags, Sum;
    SteadyLags(r, c);
    var lags := Lags(r);
    if lags != [] {
      SumBetween(lags, c, c);
      Quotient(Sum(lags), |lags| as real, c, c);
    }
  }

  lemma {:induction false} SteadyLags(r: seq<Sample>, c: real)
    requires forall k :: 0 <= k < |r| && r[k].instant.Some? ==>
               r[k].avg - r[k].instant.value == c || r[k].instant.value - r[k].avg == c
    requires c >= 0.0
    ensures (Lags(r) == [] <==> forall k :: 0 <= k < |r| ==> r[k].instant.None?)
    ensures forall k :: 0 <= k < |Lags(r)| ==> Lags(r)[k] == c
  {
    if r != [] { SteadyLags(r[..|r| - 1], c); }
  }

  /** The averaged columns and the peak range over exactly the values that some sample has. */
  lemma {:induction false} KnownIff(rows: seq<Sample>, column: Sample -> Option<real>, v: real)
    ensures v in Known(rows, column) <==> exists k :: 0 <= k < |rows| && column(rows[k]) == Some(v)
  {
    if rows != [] {
      var l := |rows| - 1;
      KnownIff(rows[..l], column, v);
      if k :| 0 <= k < l && column(rows[k]) == Some(v) { assert column(rows[..l][k]) == Some(v); }
    }
  }
}
