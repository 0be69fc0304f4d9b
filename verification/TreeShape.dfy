// Expected accepted length of speculative trees and chains, from per-depth coverage.
module TreeShape {
  import opened RealArith

  const KMAX: nat := 4
  const HAIRCUT: real := 0.95

  /** Per depth (position 0 is depth 1): top-1 coverage, and cumulative top-1 .. top-4 coverage. */
  datatype Coverage = Coverage(s: seq<real>, h: seq<seq<real>>) {
    /** What measured cumulative coverage satisfies at a depth. */
    ghost predicate CumulativeAt(d: nat)
      requires d < |s| && d < |h|
    {
      && |h[d]| == KMAX && h[d][0] == s[d] && 0.0 <= s[d]
      && (forall i, j :: 0 <= i <= j < KMAX ==> h[d][i] <= h[d][j]) && h[d][KMAX - 1] <= 1.0
    }

    ghost predicate Cumulative() { |s| == |h| && forall d :: 0 <= d < |s| ==> CumulativeAt(d) }
  }

  predicate Fits(c: Coverage, widths: seq<nat>)
  {
    |widths| <= |c.s| && |c.s| == |c.h| && forall d :: 0 <= d < |c.h| ==> |c.h[d]| == KMAX
  }

  /** What the hedges of depth d + 1 add. */
  function Hedge(c: Coverage, widths: seq<nat>, d: nat): real
    requires Fits(c, widths) && d < |widths|
  {
    var w := widths[d];
    if w > 0 then HAIRCUT * (c.h[d][if w < KMAX - 1 then w else KMAX - 1] - c.s[d]) else 0.0
  }

  /** The value of the loop variable once depths d + 1 .. L are done. */
  function Tail(c: Coverage, widths: seq<nat>, d: nat): real
    requires Fits(c, widths) && d <= |widths|
    decreases |widths| - d
  {
    if d == |widths| then 0.0 else c.s[d] * (1.0 + Tail(c, widths, d + 1)) + Hedge(c, widths, d)
  }

  function TailChain(s: seq<real>, n: nat, d: nat): real
    requires d <= n <= |s|
    decreases n - d
  {
    if d == n then 0.0 else s[d] * (1.0 + TailChain(s, n, d + 1))
  }

  method ETree(widths: seq<nat>, c: Coverage) returns (e: real)
    requires Fits(c, widths)
    ensures e == 1.0 + Accepted(c, widths, |widths|)
  {
    e := 0.0;
    for d := |widths| downto 0
      invariant e == Tail(c, widths, d)
    {
      var w := widths[d];
      var hedge := if w > 0 then HAIRCUT * (c.h[d][if w < KMAX - 1 then w else KMAX - 1] - c.s[d]) else 0.0;
      e := c.s[d] * (1.0 + e) + hedge;
    }
    TailIsSum(c, widths);
    e := 1.0 + e;
  }

  method EChain(k: nat, s: seq<real>) returns (e: real)
    requires k >= 1 && k - 1 <= |s|
    ensures e == 1.0 + TailChain(s, k - 1, 0)
  {
    e := 0.0;
    for d := k - 1 downto 0
      invariant e == TailChain(s, k - 1, d)
    {
      e := s[d] * (1.0 + e);
    }
    e := 1.0 + e;
  }

  // -------------------------------------------------------------- closed form

  /** The chance that the first d spine tokens are all accepted. */
  function Reach(s: seq<real>, d: nat): real
    requires d <= |s|
  {
    if d == 0 then 1.0 else Reach(s, d - 1) * s[d - 1]
  }

  /** Sum over depths of the chance to get there times what that depth accepts. */
  function Accepted(c: Coverage, widths: seq<nat>, n: nat): real
    requires Fits(c, widths) && n <= |widths|
  {
    if n == 0 then 0.0
    else Accepted(c, widths, n - 1) + Reach(c.s, n - 1) * (c.s[n - 1] + Hedge(c, widths, n - 1))
  }

  /** What is accepted before depth d, and what is left from there on, weighted by getting there. */
  function Whole(c: Coverage, widths: seq<nat>, d: nat): real
    requires Fits(c, widths) && d <= |widths|
  {
    Accepted(c, widths, d) + Reach(c.s, d) * Tail(c, widths, d)
  }

  lemma {:induction false} WholeIsConstant(c: Coverage, widths: seq<nat>, d: nat)
    requires Fits(c, widths) && d <= |widths|
    ensures Whole(c, widths, d) == Whole(c, widths, 0)
  {
    hide Whole;
    if d > 0 {
      WholeIsConstant(c, widths, d - 1);
      Telescope(c, widths, d - 1);
    }
  }

  lemma Telescope(c: Coverage, widths: seq<nat>, d: nat)
    requires Fits(c, widths) && d < |widths|
    ensures Whole(c, widths, d + 1) == Whole(c, widths, d)
  {
    hide Hedge;
    Regroup(Reach(c.s, d), c.s[d], Tail(c, widths, d + 1), Hedge(c, widths, d), Reach(c.s, d + 1), Tail(c, widths, d));
  }

  lemma WholeEnds(c: Coverage, widths: seq<nat>)
    requires Fits(c, widths)
    ensures Whole(c, widths, 0) == Tail(c, widths, 0)
    ensures Whole(c, widths, |widths|) == Accepted(c, widths, |widths|)
  {
    hide Hedge;
  }

  /** The backward recursion is the forward sum. */
  lemma TailIsSum(c: Coverage, widths: seq<nat>)
    requires Fits(c, widths)
    ensures Tail(c, widths, 0) == Accepted(c, widths, |widths|)
  {
    hide *;
    WholeIsConstant(c, widths, |widths|);
    WholeEnds(c, widths);
  }

  lemma Regroup(r: real, s: real, t: real, h: real, r': real, t': real)
    requires r' == r * s && t' == s * (1.0 + t) + h
    ensures r * (s + h) + r' * t == r * t'
  {
  }

  // -------------------------------------------------------------------- laws

  lemma {:induction false} NoHedgesIsChain(c: Coverage, widths: seq<nat>, d: nat)
    requires Fits(c, widths) && d <= |widths| && forall k :: 0 <= k < |widths| ==> widths[k] == 0
    ensures Tail(c, widths, d) == TailChain(c.s, |widths|, d)
    decreases |widths| - d
  {
    if d < |widths| { NoHedgesIsChain(c, widths, d + 1); }
  }

  /** Without hedges a tree expects what the chain one wider does: a chain's width counts the bonus token. */
  lemma TreeWithoutHedges(c: Coverage, widths: seq<nat>)
    requires Fits(c, widths) && forall k :: 0 <= k < |widths| ==> widths[k] == 0
    ensures 1.0 + Accepted(c, widths, |widths|) == 1.0 + TailChain(c.s, |widths| + 1 - 1, 0)
  {
    NoHedgesIsChain(c, widths, 0);
    TailIsSum(c, widths);
  }

  lemma HedgeGrows(c: Coverage, a: seq<nat>, b: seq<nat>, d: nat)
    requires Fits(c, a) && Fits(c, b) && c.Cumulative() && d < |a| == |b| && a[d] <= b[d]
    ensures 0.0 <= Hedge(c, a, d) <= Hedge(c, b, d) <= 1.0 - c.s[d]
  {
    assert c.CumulativeAt(d);
    var i, j := if a[d] < KMAX - 1 then a[d] else KMAX - 1, if b[d] < KMAX - 1 then b[d] else KMAX - 1;
    assert c.h[d][0] <= c.h[d][i] <= c.h[d][j] <= c.h[d][KMAX - 1];
  }

  /** Widening hedges never lowers the expectation, and every value lies between 0 and the depths left. */
  lemma {:induction false} WideningHelps(c: Coverage, a: seq<nat>, b: seq<nat>, d: nat)
    requires Fits(c, a) && Fits(c, b) && c.Cumulative() && d <= |a| == |b| && forall k :: 0 <= k < |a| ==> a[k] <= b[k]
    ensures 0.0 <= Tail(c, a, d) <= Tail(c, b, d) <= (|b| - d) as real
    decreases |a| - d
  {
    hide Hedge;
    if d < |a| {
      WideningHelps(c, a, b, d + 1);
      HedgeGrows(c, a, b, d);
      assert c.CumulativeAt(d);
      StepBounds(c.s[d], Tail(c, a, d + 1), Tail(c, b, d + 1), Hedge(c, a, d), Hedge(c, b, d), (|b| - d - 1) as real);
      assert (|b| - d) as real == (|b| - d - 1) as real + 1.0;
    }
  }

  lemma StepBounds(s: real, x: real, y: real, g: real, h: real, n: real)
    requires 0.0 <= s <= 1.0 && 0.0 <= x <= y <= n && 0.0 <= g <= h <= 1.0 - s
    ensures 0.0 <= s * (1.0 + x) + g <= s * (1.0 + y) + h <= n + 1.0
  {
    ProductNonNegative(s, x);
    ProductNonNegative(s, y - x);
    ProductNonNegative(1.0 - s, y);
    Expand(s, x, y);
  }

  lemma Expand(s: real, x: real, y: real)
    ensures s * (1.0 + x) == s + s * x && s * (1.0 + y) == s + s * y
    ensures s * (y - x) == s * y - s * x && (1.0 - s) * y == y - s * y
  {
  }

  /** Hence 1 <= E <= 1 + spine length, and widening any hedges never lowers E. */
  lemma ExpectationBounds(c: Coverage, a: seq<nat>, b: seq<nat>)
    requires Fits(c, a) && Fits(c, b) && c.Cumulative() && |a| == |b| && forall k :: 0 <= k < |a| ==> a[k] <= b[k]
    ensures var ea, eb := 1.0 + Accepted(c, a, |a|), 1.0 + Accepted(c, b, |b|);
            1.0 <= ea <= eb <= 1.0 + |b| as real
  {
    WideningHelps(c, a, b, 0);
    TailIsSum(c, a);
    TailIsSum(c, b);
  }

  // ----------------------------------------------------------------- flat form

  /** The product of the first n coverages. */
  function Product(s: seq<real>, n: nat): real
    requires n <= |s|
  {
    if n == 0 then 1.0 else s[n - 1] * Product(s, n - 1)
  }

  lemma {:induction false} ReachIsProduct(s: seq<real>, n: nat)
    requires n <= |s|
    ensures Reach(s, n) == Product(s, n)
  {
    if n > 0 { ReachIsProduct(s, n - 1); }
  }

  /** The sum of the first n products: 1 + s1 + s1*s2 + ... */
  function Products(s: seq<real>, n: nat): real
    requires n <= |s| + 1
  {
    if n == 0 then 0.0 else Products(s, n - 1) + Product(s, n - 1)
  }

  /** A chain of width k expects the sum of its first k products. */
  lemma ChainIsProducts(s: seq<real>, k: nat)
    requires 1 <= k <= |s| + 1
    ensures 1.0 + TailChain(s, k - 1, 0) == Products(s, k)
  {
    ChainFrom(s, k - 1, 0);
    FirstProducts(s);
    hide Product, Products, TailChain;
  }

  lemma FirstProducts(s: seq<real>)
    ensures Products(s, 0) == 0.0 && Product(s, 0) == 1.0 && Products(s, 1) == 1.0
  {
  }

  /** What a chain expects from depth d on, weighted by getting there, is the sum of the products from there on. */
  ghost predicate SumsFrom(s: seq<real>, n: nat, d: nat)
    requires d <= n <= |s|
  {
    Product(s, d) * (1.0 + TailChain(s, n, d)) == Products(s, n + 1) - Products(s, d)
  }

  lemma {:induction false} ChainFrom(s: seq<real>, n: nat, d: nat)
    requires d <= n <= |s|
    ensures SumsFrom(s, n, d)
    decreases n - d
  {
    hide SumsFrom;
    if d == n {
      ChainDone(s, n);
    } else {
      ChainFrom(s, n, d + 1);
      ChainStep(s, n, d);
    }
  }

  lemma ChainDone(s: seq<real>, n: nat)
    requires n <= |s|
    ensures SumsFrom(s, n, n)
  {
  }

  lemma ChainStep(s: seq<real>, n: nat, d: nat)
    requires d < n <= |s| && SumsFrom(s, n, d + 1)
    ensures SumsFrom(s, n, d)
  {
    Unfolded(s, n, d);
    hide Product, Products, TailChain;
    Distribute(Product(s, d), s[d], 1.0 + TailChain(s, n, d + 1));
  }

  lemma Unfolded(s: seq<real>, n: nat, d: nat)
    requires d < n <= |s|
    ensures Product(s, d + 1) == s[d] * Product(s, d) && Products(s, d + 1) == Products(s, d) + Product(s, d)
    ensures TailChain(s, n, d) == s[d] * (1.0 + TailChain(s, n, d + 1))
  {
  }

  lemma Distribute(p: real, s: real, x: real)
    ensures p * (1.0 + s * x) == p + s * p * x
  {
  }

  /** What w hedges add to a depth's coverage: no hedge nothing, one the second rank, and three or more the fourth. */
  function Gain(c: Coverage, d: nat, w: nat): real
    requires d < |c.s| == |c.h| && |c.h[d]| == KMAX
  {
    if w == 0 then 0.0
    else if w == 1 then c.h[d][1] - c.s[d]
    else if w == 2 then c.h[d][2] - c.s[d]
    else c.h[d][3] - c.s[d]
  }

  /** Changing one depth's hedges changes the expectation by 95% of the gain, weighted by reaching that depth. */
  lemma HedgesWorth(c: Coverage, a: seq<nat>, b: seq<nat>, d: nat)
    requires Fits(c, a) && Fits(c, b) && |a| == |b| && d < |a|
    requires forall k :: 0 <= k < |a| && k != d ==> a[k] == b[k]
    ensures Accepted(c, b, |b|) - Accepted(c, a, |a|)
         == Product(c.s, d) * (0.95 * (Gain(c, d, b[d]) - Gain(c, d, a[d])))
  {
    hide Hedge, Gain, Accepted;
    ReachIsProduct(c.s, d);
    HedgeIsGain(c, a, d);
    HedgeIsGain(c, b, d);
    SameButOne(c, a, b, d, |a|);
  }

  lemma HedgeIsGain(c: Coverage, widths: seq<nat>, d: nat)
    requires Fits(c, widths) && d < |widths|
    ensures Hedge(c, widths, d) == 0.95 * Gain(c, d, widths[d])
  {
  }

  lemma {:induction false} SameButOne(c: Coverage, a: seq<nat>, b: seq<nat>, d: nat, n: nat)
    requires Fits(c, a) && Fits(c, b) && |a| == |b| && d < |a| && n <= |a|
    requires forall k :: 0 <= k < |a| && k != d ==> a[k] == b[k]
    ensures Accepted(c, b, n) - Accepted(c, a, n)
         == if n <= d then 0.0 else Reach(c.s, d) * (Hedge(c, b, d) - Hedge(c, a, d))
  {
    hide Reach;
    if n > 0 {
      SameButOne(c, a, b, d, n - 1);
      var r := Reach(c.s, n - 1);
      if n - 1 == d {
        Gap(r, c.s[d], Hedge(c, a, d), Hedge(c, b, d));
      } else {
        assert Hedge(c, a, n - 1) == Hedge(c, b, n - 1);
      }
    }
  }

  lemma Gap(r: real, s: real, x: real, y: real)
    ensures r * (s + y) - r * (s + x) == r * (y - x)
  {
  }
}
