// Vectors of reals: sums, dot products and sums of rows.
module Vectors {

  type Vec = seq<real>

  function Sum(f: int -> real, n: nat): real
  {
    if n == 0 then 0.0 else Sum(f, n - 1) + f(n - 1)
  }

  function Product(a: Vec, b: Vec): int -> real
    requires |a| == |b|
  {
    k => if 0 <= k < |a| then a[k] * b[k] else 0.0
  }

  function Dot(a: Vec, b: Vec): real
    requires |a| == |b|
  {
    Sum(Product(a, b), |a|)
  }

  function AddRow(a: Vec, b: Vec): (c: Vec)
    requires |a| == |b|
    ensures |c| == |a|
  {
    seq(|a|, k requires 0 <= k < |a| => a[k] + b[k])
  }

  function ScaleRow(a: Vec, w: real): (c: Vec)
    ensures |c| == |a|
  {
    seq(|a|, k requires 0 <= k < |a| => a[k] * w)
  }

  lemma {:induction false} SumEqual(f: int -> real, g: int -> real, n: nat)
    requires forall k :: 0 <= k < n ==> f(k) == g(k)
    ensures Sum(f, n) == Sum(g, n)
  {
    if n > 0 { SumEqual(f, g, n - 1); }
  }

  lemma {:induction false} SumShift(f: int -> real, g: int -> real, m: nat, n: nat)
    requires forall k :: 0 <= k < n ==> f(m + k) == g(k)
    ensures Sum(f, m + n) == Sum(f, m) + Sum(g, n)
  {
    if n > 0 { SumShift(f, g, m, n - 1); }
  }

  /** The dot product of concatenations is the sum of the dot products. */
  lemma DotConcat(a: Vec, b: Vec, c: Vec, d: Vec)
    requires |a| == |c| && |b| == |d|
    ensures Dot(a + b, c + d) == Dot(a, c) + Dot(b, d)
  {
    var f := Product(a + b, c + d);
    SumEqual(f, Product(a, c), |a|);
    SumShift(f, Product(b, d), |a|, |b|);
  }

  // ------------------------------------------- what the dot product is, by its laws

  /** The vector with a single 1. */
  function Unit(n: nat, k: nat): (u: Vec)
    ensures |u| == n
  {
    seq(n, i => if i == k then 1.0 else 0.0)
  }

  lemma {:induction false} SumZero(f: int -> real, n: nat)
    requires forall k :: 0 <= k < n ==> f(k) == 0.0
    ensures Sum(f, n) == 0.0
  {
    if n > 0 { SumZero(f, n - 1); }
  }

  lemma {:induction false} SumSingle(f: int -> real, k: nat, n: nat)
    requires k < n && forall i :: 0 <= i < n && i != k ==> f(i) == 0.0
    ensures Sum(f, n) == f(k)
  {
    if k == n - 1 { SumZero(f, n - 1); } else { SumSingle(f, k, n - 1); }
  }

  /** A unit vector reads one entry off. */
  lemma DotUnit(n: nat, k: nat, x: Vec)
    requires |x| == n && k < n
    ensures Dot(Unit(n, k), x) == x[k] && Dot(x, Unit(n, k)) == x[k]
  {
    SumSingle(Product(Unit(n, k), x), k, n);
    SumSingle(Product(x, Unit(n, k)), k, n);
  }

  lemma {:induction false} SumAdd(f: int -> real, g: int -> real, h: int -> real, n: nat)
    requires forall k :: 0 <= k < n ==> h(k) == f(k) + g(k)
    ensures Sum(h, n) == Sum(f, n) + Sum(g, n)
  {
    if n > 0 { SumAdd(f, g, h, n - 1); }
  }

  lemma {:induction false} SumScale(f: int -> real, g: int -> real, c: real, n: nat)
    requires forall k :: 0 <= k < n ==> g(k) == c * f(k)
    ensures Sum(g, n) == c * Sum(f, n)
  {
    if n > 0 { SumScale(f, g, c, n - 1); }
  }

  /** Together with DotUnit this determines the dot product: it is linear. */
  lemma DotLinear(a: Vec, x: Vec, y: Vec, c: real)
    requires |a| == |x| == |y|
    ensures Dot(a, AddRow(x, y)) == Dot(a, x) + Dot(a, y)
    ensures Dot(a, ScaleRow(x, c)) == c * Dot(a, x)
  {
    DotAdds(a, x, y);
    DotScales(a, x, c);
  }

  lemma DotAdds(a: Vec, x: Vec, y: Vec)
    requires |a| == |x| == |y|
    ensures Dot(a, AddRow(x, y)) == Dot(a, x) + Dot(a, y)
  {
    hide Sum;
    var f, g, h := Product(a, x), Product(a, y), Product(a, AddRow(x, y));
    forall k | 0 <= k < |a|
      ensures h(k) == f(k) + g(k)
    {
      EntryLinear(a[k], x[k], y[k], 0.0);
    }
    SumAdd(f, g, h, |a|);
  }

  lemma DotScales(a: Vec, x: Vec, c: real)
    requires |a| == |x|
    ensures Dot(a, ScaleRow(x, c)) == c * Dot(a, x)
  {
    hide Sum;
    var f, g := Product(a, x), Product(a, ScaleRow(x, c));
    forall k | 0 <= k < |a|
      ensures g(k) == c * f(k)
    {
      EntryLinear(a[k], x[k], 0.0, c);
    }
    SumScale(f, g, c, |a|);
  }

  lemma EntryLinear(a: real, x: real, y: real, c: real)
    ensures a * (x + y) == a * x + a * y && a * (x * c) == c * (a * x)
  {
  }
}
