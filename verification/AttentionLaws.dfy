// What norms, MLPs, attention and experts compute, as equations that their results satisfy.
module AttentionLaws {
  import opened Backbone
  import opened RealArith
  import opened Rope
  import opened RopeAngles
  import opened Vectors

  // ------------------------------------------------------------ norm and MLP

  lemma {:induction false} SumSquaresIsDot(x: Vec)
    ensures SumSquares(x) == Dot(x, x)
  {
    if |x| > 0 {
      var l := |x| - 1;
      SumSquaresIsDot(x[..l]);
      SumEqual(Product(x, x), Product(x[..l], x[..l]), l);
    }
  }

  /** Where a root of v is asked for, it is one. */
  ghost predicate RootOf(m: Math, v: real) { m.sqrt(v) * m.sqrt(v) == v }

  /** Every entry times the root mean square is the weighted input entry: its square and its sign say so. */
  lemma NormLaw(model: Model, x: Vec, w: Vec, k: nat)
    requires model.Valid() && |x| == |w| > 0 && k < |x|
    requires RootOf(model.m, Dot(x, x) / |x| as real + model.eps)
    ensures var y, v := RmsNorm(model, x, w)[k], Dot(x, x) / |x| as real + model.eps;
            y * y * v == (w[k] * x[k]) * (w[k] * x[k]) && y * (w[k] * x[k]) >= 0.0 && v > 0.0
  {
    hide Dot, Rms, Model.Valid;
    RmsRoot(model, x);
    MeanSquare(Dot(x, x), |x|);
    Normed(w[k], x[k], Rms(model, x), Dot(x, x) / |x| as real + model.eps);
  }

  lemma RmsRoot(model: Model, x: Vec)
    requires model.Valid() && |x| > 0 && RootOf(model.m, Dot(x, x) / |x| as real + model.eps)
    ensures Dot(x, x) >= 0.0 && model.eps > 0.0
    ensures Rms(model, x) * Rms(model, x) == Dot(x, x) / |x| as real + model.eps
  {
    hide SumSquares, Dot;
    SumSquaresIsDot(x);
  }

  lemma MeanSquare(s: real, n: nat)
    requires s >= 0.0 && n > 0
    ensures s / n as real >= 0.0
  {
  }

  lemma Normed(w: real, x: real, s: real, v: real)
    requires s > 0.0 && s * s == v
    ensures var y := w * (x / s); y * y * v == (w * x) * (w * x) && y * (w * x) >= 0.0
  {
    var y, z := w * (x / s), w * x;
    assert y * s == z by { assert x / s * s == x; }
    assert y * y * v == (y * s) * (y * s);
    assert y * z == y * y * s;
    ProductNonNegative(y * y, s);
  }

  /** A gated MLP: z solves z (1 + exp(-g)) = g u for each unit, and the output is the down projection of z. */
  lemma MlpLaw(model: Model, p: Mlp, x: Vec) returns (z: Vec)
    requires model.Valid() && p.Fits(model.d) && |x| == model.d.hidden
    ensures |z| == p.width
    ensures forall k :: 0 <= k < p.width ==>
      z[k] * (1.0 + model.m.exp(-Dot(p.gate[k], x))) == Dot(p.gate[k], x) * Dot(p.up[k], x)
    ensures |RunMlp(model, p, x)| == model.d.hidden
    ensures forall r :: 0 <= r < model.d.hidden ==> RunMlp(model, p, x)[r] == Dot(p.down[r], z)
  {
    hide Dot;
    var a, u := Apply(p.gate, x), Apply(p.up, x);
    z := seq(p.width, k requires 0 <= k < p.width => Silu(model.m, a[k]) * u[k]);
    forall k | 0 <= k < p.width
      ensures z[k] * (1.0 + model.m.exp(-Dot(p.gate[k], x))) == Dot(p.gate[k], x) * Dot(p.up[k], x)
    {
      assert model.m.exp(-a[k]) > 0.0;
      Gated(a[k], u[k], 1.0 + model.m.exp(-a[k]));
    }
  }

  lemma Gated(a: real, u: real, e: real)
    requires e > 0.0
    ensures (a / e) * u * e == a * u
  {
    var q := a / e;
    assert q * e == a;
    assert q * u * e == (q * e) * u;
  }

  // ---------------------------------------------------------------- attention

  ghost predicate Exponential(m: Math) { forall a, b :: AddsExponent(m, a, b) }

  ghost predicate AddsExponent(m: Math, a: real, b: real) { m.exp(a + b) == m.exp(a) * m.exp(b) }

  function Entry(x: Vec): int -> real { u => if 0 <= u < |x| then x[u] else 0.0 }

  lemma {:induction false} TotalIsSum(e: Vec)
    ensures Total(e) == Sum(Entry(e), |e|)
  {
    if e != [] {
      var l := |e| - 1;
      TotalIsSum(e[..l]);
      SumEqual(Entry(e[..l]), Entry(e), l);
    }
  }

  /** What column k of the value rows contributes under weights w. */
  function Share(w: Vec, vs: seq<Vec>, k: nat): int -> real
    requires |w| == |vs|
  {
    u => if 0 <= u < |w| && k < |vs[u]| then w[u] * vs[u][k] else 0.0
  }

  lemma {:induction false} MixEntry(w: Vec, vs: seq<Vec>, dim: nat, k: nat)
    requires |w| == |vs| && IsMat(vs, |vs|, dim) && k < dim
    ensures Mix(w, vs, dim)[k] == Sum(Share(w, vs, k), |w|)
  {
    if w != [] {
      var l := |w| - 1;
      MixEntry(w[..l], vs[..l], dim, k);
      SumEqual(Share(w[..l], vs[..l], k), Share(w, vs, k), l);
    }
  }

  /** The weight of a key before normalizing: exp of its scaled score. */
  function Force(m: Math, q: Vec, key: Vec, scale: real): real
    requires |key| == |q|
  {
    m.exp(Dot(q, key) * scale)
  }

  function Strength(m: Math, q: Vec, ks: seq<Vec>, scale: real): int -> real
    requires IsMat(ks, |ks|, |q|)
  {
    u => if 0 <= u < |ks| then Force(m, q, ks[u], scale) else 0.0
  }

  function Pull(m: Math, q: Vec, ks: seq<Vec>, vs: seq<Vec>, scale: real, k: nat): int -> real
    requires IsMat(ks, |ks|, |q|) && |vs| == |ks|
  {
    u => if 0 <= u < |ks| && k < |vs[u]| then Force(m, q, ks[u], scale) * vs[u][k] else 0.0
  }

  /** One position's weight and its pull, in terms of what the softmax computes. */
  lemma StrengthEntry(m: Math, q: Vec, ks: seq<Vec>, vs: seq<Vec>, scale: real, dim: nat, k: nat, u: nat)
    requires m.Positive() && Exponential(m) && IsMat(ks, |ks|, |q|) && |vs| == |ks| && IsMat(vs, |vs|, dim)
    requires k < dim && u < |ks|
    ensures var s := Scores(q, ks, |ks| - 1, scale);
      && Max(s).Fin?
      && var e, w, lift := Exps(m, s, Max(s).x), Softmax(m, s), m.exp(Max(s).x);
         && Total(e) > 0.0
         && Strength(m, q, ks, scale)(u) == lift * Entry(e)(u)
         && Pull(m, q, ks, vs, scale, k)(u) == (lift * Total(e)) * Share(w, vs, k)(u)
  {
    hide Dot, Exponential, Math.Positive, Max, Softmax, Total;
    var s := Scores(q, ks, |ks| - 1, scale);
    assert s[|ks| - 1].Fin? && s[u] == Fin(Dot(q, ks[u]) * scale);
    var e, w, lift := Exps(m, s, Max(s).x), Softmax(m, s), m.exp(Max(s).x);
    SoftmaxEntries(m, s);
    Lifted(m, Dot(q, ks[u]) * scale, Max(s).x);
    assert e[u] == m.exp(Dot(q, ks[u]) * scale - Max(s).x) && w[u] == e[u] / Total(e);
    Shares(lift, e[u], Total(e), vs[u][k]);
  }

  /** Unmasked attention: the softmax's shift by the largest score cancels. */
  lemma AttendAll(m: Math, q: Vec, ks: seq<Vec>, vs: seq<Vec>, scale: real, dim: nat, k: nat)
    requires m.Positive() && Exponential(m) && IsMat(ks, |ks|, |q|) && |vs| == |ks| > 0 && IsMat(vs, |vs|, dim)
    requires k < dim
    ensures Attend(m, q, ks, vs, |ks| - 1, scale, dim)[k] * Sum(Strength(m, q, ks, scale), |ks|)
         == Sum(Pull(m, q, ks, vs, scale, k), |ks|)
    ensures Sum(Strength(m, q, ks, scale), |ks|) > 0.0
  {
    hide Dot, Exponential, Math.Positive, Max, Softmax, Total, Exps, Strength, Pull, Entry, Share, Scores, Mix;
    var s := Scores(q, ks, |ks| - 1, scale);
    assert s[|ks| - 1].Fin?;
    StrengthEntry(m, q, ks, vs, scale, dim, k, 0);
    var e, w, lift := Exps(m, s, Max(s).x), Softmax(m, s), m.exp(Max(s).x);
    forall u | 0 <= u < |ks|
      ensures Strength(m, q, ks, scale)(u) == lift * Entry(e)(u)
      ensures Pull(m, q, ks, vs, scale, k)(u) == (lift * Total(e)) * Share(w, vs, k)(u)
    {
      StrengthEntry(m, q, ks, vs, scale, dim, k, u);
    }
    SumScale(Entry(e), Strength(m, q, ks, scale), lift, |ks|);
    SumScale(Share(w, vs, k), Pull(m, q, ks, vs, scale, k), lift * Total(e), |ks|);
    TotalIsSum(e);
    MixEntry(w, vs, dim, k);
    PositiveExp(m, Max(s).x);
    PositiveProduct(lift, Total(e));
    Commute(Sum(Share(w, vs, k), |ks|), lift * Total(e));
  }

  lemma PositiveProduct(a: real, b: real)
    requires a > 0.0 && b > 0.0
    ensures a * b > 0.0
  {
  }

  lemma Commute(a: real, b: real)
    ensures a * b == b * a
  {
  }

  lemma PositiveExp(m: Math, a: real)
    requires m.Positive()
    ensures m.exp(a) > 0.0
  {
  }

  lemma Lifted(m: Math, a: real, b: real)
    requires Exponential(m)
    ensures m.exp(a) == m.exp(b) * m.exp(a - b)
  {
    assert AddsExponent(m, b, a - b);
    var c := b + (a - b);
    assert c == a && m.exp(c) == m.exp(a);
  }

  lemma Shares(lift: real, e: real, total: real, v: real)
    requires total > 0.0
    ensures lift * e * v == (lift * total) * (e / total * v)
  {
    var q := e / total;
    assert q * total == e;
    assert (lift * total) * (q * v) == lift * (q * total) * v;
  }

  lemma PrefixWeights(m: Math, q: Vec, ks: seq<Vec>, vs: seq<Vec>, scale: real, k: nat, n: nat)
    requires IsMat(ks, |ks|, |q|) && |vs| == |ks| && n <= |ks|
    ensures forall u :: 0 <= u < n ==> Strength(m, q, ks[..n], scale)(u) == Strength(m, q, ks, scale)(u)
    ensures forall u :: 0 <= u < n ==> Pull(m, q, ks[..n], vs[..n], scale, k)(u) == Pull(m, q, ks, vs, scale, k)(u)
  {
    hide Force;
    var ks', vs' := ks[..n], vs[..n];
    forall u | 0 <= u < n
      ensures Strength(m, q, ks', scale)(u) == Strength(m, q, ks, scale)(u)
      ensures Pull(m, q, ks', vs', scale, k)(u) == Pull(m, q, ks, vs, scale, k)(u)
    {
      assert ks'[u] == ks[u] && vs'[u] == vs[u];
    }
  }

  /** Attention at t: the average of the value rows up to t, weighted by the exponentials of the scaled scores. */
  lemma AttendLaw(m: Math, q: Vec, ks: seq<Vec>, vs: seq<Vec>, t: nat, scale: real, dim: nat, k: nat)
    requires m.Positive() && Exponential(m) && IsMat(ks, |ks|, |q|) && |vs| == |ks| && IsMat(vs, |vs|, dim) && t < |ks|
    requires k < dim
    ensures Attend(m, q, ks, vs, t, scale, dim)[k] * Sum(Strength(m, q, ks, scale), t + 1)
         == Sum(Pull(m, q, ks, vs, scale, k), t + 1)
    ensures Sum(Strength(m, q, ks, scale), t + 1) > 0.0
  {
    hide Attend, Dot, Exponential, Math.Positive, Strength, Pull;
    AttendPrefix(m, q, ks, vs, t, t + 1, scale, dim);
    AttendAll(m, q, ks[..t + 1], vs[..t + 1], scale, dim, k);
    PrefixWeights(m, q, ks, vs, scale, k, t + 1);
    SumEqual(Strength(m, q, ks[..t + 1], scale), Strength(m, q, ks, scale), t + 1);
    SumEqual(Pull(m, q, ks[..t + 1], vs[..t + 1], scale, k), Pull(m, q, ks, vs, scale, k), t + 1);
  }

  // ------------------------------------------------------ the two scale factors

  /** The score scale is the positive number whose square times the head width is 1. */
  lemma ScoreScale(m: Math, width: real)
    requires m.Positive() && width > 0.0 && Powers(m, width)
    ensures var s := m.pow(width, -0.5); s > 0.0 && s * s * width == 1.0
  {
    var s := m.pow(width, -0.5);
    Exponents(m, width, -0.5, -0.5, -1.0);
    Exponents(m, width, -1.0, 1.0, 0.0);
    PositivePower(m, width, -0.5);
    assert m.pow(width, 0.0) == 1.0 && m.pow(width, 1.0) == width;
  }

  /** The LoRA scale, when it is on, is the positive number whose square times the rank is the hidden size. */
  lemma LoraScaleLaw(m: Math, on: bool, hidden: nat, rank: nat)
    requires m.Positive() && rank > 0 && hidden > 0 && Powers(m, hidden as real / rank as real)
    ensures var s := LoraScale(m, on, hidden, rank);
            s > 0.0 && if on then s * s * rank as real == hidden as real else s == 1.0
  {
    var b := hidden as real / rank as real;
    assert b * rank as real == hidden as real;
    Exponents(m, b, 0.5, 0.5, 1.0);
    PositivePower(m, b, 0.5);
  }

  // ------------------------------------------- heads, queries, keys and values

  lemma HeadOffset(i: nat, n: nat, w: nat, j: nat)
    requires i < n && j < w
    ensures 0 <= i * w + j < n * w
  {
    assert n * w == i * w + w + (n - 1 - i) * w;
    assert (n - 1 - i) * w >= 0;
  }

  lemma {:induction false} HeadsEntry(row: Vec, n: nat, w: nat, i: nat, j: nat)
    requires |row| == n * w && i < n && j < w
    ensures 0 <= i * w + j < |row| && Heads(row, n, w)[i][j] == row[i * w + j]
    decreases n
  {
    HeadOffset(i, n, w, j);
    assert |row| - w == (n - 1) * w;
    if i > 0 {
      HeadsEntry(row[w..], n - 1, w, i - 1, j);
      assert (i - 1) * w + j + w == i * w + j;
    }
  }

  lemma {:induction false} FlattenEntry(hs: seq<Vec>, w: nat, i: nat, j: nat)
    requires IsMat(hs, |hs|, w) && i < |hs| && j < w
    ensures 0 <= i * w + j < |Flatten(hs, w)| && Flatten(hs, w)[i * w + j] == hs[i][j]
    decreases |hs|
  {
    HeadOffset(i, |hs|, w, j);
    if i > 0 {
      FlattenEntry(hs[1..], w, i - 1, j);
      assert (i - 1) * w + j + w == i * w + j;
    }
  }

  /** The normed low-rank query. */
  function LowQuery(model: Model, a: Attention, x: Vec): (z: Vec)
    requires model.Valid() && a.Fits(model.d) && |x| == model.d.hidden
    ensures |z| == model.d.qLora
  {
    RmsNorm(model, seq(model.d.qLora, r requires 0 <= r < model.d.qLora => Dot(a.qa[r], x)), a.qaNorm)
  }

  /** The j-th scaled output that belongs to head n. */
  function HeadOutput(w: Mat, z: Vec, s: real, n: nat, width: nat, j: nat): real
    requires IsMat(w, |w|, |z|)
  {
    if n * width + j < |w| then Dot(w[n * width + j], z) * s else 0.0
  }

  /** A stretch of them. */
  function HeadOutputs(w: Mat, z: Vec, s: real, n: nat, width: nat, lo: nat, len: nat): (row: Vec)
    requires IsMat(w, |w|, |z|)
    ensures |row| == len
  {
    seq(len, j requires 0 <= j < len => HeadOutput(w, z, s, n, width, lo + j))
  }

  /** A head of a projection is a stretch of its outputs. */
  lemma HeadIsOutputs(w: Mat, z: Vec, heads: nat, n: nat, width: nat)
    requires IsMat(w, heads * width, |z|) && n < heads
    ensures |Apply(w, z)| == heads * width
            && Heads(Apply(w, z), heads, width)[n] == HeadOutputs(w, z, 1.0, n, width, 0, width)
  {
    hide Dot, Heads;
    forall j | 0 <= j < width
      ensures Heads(Apply(w, z), heads, width)[n][j] == HeadOutput(w, z, 1.0, n, width, j)
    {
      HeadsEntry(Apply(w, z), heads, width, n, j);
    }
  }

  lemma ScaledOutputs(w: Mat, z: Vec, s: real, n: nat, width: nat, lo: nat, len: nat)
    requires IsMat(w, |w|, |z|) && lo + len <= width
    ensures ScaleRow(HeadOutputs(w, z, 1.0, n, width, 0, width)[lo..lo + len], s)
         == HeadOutputs(w, z, s, n, width, lo, len)
  {
    hide Dot;
    var part, goal := HeadOutputs(w, z, 1.0, n, width, 0, width)[lo..lo + len], HeadOutputs(w, z, s, n, width, lo, len);
    forall j | 0 <= j < len
      ensures ScaleRow(part, s)[j] == goal[j]
    {
      assert part[j] == HeadOutput(w, z, 1.0, n, width, lo + j) && goal[j] == HeadOutput(w, z, s, n, width, lo + j);
      ScaledOutput(w, z, s, n, width, lo + j);
    }
  }

  lemma ScaledOutput(w: Mat, z: Vec, s: real, n: nat, width: nat, j: nat)
    requires IsMat(w, |w|, |z|)
    ensures HeadOutput(w, z, 1.0, n, width, j) * s == HeadOutput(w, z, s, n, width, j)
  {
    hide Dot;
  }

  /** Head n's query: outputs n * (nope + rope) on of q_b on the low-rank query, scaled; the last part turned for t. */
  lemma QueryLaw(model: Model, a: Attention, x: Vec, t: nat, n: nat)
    requires model.Valid() && a.Fits(model.d) && |x| == model.d.hidden && n < model.d.heads
    ensures var d, z, s := model.d, LowQuery(model, a, x),
            LoraScale(model.m, model.scaleQLora, model.d.hidden, model.d.qLora);
            var pass := HeadOutputs(a.qb, z, s, n, d.nope + d.rope, 0, d.nope);
            var rot := HeadOutputs(a.qb, z, s, n, d.nope + d.rope, d.nope, d.rope);
            Queries(model, a, x, t)[n] == pass + Rotated(model.m, model.theta, rot, t)
  {
    hide Dot, RmsNorm, Heads, Rotated, LoraScale, HeadOutputs, ScaleRow, Math.Positive;
    var d, s := model.d, LoraScale(model.m, model.scaleQLora, model.d.hidden, model.d.qLora);
    var z, width := LowQuery(model, a, x), d.nope + d.rope;
    assert Apply(a.qa, x) == seq(d.qLora, r requires 0 <= r < d.qLora => Dot(a.qa[r], x));
    HeadIsOutputs(a.qb, z, d.heads, n, width);
    ScaledOutputs(a.qb, z, s, n, width, 0, d.nope);
    ScaledOutputs(a.qb, z, s, n, width, d.nope, d.rope);
    var head := Heads(Apply(a.qb, z), d.heads, width)[n];
    assert head[0..0 + d.nope] == head[..d.nope] && head[d.nope..d.nope + d.rope] == head[d.nope..];
  }

  /** The latent row: the first kvLora outputs of kv_a, normed and scaled. */
  lemma LatentLaw(model: Model, a: Attention, x: Vec, j: nat)
    requires model.Valid() && a.Fits(model.d) && |x| == model.d.hidden && j < model.d.kvLora
    ensures var d := model.d;
            var low := seq(d.kvLora, r requires 0 <= r < d.kvLora => Dot(a.kva[r], x));
            Latent(model, a, x)[j]
            == RmsNorm(model, low, a.kvaNorm)[j] * LoraScale(model.m, model.scaleKvLora, d.hidden, d.kvLora)
  {
    hide Dot, RmsNorm, LoraScale;
    var d := model.d;
    assert Apply(a.kva, x)[..d.kvLora] == seq(d.kvLora, r requires 0 <= r < d.kvLora => Dot(a.kva[r], x));
  }

  /** Head n's value: the last outputs of its stretch of kv_b on the latent row. */
  lemma ValueLaw(model: Model, a: Attention, x: Vec, n: nat)
    requires model.Valid() && a.Fits(model.d) && |x| == model.d.hidden && n < model.d.heads
    ensures var d, z := model.d, Latent(model, a, x);
            Values(model, a, x)[n] == HeadOutputs(a.kvb, z, 1.0, n, d.nope + d.vHead, d.nope, d.vHead)
  {
    hide Latent, Dot, Heads;
    HeadIsOutputs(a.kvb, Latent(model, a, x), model.d.heads, n, model.d.nope + model.d.vHead);
  }

  /** Head n's key: the first outputs of that stretch, then the turned last outputs of kv_a, the same for every head. */
  lemma KeyLaw(model: Model, a: Attention, x: Vec, t: nat, n: nat)
    requires model.Valid() && a.Fits(model.d) && |x| == model.d.hidden && n < model.d.heads
    ensures var d, z := model.d, Latent(model, a, x);
            var pass := HeadOutputs(a.kvb, z, 1.0, n, d.nope + d.vHead, 0, d.nope);
            var rot := seq(d.rope, r requires 0 <= r < d.rope => Dot(a.kva[d.kvLora + r], x));
            Keys(model, a, x, t)[n] == pass + Rotated(model.m, model.theta, rot, t)
  {
    hide Latent, Rotated, Dot, Heads, Math.Positive;
    var d, z := model.d, Latent(model, a, x);
    HeadIsOutputs(a.kvb, z, d.heads, n, d.nope + d.vHead);
    assert Apply(a.kva, x)[d.kvLora..] == seq(d.rope, r requires 0 <= r < d.rope => Dot(a.kva[d.kvLora + r], x));
    assert KeyValues(model, a, x)[n][..d.nope] == HeadOutputs(a.kvb, z, 1.0, n, d.nope + d.vHead, 0, d.nope);
  }

  /** One head of the attention block, from its queries, keys and values. */
  lemma HeadLaw(model: Model, a: Attention, h: Mat, t: nat, n: nat, k: nat)
    requires model.Valid() && a.Fits(model.d) && IsMat(h, |h|, model.d.hidden) && t < |h| && n < model.d.heads
    requires Exponential(model.m) && k < model.d.vHead
    ensures var q, scale := Queries(model, a, h[t], t)[n], model.m.pow((model.d.nope + model.d.rope) as real, -0.5);
            var ks := seq(|h|, u requires 0 <= u < |h| => Keys(model, a, h[u], u)[n]);
            var vs := seq(|h|, u requires 0 <= u < |h| => Values(model, a, h[u])[n]);
            HeadAt(model, a, h, t, n)[k] * Sum(Strength(model.m, q, ks, scale), t + 1)
            == Sum(Pull(model.m, q, ks, vs, scale, k), t + 1)
  {
    hide Queries, Keys, Values, Attend, Strength, Pull, Exponential;
    var q, scale := Queries(model, a, h[t], t)[n], model.m.pow((model.d.nope + model.d.rope) as real, -0.5);
    AttendLaw(model.m, q, KeyColumn(model, a, h, n), ValueColumn(model, a, h, n), t, scale, model.d.vHead, k);
  }

  /** The heads side by side. */
  ghost predicate SideBySide(hs: seq<Vec>, w: nat, z: Vec)
  {
    |z| == |hs| * w && forall n, j :: 0 <= n < |hs| && 0 <= j < w ==> ReadsHead(hs, w, z, n, j)
  }

  ghost predicate ReadsHead(hs: seq<Vec>, w: nat, z: Vec, n: int, j: int)
    requires 0 <= n < |hs|
  {
    0 <= n * w + j < |z| && 0 <= j < |hs[n]| && z[n * w + j] == hs[n][j]
  }

  lemma FlattenLaw(hs: seq<Vec>, w: nat)
    requires IsMat(hs, |hs|, w)
    ensures SideBySide(hs, w, Flatten(hs, w))
  {
    hide Flatten;
    forall n, j | 0 <= n < |hs| && 0 <= j < w
      ensures ReadsHead(hs, w, Flatten(hs, w), n, j)
    {
      FlattenEntry(hs, w, n, j);
    }
  }

  /** The block's output: o_proj on the heads side by side. */
  lemma MlaLaw(model: Model, a: Attention, h: Mat, t: nat) returns (z: Vec)
    requires model.Valid() && a.Fits(model.d) && IsMat(h, |h|, model.d.hidden) && t < |h|
    ensures SideBySide(seq(model.d.heads, n requires 0 <= n < model.d.heads => HeadAt(model, a, h, t, n)),
            model.d.vHead, z)
    ensures |z| == model.d.heads * model.d.vHead
    ensures forall r :: 0 <= r < model.d.hidden ==> MlaAt(model, a, h, t)[r] == Dot(a.o[r], z)
  {
    hide HeadAt, Dot, Flatten, SideBySide;
    var heads := seq(model.d.heads, n requires 0 <= n < model.d.heads => HeadAt(model, a, h, t, n));
    z := Flatten(heads, model.d.vHead);
    FlattenLaw(heads, model.d.vHead);
  }

  // ------------------------------------------------------------------ experts

  function Finite(logits: Vec): (s: seq<Score>)
    ensures |s| == |logits|
    ensures logits != [] ==> Max(s).Fin?
  {
    var s := seq(|logits|, k requires 0 <= k < |logits| => Fin(logits[k]));
    assert logits != [] ==> s[0].Fin?;
    s
  }

  lemma SoftmaxEntry(m: Math, logits: Vec, i: nat)
    requires m.Positive() && Exponential(m) && i < |logits|
    ensures var s := Finite(logits);
            var es, w, lift := Exps(m, s, Max(s).x), Softmax(m, s), m.exp(Max(s).x);
            Total(es) > 0.0 && w[i] > 0.0 && es[i] == Total(es) * w[i] && m.exp(logits[i]) == lift * es[i]
  {
    hide Exponential, Math.Positive, Max, Softmax, Total;
    var s := Finite(logits);
    SoftmaxEntries(m, s);
    PositiveExp(m, logits[i] - Max(s).x);
    Lifted(m, logits[i], Max(s).x);
    Divided(Exps(m, s, Max(s).x)[i], Total(Exps(m, s, Max(s).x)));
  }

  /** A softmax of finite scores: positive, summing to 1, in the ratios of the exponentials. */
  lemma SoftmaxLaw(m: Math, logits: Vec)
    requires m.Positive() && Exponential(m) && logits != []
    ensures var s := Softmax(m, Finite(logits));
      && Sum(Entry(s), |s|) == 1.0
      && (forall i :: 0 <= i < |s| ==> s[i] > 0.0)
      && forall i, j :: 0 <= i < |s| && 0 <= j < |s| ==> s[i] * m.exp(logits[j]) == s[j] * m.exp(logits[i])
  {
    hide *;
    var fins := Finite(logits);
    var es, s, lift := Exps(m, fins, Max(fins).x), Softmax(m, fins), m.exp(Max(fins).x);
    TotalIsSum(es);
    forall i | 0 <= i < |s|
      ensures s[i] > 0.0 && es[i] == Total(es) * s[i] && m.exp(logits[i]) == lift * es[i] && Total(es) > 0.0
    {
      SoftmaxEntry(m, logits, i);
    }
    assert s[0] > 0.0;
    SharesSum(es, s, Total(es));
    forall i, j | 0 <= i < |s| && 0 <= j < |s|
      ensures s[i] * m.exp(logits[j]) == s[j] * m.exp(logits[i])
    {
      Crosswise(s[i], s[j], Total(es), lift);
    }
  }

  lemma SharesSum(es: Vec, s: Vec, total: real)
    requires |es| == |s| && total > 0.0 && total == Sum(Entry(es), |es|)
    requires forall i :: 0 <= i < |s| ==> es[i] == total * s[i]
    ensures Sum(Entry(s), |s|) == 1.0
  {
    SumScale(Entry(s), Entry(es), total, |s|);
    var all, share := Sum(Entry(es), |s|), Sum(Entry(s), |s|);
    assert all == total;
    assert all == total * share;
    Cancelled(share, total, all);
  }

  /** Router scores are positive, sum to 1, and stand to each other as the exponentials of the logits. */
  lemma ScoreLaw(model: Model, e: Experts, x: Vec)
    requires model.Valid() && e.Fits(model.d) && |x| == model.d.hidden && Exponential(model.m)
    ensures var s, n := RouterScores(model, e, x), model.d.routed + model.d.zero;
      && Sum(Entry(s), n) == 1.0
      && (forall i :: 0 <= i < n ==> s[i] > 0.0)
      && forall i, j :: 0 <= i < n && 0 <= j < n ==>
           s[i] * model.m.exp(Dot(e.router[j], x)) == s[j] * model.m.exp(Dot(e.router[i], x))
  {
    hide Dot, Exponential, Softmax, Max, Entry, Math.Positive;
    var logits := Apply(e.router, x);
    SoftmaxLaw(model.m, logits);
    assert Finite(logits) == seq(|logits|, k requires 0 <= k < |logits| => Fin(logits[k]));
    assert forall i :: 0 <= i < |logits| ==> logits[i] == Dot(e.router[i], x);
  }

  lemma Divided(a: real, b: real)
    requires b > 0.0
    ensures a == b * (a / b) && (a > 0.0 ==> a / b > 0.0)
  {
  }

  lemma Cancelled(s: real, total: real, all: real)
    requires total > 0.0 && all == total && all == total * s
    ensures s == 1.0
  {
    assert total * (s - 1.0) == 0.0;
  }

  lemma Crosswise(p: real, q: real, total: real, c: real)
    ensures p * (c * (total * q)) == q * (c * (total * p))
  {
    assert p * (c * (total * q)) == c * total * (p * q);
    assert q * (c * (total * p)) == c * total * (p * q);
  }

  /** What the choice goes by is the score plus the bias. */
  lemma BiasLaw(model: Model, e: Experts, x: Vec, i: nat)
    requires model.Valid() && e.Fits(model.d) && |x| == model.d.hidden && i < model.d.routed + model.d.zero
    ensures Biased(model, e, x)[i] - RouterScores(model, e, x)[i] == e.bias[i]
  {
    hide RouterScores;
  }

  /** What pick number a of a list contributes to unit k: score, scale, and the row itself past the routed experts. */
  ghost function PickShare(model: Model, e: Experts, x: Vec, picks: seq<nat>, k: nat): int -> real
    requires model.Valid() && e.Fits(model.d) && |x| == model.d.hidden && k < model.d.hidden
    requires forall a :: 0 <= a < |picks| ==> picks[a] < model.d.routed + model.d.zero
  {
    a => if 0 <= a < |picks|
         then RouterScores(model, e, x)[picks[a]] * model.scaleRouted
              * (if picks[a] < model.d.routed then RunMlp(model, e.experts[picks[a]], x)[k] else x[k])
         else 0.0
  }

  lemma {:induction false} ExpertSumEntry(model: Model, e: Experts, x: Vec, picks: seq<nat>, k: nat)
    requires model.Valid() && e.Fits(model.d) && |x| == model.d.hidden && k < model.d.hidden
    requires forall a :: 0 <= a < |picks| ==> picks[a] < model.d.routed + model.d.zero
    ensures ExpertSum(model, e, x, picks)[k] == Sum(PickShare(model, e, x, picks, k), |picks|)
  {
    hide RouterScores, RunMlp, ExpertTerm, PickShare;
    if picks != [] {
      var l := |picks| - 1;
      ExpertSumEntry(model, e, x, picks[..l], k);
      FewerPicks(model, e, x, picks, k);
      SumEqual(PickShare(model, e, x, picks[..l], k), PickShare(model, e, x, picks, k), l);
      LastPick(model, e, x, picks, k);
    }
  }

  lemma FewerPicks(model: Model, e: Experts, x: Vec, picks: seq<nat>, k: nat)
    requires model.Valid() && e.Fits(model.d) && |x| == model.d.hidden && k < model.d.hidden && picks != []
    requires forall a :: 0 <= a < |picks| ==> picks[a] < model.d.routed + model.d.zero
    ensures var l := |picks| - 1;
      forall a :: 0 <= a < l ==> PickShare(model, e, x, picks[..l], k)(a) == PickShare(model, e, x, picks, k)(a)
  {
    hide RouterScores, RunMlp;
  }

  lemma LastPick(model: Model, e: Experts, x: Vec, picks: seq<nat>, k: nat)
    requires model.Valid() && e.Fits(model.d) && |x| == model.d.hidden && k < model.d.hidden && picks != []
    requires forall a :: 0 <= a < |picks| ==> picks[a] < model.d.routed + model.d.zero
    ensures var l := |picks| - 1; ExpertTerm(model, e, x, picks[l])[k] == PickShare(model, e, x, picks, k)(l)
  {
    hide RouterScores, RunMlp;
    var p := picks[|picks| - 1];
    var row := if p < model.d.routed then RunMlp(model, e.experts[p], x) else x;
    Commute(row[k], RouterScores(model, e, x)[p] * model.scaleRouted);
  }

  /** The experts' output: one flat sum over the picks. */
  lemma MoeLaw(model: Model, e: Experts, x: Vec, k: nat)
    requires model.Valid() && e.Fits(model.d) && |x| == model.d.hidden && k < model.d.hidden
    ensures var picks := Picks(model, e, x); MoeAt(model, e, x)[k] == Sum(PickShare(model, e, x, picks, k), |picks|)
  {
    hide Picks, ExpertSum, PickShare;
    ExpertSumEntry(model, e, x, Picks(model, e, x), k);
  }
}
