// The LongCat reference backbone over the reals: dual-sublayer decoder layers with masked latent
// attention, dense MLPs and a shortcut mixture of experts added at the end of each layer.
module Backbone {
  import opened Rope
  import opened Vectors

  type Mat = seq<Vec>

  predicate IsMat(w: Mat, rows: nat, cols: nat)
  {
    |w| == rows && forall r :: 0 <= r < |w| ==> |w[r]| == cols
  }

  datatype Dims = Dims(hidden: nat, heads: nat, nope: nat, rope: nat, vHead: nat, qLora: nat, kvLora: nat,
                       routed: nat, zero: nat, topk: nat)
  {
    predicate Valid() { hidden > 0 && qLora > 0 && kvLora > 0 && nope + rope > 0 && rope % 2 == 0 }
  }

  datatype Attention = Attention(qa: Mat, qaNorm: Vec, qb: Mat, kva: Mat, kvaNorm: Vec, kvb: Mat, o: Mat) {
    predicate Fits(d: Dims)
    {
      && IsMat(qa, d.qLora, d.hidden) && |qaNorm| == d.qLora && IsMat(qb, d.heads * (d.nope + d.rope), d.qLora)
      && IsMat(kva, d.kvLora + d.rope, d.hidden) && |kvaNorm| == d.kvLora
      && IsMat(kvb, d.heads * (d.nope + d.vHead), d.kvLora) && IsMat(o, d.hidden, d.heads * d.vHead)
    }
  }

  datatype Mlp = Mlp(gate: Mat, up: Mat, down: Mat, width: nat) {
    predicate Fits(d: Dims)
    {
      IsMat(gate, width, d.hidden) && IsMat(up, width, d.hidden) && IsMat(down, d.hidden, width)
    }
  }

  datatype Experts = Experts(router: Mat, bias: Vec, experts: seq<Mlp>) {
    predicate Fits(d: Dims)
    {
      && IsMat(router, d.routed + d.zero, d.hidden) && |bias| == d.routed + d.zero && d.routed + d.zero > 0
      && |experts| == d.routed && forall e :: 0 <= e < |experts| ==> experts[e].Fits(d)
    }
  }

  datatype Layer = Layer(in0: Vec, attn0: Attention, post0: Vec, mlp0: Mlp, moe: Experts,
                         in1: Vec, attn1: Attention, post1: Vec, mlp1: Mlp)
  {
    predicate Fits(d: Dims)
    {
      && |in0| == |post0| == |in1| == |post1| == d.hidden
      && attn0.Fits(d) && attn1.Fits(d) && mlp0.Fits(d) && mlp1.Fits(d) && moe.Fits(d)
    }
  }

  /** order sorts indices by value; ties are broken in an unspecified, fixed way. */
  datatype Model = Model(m: Math, d: Dims, eps: real, theta: real, scaleRouted: real, scaleQLora: bool,
                         scaleKvLora: bool,
                         order: seq<real> -> seq<nat>, layers: seq<Layer>, finalNorm: Vec, lmHead: Mat)
  {
    ghost predicate Valid()
    {
      && m.Positive() && d.Valid() && eps > 0.0
      && (forall s :: Sorts(order(s), s))
      && (forall l :: 0 <= l < |layers| ==> layers[l].Fits(d))
      && |finalNorm| == d.hidden && IsMat(lmHead, |lmHead|, d.hidden)
    }
  }

  /** o lists every index of s once, by increasing value. */
  ghost predicate Sorts(o: seq<nat>, s: seq<real>)
  {
    && |o| == |s| && (forall k :: 0 <= k < |o| ==> o[k] < |s|) && (forall i :: 0 <= i < |s| ==> i in o)
    && forall a, b :: 0 <= a < b < |o| ==> o[a] != o[b] && s[o[a]] <= s[o[b]]
  }

  // ------------------------------------------------------- row operations

  function Apply(w: Mat, x: Vec): (y: Vec)
    requires IsMat(w, |w|, |x|)
    ensures |y| == |w|
  {
    seq(|w|, r requires 0 <= r < |w| => Dot(w[r], x))
  }

  function Zeros(n: nat): (z: Vec)
    ensures |z| == n
  {
    seq(n, k => 0.0)
  }

  function SumSquares(x: Vec): (r: real)
    ensures r >= 0.0
  {
    if |x| == 0 then 0.0 else SumSquares(x[..|x| - 1]) + x[|x| - 1] * x[|x| - 1]
  }

  /** The root mean square. */
  function Rms(model: Model, x: Vec): (scale: real)
    requires model.Valid() && |x| > 0
    ensures scale > 0.0
  {
    var v := SumSquares(x) / |x| as real + model.eps;
    assert v > 0.0;
    model.m.sqrt(v)
  }

  function RmsNorm(model: Model, x: Vec, w: Vec): (y: Vec)
    requires model.Valid() && |x| == |w| > 0
    ensures |y| == |x|
  {
    var scale := Rms(model, x);
    seq(|x|, k requires 0 <= k < |x| => w[k] * (x[k] / scale))
  }

  function Silu(m: Math, a: real): real
    requires m.Positive()
  {
    a / (1.0 + m.exp(-a))
  }

  function RunMlp(model: Model, p: Mlp, x: Vec): (y: Vec)
    requires model.Valid() && p.Fits(model.d) && |x| == model.d.hidden
    ensures |y| == model.d.hidden
  {
    var a, u := Apply(p.gate, x), Apply(p.up, x);
    Apply(p.down, seq(p.width, k requires 0 <= k < p.width => Silu(model.m, a[k]) * u[k]))
  }

  // ------------------------------------------------------ softmax with a mask

  /** An attention score: a number, or minus infinity where the mask forbids the pair. */
  datatype Score = NegInf | Fin(x: real)

  function Max2(a: Score, b: Score): Score
  {
    if a.NegInf? then b else if b.NegInf? then a else Fin(if a.x >= b.x then a.x else b.x)
  }

  function Max(s: seq<Score>): (r: Score)
    ensures r.Fin? <==> exists u :: 0 <= u < |s| && s[u].Fin?
  {
    if s == [] then NegInf else Max2(Max(s[..|s| - 1]), s[|s| - 1])
  }

  /** exp(score - largest), where exp(-inf) is 0. */
  function ExpShifted(m: Math, s: Score, largest: real): real
  {
    match s
    case NegInf => 0.0
    case Fin(x) => m.exp(x - largest)
  }

  function Exps(m: Math, s: seq<Score>, largest: real): (e: Vec)
    ensures |e| == |s|
  {
    seq(|s|, u requires 0 <= u < |s| => ExpShifted(m, s[u], largest))
  }

  function Total(e: Vec): real
  {
    if e == [] then 0.0 else Total(e[..|e| - 1]) + e[|e| - 1]
  }

  lemma {:induction false} TotalPositive(m: Math, s: seq<Score>, largest: real)
    requires m.Positive()
    ensures Total(Exps(m, s, largest)) >= 0.0
    ensures Max(s).Fin? ==> Total(Exps(m, s, largest)) > 0.0
  {
    if s != [] {
      var front := s[..|s| - 1];
      TotalPositive(m, front, largest);
      assert Exps(m, s, largest)[..|s| - 1] == Exps(m, front, largest);
    }
  }

  function Softmax(m: Math, s: seq<Score>): (w: Vec)
    requires m.Positive() && Max(s).Fin?
    ensures |w| == |s|
  {
    TotalPositive(m, s, Max(s).x);
    var e := Exps(m, s, Max(s).x);
    seq(|e|, u requires 0 <= u < |e| => e[u] / Total(e))
  }

  /** The weighted sum of the value rows. */
  function Mix(w: Vec, vs: seq<Vec>, dim: nat): (r: Vec)
    requires |w| == |vs| && IsMat(vs, |vs|, dim)
    ensures |r| == dim
  {
    if w == [] then Zeros(dim)
    else AddRow(Mix(w[..|w| - 1], vs[..|vs| - 1], dim), ScaleRow(vs[|vs| - 1], w[|w| - 1]))
  }

  function Scores(q: Vec, ks: seq<Vec>, t: nat, scale: real): (s: seq<Score>)
    requires IsMat(ks, |ks|, |q|)
    ensures |s| == |ks|
    ensures t < |ks| ==> s[t].Fin?
  {
    seq(|ks|, u requires 0 <= u < |ks| => if u > t then NegInf else Fin(Dot(q, ks[u]) * scale))
  }

  /** What one head reads at position t from all keys and values, those after t masked. */
  function Attend(m: Math, q: Vec, ks: seq<Vec>, vs: seq<Vec>, t: nat, scale: real, dim: nat): (r: Vec)
    requires m.Positive() && IsMat(ks, |ks|, |q|) && |vs| == |ks| && IsMat(vs, |vs|, dim) && t < |ks|
    ensures |r| == dim
  {
    Mix(Softmax(m, Scores(q, ks, t, scale)), vs, dim)
  }

  lemma ZeroShare(total: real)
    requires total > 0.0
    ensures 0.0 / total == 0.0
  {
  }

  lemma SoftmaxEntries(m: Math, s: seq<Score>)
    requires m.Positive() && Max(s).Fin?
    ensures var e := Exps(m, s, Max(s).x);
            Total(e) > 0.0 && forall u :: 0 <= u < |s| ==> Softmax(m, s)[u] == e[u] / Total(e)
  {
    hide Exps, Total;
    TotalPositive(m, s, Max(s).x);
  }

  /** A masked last score changes no other weight and weighs nothing itself. */
  lemma SoftmaxMasked(m: Math, s: seq<Score>)
    requires m.Positive() && Max(s).Fin?
    ensures Max(s + [NegInf]) == Max(s)
    ensures Softmax(m, s + [NegInf]) == Softmax(m, s) + [0.0]
  {
    var s' := s + [NegInf];
    assert s'[..|s|] == s;
    var e, e' := Exps(m, s, Max(s).x), Exps(m, s', Max(s).x);
    assert e' == e + [0.0];
    assert e'[..|e|] == e;
    assert Total(e') == Total(e);
    SoftmaxEntries(m, s);
    SoftmaxEntries(m, s');
    ZeroShare(Total(e));
    hide *;
    forall u | 0 <= u < |s'|
      ensures Softmax(m, s')[u] == (Softmax(m, s) + [0.0])[u]
    {
      assert e'[u] == if u < |s| then e[u] else 0.0;
    }
  }

  lemma MixMasked(w: Vec, vs: seq<Vec>, v: Vec, dim: nat)
    requires |w| == |vs| && IsMat(vs, |vs|, dim) && |v| == dim
    ensures Mix(w + [0.0], vs + [v], dim) == Mix(w, vs, dim)
  {
    assert (w + [0.0])[..|w|] == w && (vs + [v])[..|vs|] == vs;
    assert ScaleRow(v, 0.0) == Zeros(dim);
    assert AddRow(Mix(w, vs, dim), Zeros(dim)) == Mix(w, vs, dim);
  }

  lemma AttendMasked(m: Math, q: Vec, ks: seq<Vec>, vs: seq<Vec>, k: Vec, v: Vec, t: nat, scale: real, dim: nat)
    requires m.Positive() && IsMat(ks, |ks|, |q|) && |vs| == |ks| && IsMat(vs, |vs|, dim) && t < |ks|
    requires |k| == |q| && |v| == dim
    ensures Attend(m, q, ks + [k], vs + [v], t, scale, dim) == Attend(m, q, ks, vs, t, scale, dim)
  {
    var s := Scores(q, ks, t, scale);
    var s' := Scores(q, ks + [k], t, scale);
    assert forall u :: 0 <= u < |ks| ==> (ks + [k])[u] == ks[u] && s'[u] == s[u];
    assert s' == s + [NegInf];
    assert s[t].Fin?;
    SoftmaxMasked(m, s);
    MixMasked(Softmax(m, s), vs, v, dim);
  }

  /** Position t reads nothing beyond position t. */
  lemma {:induction false} AttendPrefix(m: Math, q: Vec, ks: seq<Vec>, vs: seq<Vec>, t: nat, n: nat, scale: real,
                                        dim: nat)
    requires m.Positive() && IsMat(ks, |ks|, |q|) && |vs| == |ks| && IsMat(vs, |vs|, dim) && t < n <= |ks|
    ensures Attend(m, q, ks[..n], vs[..n], t, scale, dim) == Attend(m, q, ks, vs, t, scale, dim)
    decreases |ks|
  {
    if n == |ks| {
      assert ks[..n] == ks && vs[..n] == vs;
    } else {
      var l := |ks| - 1;
      var ks', vs' := ks[..l], vs[..l];
      AttendPrefix(m, q, ks', vs', t, n, scale, dim);
      assert ks'[..n] == ks[..n] && vs'[..n] == vs[..n];
      assert ks' + [ks[l]] == ks && vs' + [vs[l]] == vs;
      hide Attend;
      AttendMasked(m, q, ks', vs', ks[l], vs[l], t, scale, dim);
    }
  }

  // ------------------------------------------------- latent attention (MLA)

  /** A row split into n heads of width w. */
  function Heads(row: Vec, n: nat, w: nat): (hs: seq<Vec>)
    requires |row| == n * w
    ensures IsMat(hs, n, w)
    decreases n
  {
    if n == 0 then []
    else
      assert |row| - w == (n - 1) * w;
      [row[..w]] + Heads(row[w..], n - 1, w)
  }

  function Flatten(hs: seq<Vec>, w: nat): (row: Vec)
    requires IsMat(hs, |hs|, w)
    ensures |row| == |hs| * w
  {
    if hs == [] then []
    else
      assert |hs| * w == w + (|hs| - 1) * w;
      hs[0] + Flatten(hs[1..], w)
  }

  function LoraScale(m: Math, on: bool, hidden: nat, rank: nat): real
    requires rank > 0
  {
    if on then m.pow(hidden as real / rank as real, 0.5) else 1.0
  }

  function Roped(model: Model, x: Vec, t: nat): (y: Vec)
    requires model.Valid() && |x| == model.d.rope
    ensures |y| == |x|
  {
    Rotated(model.m, model.theta, x, t)
  }

  function Queries(model: Model, a: Attention, x: Vec, t: nat): (qs: seq<Vec>)
    requires model.Valid() && a.Fits(model.d) && |x| == model.d.hidden
    ensures IsMat(qs, model.d.heads, model.d.nope + model.d.rope)
  {
    var d := model.d;
    var heads := Heads(Apply(a.qb, RmsNorm(model, Apply(a.qa, x), a.qaNorm)), d.heads, d.nope + d.rope);
    var s := LoraScale(model.m, model.scaleQLora, d.hidden, d.qLora);
    seq(d.heads, n requires 0 <= n < d.heads =>
      ScaleRow(heads[n][..d.nope], s) + Roped(model, ScaleRow(heads[n][d.nope..], s), t))
  }

  /** The scaled latent row that keys and values are expanded from. */
  function Latent(model: Model, a: Attention, x: Vec): (row: Vec)
    requires model.Valid() && a.Fits(model.d) && |x| == model.d.hidden
    ensures |row| == model.d.kvLora
  {
    var d := model.d;
    ScaleRow(RmsNorm(model, Apply(a.kva, x)[..d.kvLora], a.kvaNorm),
        LoraScale(model.m, model.scaleKvLora, d.hidden, d.kvLora))
  }

  function KeyValues(model: Model, a: Attention, x: Vec): (kvs: seq<Vec>)
    requires model.Valid() && a.Fits(model.d) && |x| == model.d.hidden
    ensures IsMat(kvs, model.d.heads, model.d.nope + model.d.vHead)
  {
    Heads(Apply(a.kvb, Latent(model, a, x)), model.d.heads, model.d.nope + model.d.vHead)
  }

  function Keys(model: Model, a: Attention, x: Vec, t: nat): (ks: seq<Vec>)
    requires model.Valid() && a.Fits(model.d) && |x| == model.d.hidden
    ensures IsMat(ks, model.d.heads, model.d.nope + model.d.rope)
  {
    var d := model.d;
    var kvs, rot := KeyValues(model, a, x), Roped(model, Apply(a.kva, x)[d.kvLora..], t);
    seq(d.heads, n requires 0 <= n < d.heads => kvs[n][..d.nope] + rot)
  }

  function Values(model: Model, a: Attention, x: Vec): (vs: seq<Vec>)
    requires model.Valid() && a.Fits(model.d) && |x| == model.d.hidden
    ensures IsMat(vs, model.d.heads, model.d.vHead)
  {
    var kvs := KeyValues(model, a, x);
    seq(model.d.heads, n requires 0 <= n < model.d.heads => kvs[n][model.d.nope..])
  }

  function KeyColumn(model: Model, a: Attention, h: Mat, n: nat): (ks: seq<Vec>)
    requires model.Valid() && a.Fits(model.d) && IsMat(h, |h|, model.d.hidden) && n < model.d.heads
    ensures IsMat(ks, |h|, model.d.nope + model.d.rope)
  {
    seq(|h|, u requires 0 <= u < |h| => Keys(model, a, h[u], u)[n])
  }

  function ValueColumn(model: Model, a: Attention, h: Mat, n: nat): (vs: seq<Vec>)
    requires model.Valid() && a.Fits(model.d) && IsMat(h, |h|, model.d.hidden) && n < model.d.heads
    ensures IsMat(vs, |h|, model.d.vHead)
  {
    seq(|h|, u requires 0 <= u < |h| => Values(model, a, h[u])[n])
  }

  function HeadAt(model: Model, a: Attention, h: Mat, t: nat, n: nat): (r: Vec)
    requires model.Valid() && a.Fits(model.d) && IsMat(h, |h|, model.d.hidden) && t < |h| && n < model.d.heads
    ensures |r| == model.d.vHead
  {
    Attend(model.m, Queries(model, a, h[t], t)[n], KeyColumn(model, a, h, n), ValueColumn(model, a, h, n), t,
      model.m.pow((model.d.nope + model.d.rope) as real, -0.5), model.d.vHead)
  }

  function MlaAt(model: Model, a: Attention, h: Mat, t: nat): (r: Vec)
    requires model.Valid() && a.Fits(model.d) && IsMat(h, |h|, model.d.hidden) && t < |h|
    ensures |r| == model.d.hidden
  {
    var heads := seq(model.d.heads, n requires 0 <= n < model.d.heads => HeadAt(model, a, h, t, n));
    Apply(a.o, Flatten(heads, model.d.vHead))
  }

  function MlaRows(model: Model, a: Attention, h: Mat): (r: Mat)
    requires model.Valid() && a.Fits(model.d) && IsMat(h, |h|, model.d.hidden)
    ensures IsMat(r, |h|, model.d.hidden)
  {
    seq(|h|, t requires 0 <= t < |h| => MlaAt(model, a, h, t))
  }

  lemma HeadPrefix(model: Model, a: Attention, h: Mat, n: nat, t: nat, k: nat)
    requires model.Valid() && a.Fits(model.d) && IsMat(h, |h|, model.d.hidden) && t < n <= |h| && k < model.d.heads
    ensures HeadAt(model, a, h[..n], t, k) == HeadAt(model, a, h, t, k)
  {
    hide Attend, Queries, Keys, Values;
    var ks, vs := KeyColumn(model, a, h, k), ValueColumn(model, a, h, k);
    assert KeyColumn(model, a, h[..n], k) == ks[..n];
    assert ValueColumn(model, a, h[..n], k) == vs[..n];
    AttendPrefix(model.m, Queries(model, a, h[t], t)[k], ks, vs, t, n,
        model.m.pow((model.d.nope + model.d.rope) as real, -0.5), model.d.vHead);
  }

  lemma MlaPrefix(model: Model, a: Attention, h: Mat, n: nat)
    requires model.Valid() && a.Fits(model.d) && IsMat(h, |h|, model.d.hidden) && n <= |h|
    ensures MlaRows(model, a, h[..n]) == MlaRows(model, a, h)[..n]
  {
    hide HeadAt;
    forall t | 0 <= t < n
      ensures MlaAt(model, a, h[..n], t) == MlaAt(model, a, h, t)
    {
      forall k | 0 <= k < model.d.heads
        ensures HeadAt(model, a, h[..n], t, k) == HeadAt(model, a, h, t, k)
      {
        HeadPrefix(model, a, h, n, t, k);
      }
      assert seq(model.d.heads, k requires 0 <= k < model.d.heads => HeadAt(model, a, h[..n], t, k))
          == seq(model.d.heads, k requires 0 <= k < model.d.heads => HeadAt(model, a, h, t, k));
    }
  }

  // ---------------------------------------------------- shortcut experts

  function RouterScores(model: Model, e: Experts, x: Vec): (s: Vec)
    requires model.Valid() && e.Fits(model.d) && |x| == model.d.hidden
    ensures |s| == model.d.routed + model.d.zero
  {
    var logits := Apply(e.router, x);
    var s := seq(|logits|, k requires 0 <= k < |logits| => Fin(logits[k]));
    assert s[0].Fin?;
    Softmax(model.m, s)
  }

  /** What the choice goes by: the score plus the correction bias. */
  function Biased(model: Model, e: Experts, x: Vec): (s: Vec)
    requires model.Valid() && e.Fits(model.d) && |x| == model.d.hidden
    ensures |s| == model.d.routed + model.d.zero
  {
    AddRow(RouterScores(model, e, x), e.bias)
  }

  function Picks(model: Model, e: Experts, x: Vec): (p: seq<nat>)
    requires model.Valid() && e.Fits(model.d) && |x| == model.d.hidden
    ensures forall k :: 0 <= k < |p| ==> p[k] < model.d.routed + model.d.zero
  {
    var choice := Biased(model, e, x);
    var negated := seq(|choice|, k requires 0 <= k < |choice| => -choice[k]);
    assert Sorts(model.order(negated), negated);
    var all := model.order(negated);
    if model.d.topk <= |all| then all[..model.d.topk] else all
  }

  /** The picks are topk different experts, best first, and no other expert has a larger biased score. */
  lemma PicksAreTop(model: Model, e: Experts, x: Vec)
    requires model.Valid() && e.Fits(model.d) && |x| == model.d.hidden
    ensures var p, s, n := Picks(model, e, x), Biased(model, e, x), model.d.routed + model.d.zero;
      && |p| == (if model.d.topk <= n then model.d.topk else n)
      && (forall a, b :: 0 <= a < b < |p| ==> p[a] != p[b] && s[p[a]] >= s[p[b]])
      && forall u, a :: 0 <= u < n && 0 <= a < |p| && u !in p ==> s[u] <= s[p[a]]
  {
    hide Biased;
    var choice := Biased(model, e, x);
    var negated := seq(|choice|, k requires 0 <= k < |choice| => -choice[k]);
    var all, p := model.order(negated), Picks(model, e, x);
    assert Sorts(all, negated);
    forall u, a | 0 <= u < |choice| && 0 <= a < |p| && u !in p
      ensures choice[u] <= choice[p[a]]
    {
      assert u in all;
      var b :| 0 <= b < |all| && all[b] == u;
      assert b >= |p| && negated[all[a]] <= negated[all[b]];
    }
  }

  /** What one chosen expert adds: its weight times the row itself (zero expert) or its MLP's output. */
  function ExpertTerm(model: Model, e: Experts, x: Vec, pick: nat): (r: Vec)
    requires model.Valid() && e.Fits(model.d) && |x| == model.d.hidden && pick < model.d.routed + model.d.zero
    ensures |r| == model.d.hidden
  {
    var w := RouterScores(model, e, x)[pick] * model.scaleRouted;
    ScaleRow(if pick >= model.d.routed then x else RunMlp(model, e.experts[pick], x), w)
  }

  function ExpertSum(model: Model, e: Experts, x: Vec, picks: seq<nat>): (r: Vec)
    requires model.Valid() && e.Fits(model.d) && |x| == model.d.hidden
    requires forall k :: 0 <= k < |picks| ==> picks[k] < model.d.routed + model.d.zero
    ensures |r| == model.d.hidden
  {
    if picks == [] then Zeros(model.d.hidden)
    else AddRow(ExpertSum(model, e, x, picks[..|picks| - 1]), ExpertTerm(model, e, x, picks[|picks| - 1]))
  }

  function MoeAt(model: Model, e: Experts, x: Vec): (r: Vec)
    requires model.Valid() && e.Fits(model.d) && |x| == model.d.hidden
    ensures |r| == model.d.hidden
  {
    ExpertSum(model, e, x, Picks(model, e, x))
  }

  function MoeRows(model: Model, e: Experts, h: Mat): (r: Mat)
    requires model.Valid() && e.Fits(model.d) && IsMat(h, |h|, model.d.hidden)
    ensures IsMat(r, |h|, model.d.hidden)
  {
    seq(|h|, t requires 0 <= t < |h| => MoeAt(model, e, h[t]))
  }

  // ---------------------------------------------------------- the layer stack

  function NormRows(model: Model, h: Mat, w: Vec): (r: Mat)
    requires model.Valid() && IsMat(h, |h|, model.d.hidden) && |w| == model.d.hidden
    ensures IsMat(r, |h|, model.d.hidden)
  {
    seq(|h|, t requires 0 <= t < |h| => RmsNorm(model, h[t], w))
  }

  function MlpRows(model: Model, p: Mlp, h: Mat): (r: Mat)
    requires model.Valid() && p.Fits(model.d) && IsMat(h, |h|, model.d.hidden)
    ensures IsMat(r, |h|, model.d.hidden)
  {
    seq(|h|, t requires 0 <= t < |h| => RunMlp(model, p, h[t]))
  }

  function AddRows(a: Mat, b: Mat, cols: nat): (r: Mat)
    requires |a| == |b| && IsMat(a, |a|, cols) && IsMat(b, |b|, cols)
    ensures IsMat(r, |a|, cols)
  {
    seq(|a|, t requires 0 <= t < |a| => AddRow(a[t], b[t]))
  }

  /** Attention on the normed input, added to the residual. */
  function AfterAttention(model: Model, norm: Vec, a: Attention, h: Mat): (r: Mat)
    requires model.Valid() && a.Fits(model.d) && |norm| == model.d.hidden && IsMat(h, |h|, model.d.hidden)
    ensures IsMat(r, |h|, model.d.hidden)
  {
    AddRows(h, MlaRows(model, a, NormRows(model, h, norm)), model.d.hidden)
  }

  /** The dense MLP on the normed input, added to the residual. */
  function AfterMlp(model: Model, norm: Vec, p: Mlp, h: Mat): (r: Mat)
    requires model.Valid() && p.Fits(model.d) && |norm| == model.d.hidden && IsMat(h, |h|, model.d.hidden)
    ensures IsMat(r, |h|, model.d.hidden)
  {
    AddRows(h, MlpRows(model, p, NormRows(model, h, norm)), model.d.hidden)
  }

  /** One layer; the shortcut experts read sublayer 1's MLP input and are added at the very end. */
  function LayerOut(model: Model, l: Layer, h: Mat): (r: Mat)
    requires model.Valid() && l.Fits(model.d) && IsMat(h, |h|, model.d.hidden)
    ensures IsMat(r, |h|, model.d.hidden)
  {
    var h1 := AfterAttention(model, l.in0, l.attn0, h);
    var shortcut := MoeRows(model, l.moe, NormRows(model, h1, l.post0));
    var h2 := AfterMlp(model, l.post0, l.mlp0, h1);
    var h3 := AfterAttention(model, l.in1, l.attn1, h2);
    AddRows(AfterMlp(model, l.post1, l.mlp1, h3), shortcut, model.d.hidden)
  }

  function Stack(model: Model, h: Mat, n: nat): (r: Mat)
    requires model.Valid() && n <= |model.layers| && IsMat(h, |h|, model.d.hidden)
    ensures IsMat(r, |h|, model.d.hidden)
  {
    if n == 0 then h else LayerOut(model, model.layers[n - 1], Stack(model, h, n - 1))
  }

  /** The final norm and the language-model head. */
  function Head(model: Model, h: Mat): (r: Mat)
    requires model.Valid() && IsMat(h, |h|, model.d.hidden)
    ensures |r| == |h|
  {
    var last := NormRows(model, h, model.finalNorm);
    seq(|last|, t requires 0 <= t < |last| => Apply(model.lmHead, last[t]))
  }

  /** The hidden states before the first and after each of the first n layers. */
  function States(model: Model, input: Mat, n: nat): (states: seq<Mat>)
    requires model.Valid() && n <= |model.layers| && IsMat(input, |input|, model.d.hidden)
    ensures |states| == n + 1
  {
    if n == 0 then [input] else States(model, input, n - 1) + [Stack(model, input, n)]
  }

  // ---------------------------------------------------------------- causality

  lemma AfterAttentionPrefix(model: Model, norm: Vec, a: Attention, h: Mat, n: nat)
    requires model.Valid() && a.Fits(model.d) && |norm| == model.d.hidden && IsMat(h, |h|, model.d.hidden) && n <= |h|
    ensures AfterAttention(model, norm, a, h[..n]) == AfterAttention(model, norm, a, h)[..n]
  {
    hide MlaRows, RmsNorm;
    var x := NormRows(model, h, norm);
    assert NormRows(model, h[..n], norm) == x[..n];
    MlaPrefix(model, a, x, n);
  }

  lemma RowwisePrefix(model: Model, l: Layer, norm: Vec, p: Mlp, h: Mat, n: nat)
    requires model.Valid() && l.Fits(model.d) && p.Fits(model.d) && |norm| == model.d.hidden
    requires IsMat(h, |h|, model.d.hidden) && n <= |h|
    ensures NormRows(model, h[..n], norm) == NormRows(model, h, norm)[..n]
    ensures MoeRows(model, l.moe, h[..n]) == MoeRows(model, l.moe, h)[..n]
    ensures AfterMlp(model, norm, p, h[..n]) == AfterMlp(model, norm, p, h)[..n]
  {
    hide RmsNorm, RunMlp, MoeAt;
  }

  lemma LayerPrefix(model: Model, l: Layer, h: Mat, n: nat)
    requires model.Valid() && l.Fits(model.d) && IsMat(h, |h|, model.d.hidden) && n <= |h|
    ensures LayerOut(model, l, h[..n]) == LayerOut(model, l, h)[..n]
  {
    hide AfterAttention, AfterMlp, MoeRows, NormRows;
    var h1 := AfterAttention(model, l.in0, l.attn0, h);
    AfterAttentionPrefix(model, l.in0, l.attn0, h, n);
    RowwisePrefix(model, l, l.post0, l.mlp0, h1, n);
    RowwisePrefix(model, l, l.post0, l.mlp0, NormRows(model, h1, l.post0), n);
    var h2 := AfterMlp(model, l.post0, l.mlp0, h1);
    AfterAttentionPrefix(model, l.in1, l.attn1, h2, n);
    var h3 := AfterAttention(model, l.in1, l.attn1, h2);
    RowwisePrefix(model, l, l.post1, l.mlp1, h3, n);
  }

  /** Running any number of layers on a prefix gives exactly the prefix of the full run. */
  lemma {:induction false} StackIsCausal(model: Model, h: Mat, n: nat, layers: nat)
    requires model.Valid() && layers <= |model.layers| && IsMat(h, |h|, model.d.hidden) && n <= |h|
    ensures Stack(model, h[..n], layers) == Stack(model, h, layers)[..n]
  {
    hide LayerOut;
    if layers > 0 {
      StackIsCausal(model, h, n, layers - 1);
      LayerPrefix(model, model.layers[layers - 1], Stack(model, h, layers - 1), n);
    }
  }

  lemma FinalHeadPrefix(model: Model, h: Mat, n: nat)
    requires model.Valid() && IsMat(h, |h|, model.d.hidden) && n <= |h|
    ensures Head(model, h[..n]) == Head(model, h)[..n]
  {
    hide RmsNorm;
    assert NormRows(model, h[..n], model.finalNorm) == NormRows(model, h, model.finalNorm)[..n];
  }

  lemma LogitsAreCausal(model: Model, h: Mat, n: nat)
    requires model.Valid() && IsMat(h, |h|, model.d.hidden) && n <= |h|
    ensures var all := |model.layers|; Head(model, Stack(model, h[..n], all)) == Head(model, Stack(model, h, all))[..n]
  {
    hide Stack, Head;
    StackIsCausal(model, h, n, |model.layers|);
    FinalHeadPrefix(model, Stack(model, h, |model.layers|), n);
  }

  /** With a single visible position the attention weight is 1, so the head returns its value row. */
  lemma AttendFirst(m: Math, q: Vec, ks: seq<Vec>, vs: seq<Vec>, scale: real, dim: nat)
    requires m.Positive() && IsMat(ks, |ks|, |q|) && |vs| == |ks| && IsMat(vs, |vs|, dim) && |ks| > 0
    ensures Attend(m, q, ks, vs, 0, scale, dim) == vs[0]
  {
    AttendPrefix(m, q, ks, vs, 0, 1, scale, dim);
    var s := Scores(q, ks[..1], 0, scale);
    assert s == [s[0]] && s[0].Fin?;
    SoftmaxOfOne(m, s[0]);
    MixOfOne(vs[0], dim);
    assert vs[..1] == [vs[0]];
  }

  lemma SoftmaxOfOne(m: Math, x: Score)
    requires m.Positive() && x.Fin?
    ensures Max([x]).Fin? && Softmax(m, [x]) == [1.0]
  {
    var s := [x];
    assert s[..0] == [] && Max([]) == NegInf && Max(s) == x;
    var e := Exps(m, s, x.x);
    assert e[..0] == [] && Total([]) == 0.0 && Total(e) == e[0] > 0.0;
    assert Softmax(m, s)[0] == e[0] / Total(e) == 1.0;
  }

  lemma MixOfOne(v: Vec, dim: nat)
    requires |v| == dim
    ensures Mix([1.0], [v], dim) == v
  {
    assert [1.0][..0] == [] && [v][..0] == [] && Mix([], [], dim) == Zeros(dim);
    assert ScaleRow(v, 1.0) == v && AddRow(Zeros(dim), v) == v;
  }

  /** Position 0's attention output is its value row times o_proj, whatever q, k, rope and later rows are. */
  lemma FirstPositionReadsItself(model: Model, a: Attention, h: Mat)
    requires model.Valid() && a.Fits(model.d) && IsMat(h, |h|, model.d.hidden) && h != []
    ensures MlaAt(model, a, h, 0) == Apply(a.o, Flatten(Values(model, a, h[0]), model.d.vHead))
  {
    hide Attend, Queries, Keys, Values;
    var scale := model.m.pow((model.d.nope + model.d.rope) as real, -0.5);
    var heads := seq(model.d.heads, n requires 0 <= n < model.d.heads => HeadAt(model, a, h, 0, n));
    forall n | 0 <= n < model.d.heads
      ensures heads[n] == Values(model, a, h[0])[n]
    {
      AttendFirst(model.m, Queries(model, a, h[0], 0)[n], KeyColumn(model, a, h, n), ValueColumn(model, a, h, n),
          scale, model.d.vHead);
    }
    assert heads == Values(model, a, h[0]);
  }

  /**
   * The score of a query head at position t and a key head at position u: the rope parts enter only through
   * the distance t - u, so pairs equally far apart score alike.
   */
  lemma ScoresAreRelative(model: Model, qPass: Vec, qRot: Vec, kPass: Vec, kRot: Vec, t: nat, u: nat, t': nat, u': nat)
    requires model.Valid() && model.m.Trigonometric() && |qPass| == |kPass| && |qRot| == |kRot| == model.d.rope
    requires t - u == t' - u'
    ensures Dot(qPass + Roped(model, qRot, t), kPass + Roped(model, kRot, u))
         == Dot(qPass + Roped(model, qRot, t'), kPass + Roped(model, kRot, u'))
  {
    hide Dot, Rotated;
    RelativePositions(model.m, model.theta, qRot, kRot, t, u, t', u');
    DotConcat(qPass, Roped(model, qRot, t), kPass, Roped(model, kRot, u));
    DotConcat(qPass, Roped(model, qRot, t'), kPass, Roped(model, kRot, u'));
  }

  // ------------------------------------------------------------- orders exist

  function InsertIndex(s: seq<real>, o: seq<nat>, n: nat): (r: seq<nat>)
    requires n < |s| && forall k :: 0 <= k < |o| ==> o[k] < |s|
    ensures |r| == |o| + 1 && forall k :: 0 <= k < |r| ==> r[k] < |s|
  {
    if o == [] then [n]
    else
      var front, last := o[..|o| - 1], o[|o| - 1];
      if s[last] <= s[n] then o + [n] else InsertIndex(s, front, n) + [last]
  }

  ghost predicate Ascending(s: seq<real>, o: seq<nat>)
  {
    && (forall k :: 0 <= k < |o| ==> o[k] < |s|)
    && forall a, b :: 0 <= a < b < |o| ==> o[a] != o[b] && s[o[a]] <= s[o[b]]
  }

  lemma {:induction false} InsertAscending(s: seq<real>, o: seq<nat>, n: nat)
    requires n < |s| && Ascending(s, o) && n !in o
    ensures var r := InsertIndex(s, o, n); Ascending(s, r) && forall i :: i in r <==> i in o || i == n
  {
    if o != [] && s[o[|o| - 1]] > s[n] {
      var front, last := o[..|o| - 1], o[|o| - 1];
      InsertAscending(s, front, n);
      var r := InsertIndex(s, front, n);
      assert o == front + [last];
      forall a | 0 <= a < |r|
        ensures r[a] != last && s[r[a]] <= s[last]
      {
        assert r[a] in r;
        if r[a] != n {
          var b :| 0 <= b < |front| && front[b] == r[a];
          assert o[b] == r[a];
        }
      }
      AscendingSnoc(s, r, last);
      assert InsertIndex(s, o, n) == r + [last];
    } else {
      assert InsertIndex(s, o, n) == o + [n];
      AscendingLast(s, o, n);
    }
  }

  lemma AscendingSnoc(s: seq<real>, o: seq<nat>, n: nat)
    requires n < |s| && Ascending(s, o) && forall a :: 0 <= a < |o| ==> o[a] != n && s[o[a]] <= s[n]
    ensures Ascending(s, o + [n])
  {
  }

  lemma AscendingLast(s: seq<real>, o: seq<nat>, n: nat)
    requires n < |s| && Ascending(s, o) && n !in o && (o == [] || s[o[|o| - 1]] <= s[n])
    ensures Ascending(s, o + [n])
  {
    forall a | 0 <= a < |o|
      ensures o[a] != n && s[o[a]] <= s[n]
    {
      assert o[a] in o;
    }
    AscendingSnoc(s, o, n);
  }

  /** The first n indices can be put in order. */
  lemma {:induction false} OrderExists(s: seq<real>, n: nat) returns (o: seq<nat>)
    requires n <= |s|
    ensures |o| == n && Ascending(s, o) && forall i :: i in o <==> 0 <= i < n
  {
    hide Ascending;
    if n == 0 {
      o := [];
      NothingAscends(s);
    } else {
      o := OrderExists(s, n - 1);
      InRange(s, o);
      InsertAscending(s, o, n - 1);
      o := InsertIndex(s, o, n - 1);
    }
  }

  lemma NothingAscends(s: seq<real>)
    ensures Ascending(s, [])
  {
  }

  lemma InRange(s: seq<real>, o: seq<nat>)
    requires Ascending(s, o)
    ensures forall k :: 0 <= k < |o| ==> o[k] < |s|
  {
  }

  /** Every sequence has an order, so what is proved of models that have one is about something. */
  lemma SortingExists(s: seq<real>) returns (o: seq<nat>)
    ensures Sorts(o, s)
  {
    o := OrderExists(s, |s|);
  }
}
