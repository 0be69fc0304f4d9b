// Which weights a layer uses and where: what it does with parts of it switched off.
module LayerLaws {
  import opened Backbone
  import opened Rope
  import opened Vectors

  ghost predicate ZeroMat(w: Mat) { forall r, k :: 0 <= r < |w| && 0 <= k < |w[r]| ==> w[r][k] == 0.0 }

  /** Nothing of an attention or an MLP reaches the residual through a zero output matrix. */
  ghost predicate MuteAttention(a: Attention) { ZeroMat(a.o) }

  ghost predicate MuteMlp(p: Mlp) { ZeroMat(p.down) }

  lemma ZeroApply(w: Mat, x: Vec)
    requires IsMat(w, |w|, |x|) && ZeroMat(w)
    ensures Apply(w, x) == Zeros(|w|)
  {
    forall r | 0 <= r < |w|
      ensures Apply(w, x)[r] == 0.0
    {
      SumZero(Product(w[r], x), |x|);
    }
  }

  lemma AddNothing(x: Vec)
    ensures AddRow(x, Zeros(|x|)) == x
  {
  }

  lemma MutedAttention(model: Model, a: Attention, h: Mat)
    requires model.Valid() && a.Fits(model.d) && IsMat(h, |h|, model.d.hidden) && MuteAttention(a)
    ensures forall t :: 0 <= t < |h| ==> MlaRows(model, a, h)[t] == Zeros(model.d.hidden)
  {
    hide HeadAt, Apply;
    forall t | 0 <= t < |h|
      ensures MlaRows(model, a, h)[t] == Zeros(model.d.hidden)
    {
      var heads := seq(model.d.heads, n requires 0 <= n < model.d.heads => HeadAt(model, a, h, t, n));
      ZeroApply(a.o, Flatten(heads, model.d.vHead));
    }
  }

  lemma MutedMlp(model: Model, p: Mlp, x: Vec)
    requires model.Valid() && p.Fits(model.d) && |x| == model.d.hidden && MuteMlp(p)
    ensures RunMlp(model, p, x) == Zeros(model.d.hidden)
  {
    hide Apply;
    var a, u := Apply(p.gate, x), Apply(p.up, x);
    ZeroApply(p.down, seq(p.width, k requires 0 <= k < p.width => Silu(model.m, a[k]) * u[k]));
  }

  lemma {:induction false} MutedExperts(model: Model, e: Experts, x: Vec, picks: seq<nat>)
    requires model.Valid() && e.Fits(model.d) && |x| == model.d.hidden && model.scaleRouted == 0.0
    requires forall k :: 0 <= k < |picks| ==> picks[k] < model.d.routed + model.d.zero
    ensures ExpertSum(model, e, x, picks) == Zeros(model.d.hidden)
  {
    hide RouterScores, RunMlp;
    if picks != [] {
      MutedExperts(model, e, x, picks[..|picks| - 1]);
      var pick := picks[|picks| - 1];
      ScaledAway(if pick >= model.d.routed then x else RunMlp(model, e.experts[pick], x),
        RouterScores(model, e, x)[pick] * model.scaleRouted);
      AddNothing(Zeros(model.d.hidden));
    }
  }

  lemma ScaledAway(x: Vec, w: real)
    requires w == 0.0
    ensures ScaleRow(x, w) == Zeros(|x|)
  {
  }

  // --------------------------------------------------- sublayers switched off

  lemma AttentionOff(model: Model, norm: Vec, a: Attention, h: Mat)
    requires model.Valid() && a.Fits(model.d) && |norm| == model.d.hidden && IsMat(h, |h|, model.d.hidden)
    requires MuteAttention(a)
    ensures AfterAttention(model, norm, a, h) == h
  {
    hide MlaRows, NormRows, MuteAttention;
    MutedAttention(model, a, NormRows(model, h, norm));
    forall t | 0 <= t < |h|
      ensures AfterAttention(model, norm, a, h)[t] == h[t]
    {
      AddNothing(h[t]);
    }
  }

  lemma MlpOff(model: Model, norm: Vec, p: Mlp, h: Mat)
    requires model.Valid() && p.Fits(model.d) && |norm| == model.d.hidden && IsMat(h, |h|, model.d.hidden)
    requires MuteMlp(p)
    ensures AfterMlp(model, norm, p, h) == h
  {
    hide RunMlp, RmsNorm, MuteMlp;
    forall t | 0 <= t < |h|
      ensures AfterMlp(model, norm, p, h)[t] == h[t]
    {
      MutedMlp(model, p, RmsNorm(model, h[t], norm));
      AddNothing(h[t]);
    }
  }

  lemma ExpertsOff(model: Model, e: Experts, x: Mat, h: Mat)
    requires model.Valid() && e.Fits(model.d) && |x| == |h| && IsMat(x, |h|, model.d.hidden)
    requires IsMat(h, |h|, model.d.hidden) && model.scaleRouted == 0.0
    ensures AddRows(h, MoeRows(model, e, x), model.d.hidden) == h
  {
    hide Picks, ExpertSum;
    forall t | 0 <= t < |h|
      ensures AddRows(h, MoeRows(model, e, x), model.d.hidden)[t] == h[t]
    {
      MutedExperts(model, e, x[t], Picks(model, e, x[t]));
      AddNothing(h[t]);
    }
  }

  /** What sublayer attention adds to each row of h: attention of the rows normed with the given weight. */
  ghost predicate AddsAttention(model: Model, norm: Vec, a: Attention, h: Mat, out: Mat)
    requires model.Valid() && a.Fits(model.d) && |norm| == model.d.hidden && IsMat(h, |h|, model.d.hidden)
  {
    var x := seq(|h|, t requires 0 <= t < |h| => RmsNorm(model, h[t], norm));
    |out| == |h| && forall t, k :: 0 <= t < |h| && 0 <= k < model.d.hidden ==>
      |out[t]| == model.d.hidden && out[t][k] == h[t][k] + MlaAt(model, a, x, t)[k]
  }

  ghost predicate AddsMlp(model: Model, norm: Vec, p: Mlp, h: Mat, out: Mat)
    requires model.Valid() && p.Fits(model.d) && |norm| == model.d.hidden && IsMat(h, |h|, model.d.hidden)
  {
    |out| == |h| && forall t, k :: 0 <= t < |h| && 0 <= k < model.d.hidden ==>
      |out[t]| == model.d.hidden && out[t][k] == h[t][k] + RunMlp(model, p, RmsNorm(model, h[t], norm))[k]
  }

  /** The experts read the rows of `from` normed with the given weight, and are added to h. */
  ghost predicate AddsExperts(model: Model, norm: Vec, e: Experts, from: Mat, h: Mat, out: Mat)
    requires model.Valid() && e.Fits(model.d) && |norm| == model.d.hidden
    requires IsMat(h, |h|, model.d.hidden) && IsMat(from, |h|, model.d.hidden)
  {
    |out| == |h| && forall t, k :: 0 <= t < |h| && 0 <= k < model.d.hidden ==>
      |out[t]| == model.d.hidden && out[t][k] == h[t][k] + MoeAt(model, e, RmsNorm(model, from[t], norm))[k]
  }

  lemma AttentionAdds(model: Model, norm: Vec, a: Attention, h: Mat)
    requires model.Valid() && a.Fits(model.d) && |norm| == model.d.hidden && IsMat(h, |h|, model.d.hidden)
    ensures AddsAttention(model, norm, a, h, AfterAttention(model, norm, a, h))
  {
    hide MlaAt, RmsNorm;
    assert NormRows(model, h, norm) == seq(|h|, t requires 0 <= t < |h| => RmsNorm(model, h[t], norm));
  }

  lemma MlpAdds(model: Model, norm: Vec, p: Mlp, h: Mat)
    requires model.Valid() && p.Fits(model.d) && |norm| == model.d.hidden && IsMat(h, |h|, model.d.hidden)
    ensures AddsMlp(model, norm, p, h, AfterMlp(model, norm, p, h))
  {
    hide RunMlp, RmsNorm;
  }

  lemma ExpertsAdd(model: Model, norm: Vec, e: Experts, from: Mat, h: Mat)
    requires model.Valid() && e.Fits(model.d) && |norm| == model.d.hidden
    requires IsMat(h, |h|, model.d.hidden) && IsMat(from, |h|, model.d.hidden)
    ensures AddsExperts(model, norm, e, from, h,
            AddRows(h, MoeRows(model, e, NormRows(model, from, norm)), model.d.hidden))
  {
    hide MoeAt, RmsNorm;
  }

  // -------------------------------------------------------------- one layer

  /** Which of the five parts of a layer are switched off. */
  ghost predicate Off(model: Model, l: Layer, a0: bool, m0: bool, a1: bool, m1: bool, e: bool)
  {
    && (a0 ==> MuteAttention(l.attn0)) && (m0 ==> MuteMlp(l.mlp0))
    && (a1 ==> MuteAttention(l.attn1)) && (m1 ==> MuteMlp(l.mlp1)) && (e ==> model.scaleRouted == 0.0)
  }

  /** With one part switched on, it alone is added to the input, read through its own norm; with none, nothing is. */
  ghost predicate OnePart(model: Model, l: Layer, h: Mat, out: Mat)
    requires model.Valid() && l.Fits(model.d) && IsMat(h, |h|, model.d.hidden)
  {
    && (Off(model, l, true, true, true, true, true) ==> out == h)
    && (Off(model, l, false, true, true, true, true) ==> AddsAttention(model, l.in0, l.attn0, h, out))
    && (Off(model, l, true, false, true, true, true) ==> AddsMlp(model, l.post0, l.mlp0, h, out))
    && (Off(model, l, true, true, false, true, true) ==> AddsAttention(model, l.in1, l.attn1, h, out))
    && (Off(model, l, true, true, true, false, true) ==> AddsMlp(model, l.post1, l.mlp1, h, out))
    && (Off(model, l, true, true, true, true, false) ==> AddsExperts(model, l.post0, l.moe, h, h, out))
  }

  lemma OnePartOnly(model: Model, l: Layer, h: Mat)
    requires model.Valid() && l.Fits(model.d) && IsMat(h, |h|, model.d.hidden)
    ensures OnePart(model, l, h, LayerOut(model, l, h))
  {
    hide AfterAttention, AfterMlp, MoeRows, NormRows, AddRows, AddsAttention, AddsMlp, AddsExperts, MuteAttention,
        MuteMlp;
    var h1 := AfterAttention(model, l.in0, l.attn0, h);
    var h2 := AfterMlp(model, l.post0, l.mlp0, h1);
    var h3 := AfterAttention(model, l.in1, l.attn1, h2);
    var h4 := AfterMlp(model, l.post1, l.mlp1, h3);
    AttentionAdds(model, l.in0, l.attn0, h);
    MlpAdds(model, l.post0, l.mlp0, h);
    AttentionAdds(model, l.in1, l.attn1, h);
    MlpAdds(model, l.post1, l.mlp1, h);
    ExpertsAdd(model, l.post0, l.moe, h, h);
    if MuteAttention(l.attn0) { AttentionOff(model, l.in0, l.attn0, h); }
    if MuteMlp(l.mlp0) { MlpOff(model, l.post0, l.mlp0, h1); }
    if MuteAttention(l.attn1) { AttentionOff(model, l.in1, l.attn1, h2); }
    if MuteMlp(l.mlp1) { MlpOff(model, l.post1, l.mlp1, h3); }
    if model.scaleRouted == 0.0 { ExpertsOff(model, l.moe, NormRows(model, h1, l.post0), h4); }
  }

  /**
   * Each part reads what the parts before it leave: with the later ones off, it adds its output on the layer
   * that has it off too.
   */
  lemma PartsInOrder(model: Model, l: Layer, h: Mat, quiet: Mlp, still: Attention)
    requires model.Valid() && l.Fits(model.d) && IsMat(h, |h|, model.d.hidden) && model.scaleRouted == 0.0
    requires quiet.Fits(model.d) && MuteMlp(quiet) && still.Fits(model.d) && MuteAttention(still)
    ensures MuteAttention(l.attn1) && MuteMlp(l.mlp1) ==>
              AddsMlp(model, l.post0, l.mlp0, LayerOut(model, l.(mlp0 := quiet), h), LayerOut(model, l, h))
    ensures MuteMlp(l.mlp1) ==>
              AddsAttention(model, l.in1, l.attn1, LayerOut(model, l.(attn1 := still), h), LayerOut(model, l, h))
    ensures AddsMlp(model, l.post1, l.mlp1, LayerOut(model, l.(mlp1 := quiet), h), LayerOut(model, l, h))
  {
    hide AfterAttention, AfterMlp, MoeRows, NormRows, AddRows, AddsAttention, AddsMlp, MuteAttention, MuteMlp;
    var h1 := AfterAttention(model, l.in0, l.attn0, h);
    var h2 := AfterMlp(model, l.post0, l.mlp0, h1);
    var h3 := AfterAttention(model, l.in1, l.attn1, h2);
    var h4 := AfterMlp(model, l.post1, l.mlp1, h3);
    var x := NormRows(model, h1, l.post0);
    MlpAdds(model, l.post0, l.mlp0, h1);
    AttentionAdds(model, l.in1, l.attn1, h2);
    MlpAdds(model, l.post1, l.mlp1, h3);
    MlpOff(model, l.post0, quiet, h1);
    AttentionOff(model, l.in1, still, h2);
    MlpOff(model, l.post1, quiet, h3);
    ExpertsOff(model, l.moe, x, h1);
    ExpertsOff(model, l.moe, x, h2);
    ExpertsOff(model, l.moe, x, h3);
    ExpertsOff(model, l.moe, x, h4);
    if MuteMlp(l.mlp1) {
      MlpOff(model, l.post1, l.mlp1, h3);
      MlpOff(model, l.post1, l.mlp1, h2);
      if MuteAttention(l.attn1) {
        AttentionOff(model, l.in1, l.attn1, h2);
        AttentionOff(model, l.in1, l.attn1, h1);
        MlpOff(model, l.post1, l.mlp1, h1);
      }
    }
  }

  /** The whole layer: four parts in a chain, and the experts read after the first and added after the last. */
  ghost predicate Chained(model: Model, l: Layer, h: Mat, h1: Mat, h2: Mat, h3: Mat, h4: Mat, out: Mat)
    requires model.Valid() && l.Fits(model.d) && IsMat(h, |h|, model.d.hidden)
  {
    && |h1| == |h2| == |h3| == |h4| == |h|
    && IsMat(h1, |h|, model.d.hidden) && IsMat(h2, |h|, model.d.hidden)
    && IsMat(h3, |h|, model.d.hidden) && IsMat(h4, |h|, model.d.hidden)
    && AddsAttention(model, l.in0, l.attn0, h, h1) && AddsMlp(model, l.post0, l.mlp0, h1, h2)
    && AddsAttention(model, l.in1, l.attn1, h2, h3) && AddsMlp(model, l.post1, l.mlp1, h3, h4)
    && AddsExperts(model, l.post0, l.moe, h1, h4, out)
  }

  lemma LayerChain(model: Model, l: Layer, h: Mat) returns (h1: Mat, h2: Mat, h3: Mat, h4: Mat)
    requires model.Valid() && l.Fits(model.d) && IsMat(h, |h|, model.d.hidden)
    ensures Chained(model, l, h, h1, h2, h3, h4, LayerOut(model, l, h))
  {
    hide AfterAttention, AfterMlp, MoeRows, NormRows, AddRows, AddsAttention, AddsMlp, AddsExperts;
    h1 := AfterAttention(model, l.in0, l.attn0, h);
    h2 := AfterMlp(model, l.post0, l.mlp0, h1);
    h3 := AfterAttention(model, l.in1, l.attn1, h2);
    h4 := AfterMlp(model, l.post1, l.mlp1, h3);
    AttentionAdds(model, l.in0, l.attn0, h);
    MlpAdds(model, l.post0, l.mlp0, h1);
    AttentionAdds(model, l.in1, l.attn1, h2);
    MlpAdds(model, l.post1, l.mlp1, h3);
    ExpertsAdd(model, l.post0, l.moe, h1, h4);
  }

  /** The last part's entry: what the first three left, the second MLP's output on it, and the experts'. */
  lemma LastEntry(model: Model, p: Mlp, norm: Vec, h3: Mat, e: Mat, t: nat, k: nat)
    requires model.Valid() && p.Fits(model.d) && |norm| == model.d.hidden && IsMat(h3, |h3|, model.d.hidden)
    requires |e| == |h3| && IsMat(e, |e|, model.d.hidden) && t < |h3| && k < model.d.hidden
    ensures AddRows(AfterMlp(model, norm, p, h3), e, model.d.hidden)[t][k]
         == h3[t][k] + RunMlp(model, p, RmsNorm(model, h3[t], norm))[k] + e[t][k]
  {
    hide RunMlp, RmsNorm;
  }

  /** Layers that differ in the second MLP alone differ by its outputs on one common row. */
  lemma SecondMlpMatters(model: Model, l: Layer, q: Mlp, h: Mat, t: nat) returns (y: Vec)
    requires model.Valid() && l.Fits(model.d) && q.Fits(model.d) && IsMat(h, |h|, model.d.hidden) && t < |h|
    ensures |y| == model.d.hidden && forall k :: 0 <= k < model.d.hidden ==>
      LayerOut(model, l, h)[t][k] - LayerOut(model, l.(mlp1 := q), h)[t][k]
      == RunMlp(model, l.mlp1, y)[k] - RunMlp(model, q, y)[k]
  {
    hide AfterAttention, AfterMlp, AddRows, MoeRows, NormRows, RunMlp, RmsNorm;
    var h1 := AfterAttention(model, l.in0, l.attn0, h);
    var h3 := AfterAttention(model, l.in1, l.attn1, AfterMlp(model, l.post0, l.mlp0, h1));
    var e := MoeRows(model, l.moe, NormRows(model, h1, l.post0));
    y := RmsNorm(model, h3[t], l.post1);
    forall k | 0 <= k < model.d.hidden
      ensures LayerOut(model, l, h)[t][k] - LayerOut(model, l.(mlp1 := q), h)[t][k]
           == RunMlp(model, l.mlp1, y)[k] - RunMlp(model, q, y)[k]
    {
      LastEntry(model, l.mlp1, l.post1, h3, e, t, k);
      LastEntry(model, q, l.post1, h3, e, t, k);
    }
  }
}
