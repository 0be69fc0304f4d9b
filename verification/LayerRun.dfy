// The reference script's loops over experts, layers and tokens.
module LayerRun {
  import opened Backbone
  import opened LayerLaws
  import opened Rope
  import opened Vectors

  /** The token and expert loops: every chosen expert is added into its token's row. */
  method Moe(model: Model, e: Experts, h: Mat) returns (out: Mat)
    requires model.Valid() && e.Fits(model.d) && IsMat(h, |h|, model.d.hidden)
    ensures out == MoeRows(model, e, h)
  {
    hide ExpertTerm, Picks;
    out := seq(|h|, t requires 0 <= t < |h| => Zeros(model.d.hidden));
    for t := 0 to |h|
      invariant IsMat(out, |h|, model.d.hidden)
      invariant forall u :: 0 <= u < t ==> out[u] == MoeAt(model, e, h[u])
      invariant forall u :: t <= u < |h| ==> out[u] == Zeros(model.d.hidden)
    {
      var picks := Picks(model, e, h[t]);
      for k := 0 to |picks|
        invariant IsMat(out, |h|, model.d.hidden)
        invariant forall u :: 0 <= u < t ==> out[u] == MoeAt(model, e, h[u])
        invariant out[t] == ExpertSum(model, e, h[t], picks[..k])
        invariant forall u :: t < u < |h| ==> out[u] == Zeros(model.d.hidden)
      {
        assert picks[..k + 1][..k] == picks[..k];
        out := out[t := AddRow(out[t], ExpertTerm(model, e, h[t], picks[k]))];
      }
      assert picks[..|picks|] == picks;
    }
  }

  /** What one layer makes of its input, part by part. */
  ghost predicate LayerStep(model: Model, l: Layer, h: Mat, out: Mat)
    requires model.Valid() && l.Fits(model.d)
  {
    IsMat(h, |h|, model.d.hidden) && exists h1, h2, h3, h4 :: Chained(model, l, h, h1, h2, h3, h4, out)
  }

  /** One row's logits: the final norm of the row against every row of the head. */
  ghost predicate IsLogits(model: Model, x: Vec, y: Vec)
    requires model.Valid() && |x| == model.d.hidden
  {
    |y| == |model.lmHead| && forall v :: 0 <= v < |y| ==>
      y[v] == Dot(model.lmHead[v], RmsNorm(model, x, model.finalNorm))
  }

  lemma HeadLaw(model: Model, h: Mat)
    requires model.Valid() && IsMat(h, |h|, model.d.hidden)
    ensures |Head(model, h)| == |h| && forall t :: 0 <= t < |h| ==> IsLogits(model, h[t], Head(model, h)[t])
  {
    hide RmsNorm, Dot;
  }

  /** The body of the layer loop: h, the residual r and the normed input x are overwritten sublayer by sublayer. */
  method RunLayer(model: Model, l: Layer, input: Mat) returns (h: Mat)
    requires model.Valid() && l.Fits(model.d) && IsMat(input, |input|, model.d.hidden)
    ensures h == LayerOut(model, l, input)
    ensures OnePart(model, l, input, h) && LayerStep(model, l, input, h)
  {
    hide MlaRows, MoeRows, NormRows, MlpRows, AddRows, OnePart, Chained;
    var d := model.d;
    var r := input;
    var x := NormRows(model, input, l.in0);
    h := AddRows(r, MlaRows(model, l.attn0, x), d.hidden);
    r := h;
    x := NormRows(model, h, l.post0);
    var shortcut := Moe(model, l.moe, x);
    h := AddRows(r, MlpRows(model, l.mlp0, x), d.hidden);
    r := h;
    x := NormRows(model, h, l.in1);
    h := AddRows(r, MlaRows(model, l.attn1, x), d.hidden);
    r := h;
    x := NormRows(model, h, l.post1);
    h := AddRows(AddRows(r, MlpRows(model, l.mlp1, x), d.hidden), shortcut, d.hidden);
    OnePartOnly(model, l, input);
    ghost var h1, h2, h3, h4 := LayerChain(model, l, input);
  }

  /** The layer loop, with the hidden states it dumps. */
  method RunLayers(model: Model, input: Mat) returns (dump: seq<Mat>, logits: Mat)
    requires model.Valid() && IsMat(input, |input|, model.d.hidden)
    ensures dump == States(model, input, |model.layers|)
    ensures logits == Head(model, Stack(model, input, |model.layers|))
    ensures |dump| == |model.layers| + 1 && dump[0] == input
    ensures forall li :: 0 <= li < |model.layers| ==> LayerStep(model, model.layers[li], dump[li], dump[li + 1])
    ensures var last := dump[|model.layers|];
            |logits| == |last| && IsMat(last, |last|, model.d.hidden)
            && forall t :: 0 <= t < |last| ==> IsLogits(model, last[t], logits[t])
  {
    hide LayerOut, Head, LayerStep;
    var h := input;
    dump := [h];
    for li := 0 to |model.layers|
      invariant h == Stack(model, input, li) && dump == States(model, input, li) && dump[0] == input && h == dump[li]
      invariant forall i :: 0 <= i < li ==> LayerStep(model, model.layers[i], dump[i], dump[i + 1])
    {
      h := RunLayer(model, model.layers[li], h);
      dump := dump + [h];
    }
    logits := Head(model, h);
    HeadLaw(model, h);
  }
}
