// The checkpoint rewriter: fused expert tensors are split along dimension 0, everything else passes
// through, and the results are packed into shards that close as soon as they reach a size limit.
module ExpertSplit {
  import opened Text
  import opened Safetensors
  import opened ModArith

  // ------------------------------------------------------------------- names

  const PROJS: set<string> := {"gate_proj", "up_proj", "down_proj"}
  const SUFFIXES: set<string> := {"weight", "weight_scale", "input_scale", "weight_scale_2"}

  datatype Fused = Fused(prefix: string, proj: string, suffix: string)

  /** What `$` leaves out of the match: one final line break. */
  function Body(name: string): string
  {
    if EndsWith(name, "\n") then name[..|name| - 1] else name
  }

  /** (.+\.moe)\.(gate_proj|up_proj|down_proj)\.(weight|weight_scale|input_scale|weight_scale_2)$ */
  function MatchFused(name: string): Option<Fused>
  {
    match SplitLast(Body(name))
    case None => None
    case Some((rest, suffix)) =>
      if suffix !in SUFFIXES then None
      else
        match SplitLast(rest)
        case None => None
        case Some((prefix, proj)) =>
          if proj in PROJS && |prefix| > 4 && EndsWith(prefix, ".moe") && '\n' !in prefix
          then Some(Fused(prefix, proj, suffix)) else None
  }

  predicate IsFusedExpertTensor(name: string)
  {
    !Contains(name, ".moe.gate.") && !Contains(name, ".moe.router_bias") && MatchFused(name).Some?
  }

  function ExpertName(f: Fused, e: nat): string
  {
    f.prefix + ".experts." + Decimal(e) + "." + f.proj + "." + f.suffix
  }

  /** None where the source raises. */
  function SplitTensorName(name: string, e: nat): Option<string>
  {
    match MatchFused(name)
    case None => None
    case Some(f) => Some(ExpertName(f, e))
  }

  lemma NoDots(f: Fused, name: string)
    requires MatchFused(name) == Some(f)
    ensures '.' !in f.proj && '.' !in f.suffix && Body(name) == f.prefix + "." + f.proj + "." + f.suffix
  {
  }

  lemma DecimalHasNoDot(e: nat)
    ensures '.' !in Decimal(e)
  {
  }

  /** An expert name taken apart again. */
  lemma ExpertNameParts(f: Fused, e: nat)
    requires '.' !in f.proj && '.' !in f.suffix
    ensures SplitLast(ExpertName(f, e)) == Some((f.prefix + ".experts." + Decimal(e) + "." + f.proj, f.suffix))
    ensures SplitLast(f.prefix + ".experts." + Decimal(e) + "." + f.proj)
         == Some((f.prefix + ".experts." + Decimal(e), f.proj))
    ensures SplitLast(f.prefix + ".experts." + Decimal(e)) == Some((f.prefix + ".experts", Decimal(e)))
  {
    DecimalHasNoDot(e);
    SplitLastOfJoin(f.prefix + ".experts." + Decimal(e) + "." + f.proj, f.suffix);
    SplitLastOfJoin(f.prefix + ".experts." + Decimal(e), f.proj);
    assert f.prefix + ".experts." + Decimal(e) == f.prefix + ".experts" + "." + Decimal(e);
    SplitLastOfJoin(f.prefix + ".experts", Decimal(e));
  }

  /** Different experts, and experts of different tensors, never share a name. */
  lemma ExpertNamesInjective(name: string, e: nat, name': string, e': nat)
    requires MatchFused(name).Some? && SplitTensorName(name, e) == SplitTensorName(name', e')
    ensures e == e' && Body(name) == Body(name')
  {
    var f, f' := MatchFused(name).value, MatchFused(name').value;
    NoDots(f, name);
    NoDots(f', name');
    ExpertNameParts(f, e);
    ExpertNameParts(f', e');
    DecimalInjective(e, e');
    assert (f.prefix + ".experts")[..|f.prefix|] == f.prefix;
    assert (f'.prefix + ".experts")[..|f'.prefix|] == f'.prefix;
    assert |f.prefix + ".experts"| == |f'.prefix + ".experts"|;
  }

  /** An expert tensor is never fused itself: a rewritten checkpoint passes through unchanged. */
  lemma ExpertNotFused(f: Fused, e: nat)
    requires '.' !in f.proj && f.suffix in SUFFIXES
    ensures !IsFusedExpertTensor(ExpertName(f, e))
  {
    var name := ExpertName(f, e);
    assert name[|name| - 1] == f.suffix[|f.suffix| - 1] != '\n';
    assert Body(name) == name;
    ExpertNameParts(f, e);
    var prefix := f.prefix + ".experts." + Decimal(e);
    assert prefix[|prefix| - 1] == Decimal(e)[|Decimal(e)| - 1];
    assert IsDigit(prefix[|prefix| - 1]);
  }

  // --------------------------------------------------------------- splitting

  predicate Splits(t: Tensor)
  {
    IsFusedExpertTensor(t.name) && |t.shape| >= 1 && t.shape[0] > 1
  }

  /** Where part e of n bytes cut into k equal parts starts; the end of the last is PartStart(n, k, k). */
  function PartStart(n: nat, k: nat, e: nat): (at: nat)
    requires k > 0
  {
    var per: nat := n / k;
    e * per
  }

  lemma PartInRange(n: nat, k: nat, e: nat)
    requires e < k
    ensures PartStart(n, k, e) <= PartStart(n, k, e + 1) <= n
  {
    Euclid(n, k);
    Steps(n / k, k, e);
  }

  lemma Steps(per: nat, k: nat, e: nat)
    requires e < k
    ensures e * per <= (e + 1) * per <= k * per
  {
    assert k * per == (e + 1) * per + (k - e - 1) * per;
    assert (k - e - 1) * per >= 0;
  }

  /** Where expert e's bytes start. */
  function Cut(t: Tensor, e: nat): nat
    requires Splits(t)
  {
    PartStart(|t.data|, t.shape[0], e)
  }

  lemma CutsInRange(t: Tensor, e: nat)
    requires Splits(t) && e < t.shape[0]
    ensures Cut(t, e) <= Cut(t, e + 1) <= |t.data|
  {
    hide IsFusedExpertTensor, PartStart;
    PartInRange(|t.data|, t.shape[0], e);
  }

  function Expert(t: Tensor, e: nat): Tensor
    requires Splits(t) && e < t.shape[0]
  {
    CutsInRange(t, e);
    Tensor(SplitTensorName(t.name, e).value, t.data[Cut(t, e)..Cut(t, e + 1)], t.shape[1..], t.dtype)
  }

  /** What one input tensor becomes. */
  function Outputs(t: Tensor): seq<Tensor>
  {
    if Splits(t) then seq(t.shape[0], e requires 0 <= e < t.shape[0] => Expert(t, e)) else [t]
  }

  function AllOutputs(ts: seq<Tensor>): seq<Tensor>
  {
    if ts == [] then [] else AllOutputs(ts[..|ts| - 1]) + Outputs(ts[|ts| - 1])
  }

  function Size(ts: seq<Tensor>): nat { |Blob(ts)| }

  lemma {:induction false} BlobConcat(a: seq<Tensor>, b: seq<Tensor>)
    ensures Blob(a + b) == Blob(a) + Blob(b)
  {
    var all := a + b;
    if b == [] {
      assert all == a;
    } else {
      var l := |b| - 1;
      BlobConcat(a, b[..l]);
      assert all[..|all| - 1] == a + b[..l] && all[|all| - 1] == b[l];
    }
  }

  lemma {:induction false} ExpertsBlob(t: Tensor, n: nat)
    requires Splits(t) && n <= t.shape[0]
    ensures Cut(t, n) <= |t.data| && Blob(Outputs(t)[..n]) == t.data[..Cut(t, n)]
    decreases n
  {
    hide IsFusedExpertTensor, SplitTensorName, MatchFused, Blob, Cut;
    if n == 0 {
      assert Outputs(t)[..0] == [];
      EmptyBlob();
      FirstCut(t);
    } else {
      ExpertsBlob(t, n - 1);
      CutsInRange(t, n - 1);
      BlobSnoc(Outputs(t), n - 1);
      assert Outputs(t)[n - 1].data == t.data[Cut(t, n - 1)..Cut(t, n)];
      Adjacent(t.data, Cut(t, n - 1), Cut(t, n));
    }
  }

  lemma FirstCut(t: Tensor)
    requires Splits(t)
    ensures Cut(t, 0) == 0
  {
  }

  lemma EmptyBlob()
    ensures Blob([]) == []
  {
  }

  lemma Adjacent(data: Bytes, i: nat, j: nat)
    requires i <= j <= |data|
    ensures data[..i] + data[i..j] == data[..j]
  {
  }

  /** All experts together hold the data up to the last whole expert. */
  lemma SplitBlob(t: Tensor)
    requires Splits(t)
    ensures var whole := |t.data| - |t.data| % t.shape[0];
            0 <= whole <= |t.data| && Blob(Outputs(t)) == t.data[..whole]
  {
    hide IsFusedExpertTensor, Blob;
    var k := t.shape[0];
    ExpertsBlob(t, k);
    assert Outputs(t)[..k] == Outputs(t);
    Euclid(|t.data|, k);
  }

  lemma Euclid(n: nat, k: nat)
    requires k > 0
    ensures k * (n / k) == n - n % k
  {
  }

  /** The experts' bytes concatenate back to the original exactly when the expert count divides its size. */
  lemma SplitConserves(t: Tensor)
    ensures Blob(Outputs(t)) == t.data <==> (Splits(t) ==> |t.data| % t.shape[0] == 0)
  {
    hide IsFusedExpertTensor;
    if Splits(t) {
      SplitBlob(t);
    } else {
      SingleBlob(t);
    }
  }

  lemma SingleBlob(t: Tensor)
    ensures Blob([t]) == t.data
  {
    EmptyBlob();
    BlobSnoc([t], 0);
    assert [t][..1] == [t] && [t][..0] == [];
  }

  ghost predicate Divides(t: Tensor)
  {
    Splits(t) ==> |t.data| % t.shape[0] == 0
  }

  lemma NeverGrows(t: Tensor)
    ensures |Blob(Outputs(t))| <= |t.data|
    ensures |Blob(Outputs(t))| == |t.data| <==> Divides(t)
  {
    hide IsFusedExpertTensor, Blob;
    SplitConserves(t);
    if Splits(t) { SplitBlob(t); } else { SingleBlob(t); }
  }

  ghost predicate AllDivide(ts: seq<Tensor>)
  {
    forall n :: 0 <= n < |ts| ==> Divides(ts[n])
  }

  /** Over a whole checkpoint: bytes are kept, in order, exactly when every fused tensor divides evenly. */
  lemma {:induction false} CheckpointConserved(ts: seq<Tensor>)
    ensures Size(AllOutputs(ts)) <= Size(ts)
    ensures Size(AllOutputs(ts)) == Size(ts) <==> AllDivide(ts)
    ensures Blob(AllOutputs(ts)) == Blob(ts) <==> AllDivide(ts)
    decreases |ts|
  {
    hide Outputs, Divides;
    if ts != [] {
      var l := |ts| - 1;
      CheckpointConserved(ts[..l]);
      NeverGrows(ts[l]);
      SplitConservesData(ts[l]);
      BlobConcat(AllOutputs(ts[..l]), Outputs(ts[l]));
      assert AllDivide(ts) <==> AllDivide(ts[..l]) && Divides(ts[l]);
    }
  }

  lemma SplitConservesData(t: Tensor)
    ensures Divides(t) ==> Blob(Outputs(t)) == t.data
  {
    SplitConserves(t);
  }

  /** The data holds w bytes for each element of the shape. */
  ghost predicate Sized(t: Tensor, w: nat) { |t.data| == Numel(t.shape) * w }

  /** The first dimension of a well-formed tensor divides its bytes. */
  lemma SizedDivides(t: Tensor, w: nat)
    requires Sized(t, w)
    ensures Divides(t)
  {
    hide IsFusedExpertTensor;
    if Splits(t) {
      var k, rest := t.shape[0], Numel(t.shape[1..]);
      assert |t.data| == k * (rest * w);
      MultipleDivides(k, rest * w);
    }
  }

  lemma MultipleDivides(k: nat, q: nat)
    requires k > 0
    ensures (k * q) % k == 0
  {
    ModUnique(k * q, k, q, 0);
  }

  /** A checkpoint whose data agrees with its shapes is kept byte for byte. */
  lemma WellFormedConserved(ts: seq<Tensor>)
    requires forall n :: 0 <= n < |ts| ==> exists w :: Sized(ts[n], w)
    ensures Blob(AllOutputs(ts)) == Blob(ts)
  {
    forall n | 0 <= n < |ts|
      ensures Divides(ts[n])
    {
      var w :| Sized(ts[n], w);
      SizedDivides(ts[n], w);
    }
    CheckpointConserved(ts);
  }

  const UP_PROJ: string := ".moe.up_proj.weight"

  lemma UpProjMatches(c: char)
    requires c != '.' && c != '\n'
    ensures MatchFused([c] + UP_PROJ).Some?
  {
    hide SplitLast;
    var name, prefix := [c] + UP_PROJ, [c] + ".moe";
    assert name == prefix + ".up_proj" + "." + "weight" && prefix + ".up_proj" == prefix + "." + "up_proj";
    SplitLastOfJoin(prefix + ".up_proj", "weight");
    SplitLastOfJoin(prefix, "up_proj");
    assert prefix[1..] == ".moe";
    assert name[|name| - 1] == 't';
    assert name[|name| - 1..][0] != '\n';
    assert Body(name) == name;
  }

  /** No `.moe.gate.` and no `.moe.router_bias` fits, whose sixth characters are g and r. */
  lemma UpProjNotSkipped(c: char, k: nat)
    requires 5 <= k <= 15
    ensures ([c] + UP_PROJ)[k] != 'g' && (k <= 9 ==> ([c] + UP_PROJ)[k] != 'r')
  {
    assert ([c] + UP_PROJ)[k] == UP_PROJ[k - 1];
  }

  lemma SixthCharacter(s: string, t: string)
    requires |t| >= 6 && Contains(s, t)
    ensures exists k :: 5 <= k <= |s| - |t| + 5 && s[k] == t[5]
  {
    var k :| 0 <= k <= |s| - |t| && s[k..][..|t|] == t;
    assert s[k + 5] == s[k..][..|t|][5];
  }

  lemma UpProjFused(c: char)
    requires c != '.' && c != '\n'
    ensures MatchFused([c] + UP_PROJ).Some? && IsFusedExpertTensor([c] + UP_PROJ)
  {
    hide MatchFused, Contains;
    UpProjMatches(c);
    var name := [c] + UP_PROJ;
    if Contains(name, ".moe.gate.") {
      SixthCharacter(name, ".moe.gate.");
      var k :| 5 <= k <= 15 && name[k] == 'g';
      UpProjNotSkipped(c, k);
      assert false;
    }
    if Contains(name, ".moe.router_bias") {
      SixthCharacter(name, ".moe.router_bias");
      var k :| 5 <= k <= 9 && name[k] == 'r';
      UpProjNotSkipped(c, k);
      assert false;
    }
  }

  /** Two experts in three bytes: the third byte is lost. */
  const RAGGED: Tensor := Tensor("x" + UP_PROJ, [1, 2, 3], [2], "U8")

  lemma RaggedLosesByte()
    ensures Splits(RAGGED) && Blob(Outputs(RAGGED)) == [1, 2] != RAGGED.data
  {
    hide IsFusedExpertTensor;
    UpProjFused('x');
    assert RAGGED.data[..2] == [1, 2];
    SplitBlob(RAGGED);
  }

  lemma OutputsNotFused(t: Tensor, n: nat)
    requires n < |Outputs(t)|
    ensures !Splits(Outputs(t)[n])
  {
    if Splits(t) {
      var f := MatchFused(t.name).value;
      NoDots(f, t.name);
      ExpertNotFused(f, n);
    }
  }

  lemma {:induction false} AllOutputsNotFused(ts: seq<Tensor>, n: nat)
    requires n < |AllOutputs(ts)|
    ensures !Splits(AllOutputs(ts)[n])
    decreases |ts|
  {
    hide Splits, Outputs;
    var l := |ts| - 1;
    var k := |AllOutputs(ts[..l])|;
    if n < k { AllOutputsNotFused(ts[..l], n); } else { OutputsNotFused(ts[l], n - k); }
  }

  /**
   * Rewriting what was written changes nothing, in whatever order it is read: the second run sorts each
   * shard's names again, and `experts.10` sorts before `experts.2`.
   */
  lemma RewriteIdempotent(ts: seq<Tensor>, again: seq<Tensor>)
    requires forall t :: t in again ==> t in AllOutputs(ts)
    ensures AllOutputs(again) == again
  {
    hide Splits, AllOutputs;
    forall n | 0 <= n < |again|
      ensures !Splits(again[n])
    {
      assert again[n] in AllOutputs(ts);
      var k :| 0 <= k < |AllOutputs(ts)| && AllOutputs(ts)[k] == again[n];
      AllOutputsNotFused(ts, k);
    }
    UnfusedPassThrough([], again);
    NoOutputs();
    assert [] + again == again;
  }

  lemma NoOutputs()
    ensures AllOutputs([]) == []
  {
  }

  lemma PassThrough(t: Tensor)
    requires !Splits(t)
    ensures Outputs(t) == [t]
  {
  }

  lemma {:induction false} UnfusedPassThrough(a: seq<Tensor>, b: seq<Tensor>)
    requires forall n :: 0 <= n < |b| ==> !Splits(b[n])
    ensures AllOutputs(a + b) == AllOutputs(a) + b
    decreases |b|
  {
    hide Splits, Outputs;
    var all := a + b;
    if b == [] {
      assert all == a;
    } else {
      var l := |b| - 1;
      UnfusedPassThrough(a, b[..l]);
      assert all[..|all| - 1] == a + b[..l] && all[|all| - 1] == b[l];
      PassThrough(b[l]);
      assert b == b[..l] + [b[l]];
      assert AllOutputs(a) + b[..l] + [b[l]] == AllOutputs(a) + b;
    }
  }
}
