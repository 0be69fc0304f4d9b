// The rewriter's main loop, and what a reader of the rewritten checkpoint finds under which name.
module CheckpointRun {
  import opened Text
  import opened Sequences
  import opened Safetensors
  import opened ExpertSplit
  import opened ShardPacking

  // ------------------------------------------------------- which names are fused

  /** A fused name and its three parts, as the pattern and the two skip rules say; `$` lets one line break follow. */
  ghost predicate Parts(name: string, prefix: string, proj: string, suffix: string)
  {
    var core := prefix + "." + proj + "." + suffix;
    && (name == core || name == core + "\n")
    && |prefix| > 4 && prefix[|prefix| - 4..] == ".moe" && '\n' !in prefix
    && proj in {"gate_proj", "up_proj", "down_proj"}
    && suffix in {"weight", "weight_scale", "input_scale", "weight_scale_2"}
    && !Contains(name, ".moe.gate.") && !Contains(name, ".moe.router_bias")
  }

  lemma BodyOfCore(core: string, name: string)
    requires (name == core || name == core + "\n") && core != "" && core[|core| - 1] != '\n'
    ensures Body(name) == core
  {
    if name == core {
      assert name[|name| - 1..][0] != '\n';
    } else {
      assert name[|name| - 1..] == "\n" && name[..|name| - 1] == core;
    }
  }

  lemma SuffixEnds(suffix: string)
    requires suffix in {"weight", "weight_scale", "input_scale", "weight_scale_2"}
    ensures suffix != "" && suffix[|suffix| - 1] != '\n' && '.' !in suffix
  {
  }

  lemma ProjPlain(proj: string)
    requires proj in {"gate_proj", "up_proj", "down_proj"}
    ensures '.' !in proj
  {
  }

  /** Names with such parts are the fused ones, and the parts are what the pattern finds. */
  lemma PartsMatch(name: string, prefix: string, proj: string, suffix: string)
    requires Parts(name, prefix, proj, suffix)
    ensures IsFusedExpertTensor(name) && MatchFused(name) == Some(Fused(prefix, proj, suffix))
  {
    hide Contains, SplitLast;
    var core := prefix + "." + proj + "." + suffix;
    SuffixEnds(suffix);
    ProjPlain(proj);
    assert core[|core| - 1] == suffix[|suffix| - 1];
    BodyOfCore(core, name);
    SplitLastOfJoin(prefix + "." + proj, suffix);
    SplitLastOfJoin(prefix, proj);
  }

  lemma FusedHasParts(name: string)
    requires IsFusedExpertTensor(name)
    ensures exists prefix, proj, suffix :: Parts(name, prefix, proj, suffix)
  {
    hide Contains, SplitLast;
    var f := MatchFused(name).value;
    NoDots(f, name);
    assert name == Body(name) || name == Body(name) + "\n";
    assert Parts(name, f.prefix, f.proj, f.suffix);
  }

  // ------------------------------------------------------------ what is delivered

  /** No input carries the name under which headers keep their metadata. */
  ghost predicate Unreserved(ts: seq<Tensor>) { forall t :: t in ts ==> t.name != METADATA }

  /** The index leads from the name to a file that, if its header length fits, reads back this tensor. */
  ghost predicate Found(json: Json, p: Packing, t: Tensor)
  {
    && t.name in p.weightMap && 1 <= p.weightMap[t.name] <= |p.shards| == |p.files|
    && var k := p.weightMap[t.name] - 1;
       Fits(json, p.shards[k]) ==> ReadName(json, p.files[k], t.name) == Some(t)
  }

  /** Expert e of a fused tensor: its own name, its share of the bytes, the shape without the first dimension. */
  ghost predicate ExpertFound(json: Json, p: Packing, t: Tensor, prefix: string, proj: string, suffix: string, e: nat)
    requires |t.shape| >= 1 && t.shape[0] > 0 && e < t.shape[0]
  {
    var per := |t.data| / t.shape[0];
    && 0 <= e * per <= (e + 1) * per <= |t.data|
    && Found(json, p, Tensor(prefix + ".experts." + Decimal(e) + "." + proj + "." + suffix,
         t.data[e * per..(e + 1) * per], t.shape[1..], t.dtype))
  }

  /** A tensor with a fused name and more than one expert, and one of its experts. */
  ghost predicate HasExpert(t: Tensor, prefix: string, proj: string, suffix: string, e: int)
  {
    Parts(t.name, prefix, proj, suffix) && |t.shape| >= 1 && t.shape[0] > 1 && 0 <= e < t.shape[0]
  }

  ghost predicate PassedOn(t: Tensor) { forall prefix, proj, suffix, e :: !HasExpert(t, prefix, proj, suffix, e) }

  /** Every expert of every fused input under its own name, every other input under its. */
  ghost predicate Delivered(json: Json, p: Packing, ts: seq<Tensor>)
  {
    forall t :: t in ts ==>
      && (forall prefix, proj, suffix, e :: HasExpert(t, prefix, proj, suffix, e) ==>
            ExpertFound(json, p, t, prefix, proj, suffix, e))
      && (PassedOn(t) ==> Found(json, p, t))
  }

  lemma {:induction false} FlatFind(shards: seq<seq<Tensor>>, x: nat) returns (k: nat, n: nat)
    requires x < |Flat(shards)|
    ensures k < |shards| && n < |shards[k]| && shards[k][n] == Flat(shards)[x]
    decreases |shards|
  {
    var l := |shards| - 1;
    var before := |Flat(shards[..l])|;
    if x < before {
      k, n := FlatFind(shards[..l], x);
    } else {
      k, n := l, x - before;
    }
  }

  /** What the rewriter left, as far as finding tensors goes. */
  ghost predicate Ended(json: Json, p: Packing, ts: seq<Tensor>)
  {
    && Flat(p.shards) == AllOutputs(ts) && Indexes(p.weightMap, p.shards)
    && |p.files| == |p.shards| && forall j :: 0 <= j < |p.shards| ==> p.files[j] == FileOf(json, p.shards[j])
  }

  lemma OutputFound(json: Json, ts: seq<Tensor>, p: Packing, a: nat, m: nat)
    requires json.Lawful() && NoClash(ts) && Unreserved(ts) && Ended(json, p, ts)
    requires a < |ts| && m < |Outputs(ts[a])|
    ensures Found(json, p, Outputs(ts[a])[m])
  {
    hide Json.Lawful, NoClash, Outputs, AllOutputs, Indexes, FileOf, Fits, ReadName, Flat;
    BlockAt(ts, a, m);
    var k, n := FlatFind(p.shards, |AllOutputs(ts[..a])| + m);
    OutputNamesDistinct(ts);
    IndexedAt(p, k, n);
    if Fits(json, p.shards[k]) { IndexFindsEveryTensor(json, ts, p, k, n); }
  }

  /** An expert's tensor, written out. */
  lemma ExpertWritten(t: Tensor, prefix: string, proj: string, suffix: string, e: nat)
    requires HasExpert(t, prefix, proj, suffix, e)
    ensures Splits(t) && |Outputs(t)| == t.shape[0]
    ensures var per := |t.data| / t.shape[0];
      && 0 <= e * per <= (e + 1) * per <= |t.data|
      && Outputs(t)[e] == Tensor(prefix + ".experts." + Decimal(e) + "." + proj + "." + suffix,
           t.data[e * per..(e + 1) * per], t.shape[1..], t.dtype)
  {
    hide Parts, IsFusedExpertTensor, MatchFused;
    PartsMatch(t.name, prefix, proj, suffix);
    CutsInRange(t, e);
    assert Cut(t, e) == e * (|t.data| / t.shape[0]) && Cut(t, e + 1) == (e + 1) * (|t.data| / t.shape[0]);
  }

  lemma AllDelivered(json: Json, ts: seq<Tensor>, p: Packing)
    requires json.Lawful() && NoClash(ts) && Unreserved(ts) && Ended(json, p, ts)
    ensures Delivered(json, p, ts)
  {
    hide Json.Lawful, NoClash, Unreserved, Ended, Parts, Found, Outputs, Splits;
    forall t | t in ts
      ensures forall prefix, proj, suffix, e :: HasExpert(t, prefix, proj, suffix, e) ==>
                ExpertFound(json, p, t, prefix, proj, suffix, e)
      ensures PassedOn(t) ==> Found(json, p, t)
    {
      var a :| 0 <= a < |ts| && ts[a] == t;
      forall prefix, proj, suffix, e | HasExpert(t, prefix, proj, suffix, e)
        ensures ExpertFound(json, p, t, prefix, proj, suffix, e)
      {
        ExpertWritten(t, prefix, proj, suffix, e);
        OutputFound(json, ts, p, a, e);
      }
      if PassedOn(t) {
        NotSplit(t);
        OutputFound(json, ts, p, a, 0);
      }
    }
  }

  lemma SplitHasExpert(t: Tensor)
    requires Splits(t)
    ensures exists prefix, proj, suffix, e :: HasExpert(t, prefix, proj, suffix, e)
  {
    hide Parts, IsFusedExpertTensor;
    FusedHasParts(t.name);
    var prefix, proj, suffix :| Parts(t.name, prefix, proj, suffix);
    assert HasExpert(t, prefix, proj, suffix, 0);
  }

  lemma NotSplit(t: Tensor)
    requires PassedOn(t)
    ensures Outputs(t) == [t]
  {
    hide HasExpert, Splits;
    if Splits(t) { SplitHasExpert(t); }
  }

  /**
   * The rewriter. In order, the flushed shards are the input tensors with each fused one replaced by its
   * experts; every file is the written form of its shard; the index points every name to the last shard
   * that holds it; every shard but the last has reached the limit, and none reached it before its last tensor.
   */
  method ProcessCheckpoint(json: Json, inputs: seq<seq<Tensor>>, limit: int) returns (p: Packing, r: Report)
    ensures Flat(p.shards) == AllOutputs(Flat(inputs)) && p.current == []
    ensures |p.files| == |p.shards| == p.shardIdx - 1
    ensures forall k :: 0 <= k < |p.shards| ==> p.files[k] == FileOf(json, p.shards[k]) && Snug(p.shards[k], limit)
    ensures forall k :: 0 <= k < |p.shards| - 1 ==> Size(p.shards[k]) >= limit
    ensures Indexes(p.weightMap, p.shards)
    ensures Reports(r, Flat(inputs))
    ensures json.Lawful() && NoClash(Flat(inputs)) && Unreserved(Flat(inputs)) ==> Delivered(json, p, Flat(inputs))
  {
    p := Packing([], [], map[], [], 0, 1);
    r := Report(0, 0, None, 0);
    Initially(json, p, r, limit);
    hide *;
    assert Flat(inputs[..0]) == [] by { FlatEmpty(inputs); }
    for a := 0 to |inputs|
      invariant Packed(json, p, AllOutputs(Flat(inputs[..a])), limit) && Reports(r, Flat(inputs[..a]))
    {
      p, r := ProcessShard(json, p, r, inputs[a], limit, Flat(inputs[..a]));
      FlatSnoc(inputs, a);
    }
    assert inputs[..|inputs|] == inputs;
    p := LastFlush(json, p, AllOutputs(Flat(inputs)), limit);
    if json.Lawful() && NoClash(Flat(inputs)) && Unreserved(Flat(inputs)) { AllDelivered(json, Flat(inputs), p); }
  }
}
