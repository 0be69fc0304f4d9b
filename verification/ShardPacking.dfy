// Packing the rewritten tensors into output shards, and the index that says where each one is.
module ShardPacking {
  import opened Text
  import opened Safetensors
  import opened ExpertSplit
  import opened Sequences

  /** The state that the rewriter's loop and its flush step share. Shards are numbered from 1. */
  datatype Packing = Packing(shards: seq<seq<Tensor>>, files: seq<Bytes>, weightMap: map<string, nat>,
                             current: seq<Tensor>, currentBytes: nat, shardIdx: nat)

  function Names(ts: seq<Tensor>): set<string>
  {
    set t | t in ts :: t.name
  }

  /** Not empty, and below the limit until its last tensor arrived. */
  predicate Snug(shard: seq<Tensor>, limit: int)
  {
    |shard| > 0 && (|shard| == 1 || Size(shard[..|shard| - 1]) < limit)
  }

  /** Every name points to the last shard that holds it. */
  ghost predicate Indexes(weightMap: map<string, nat>, shards: seq<seq<Tensor>>)
  {
    && (forall name :: name in weightMap ==>
          1 <= weightMap[name] <= |shards| && name in Names(shards[weightMap[name] - 1])
          && forall k :: weightMap[name] <= k < |shards| ==> name !in Names(shards[k]))
    && (forall k, name :: 0 <= k < |shards| && name in Names(shards[k]) ==> name in weightMap)
  }

  ghost predicate Packed(json: Json, p: Packing, out: seq<Tensor>, limit: int)
  {
    && Flat(p.shards) + p.current == out
    && p.currentBytes == Size(p.current)
    && p.shardIdx == |p.shards| + 1 == |p.files| + 1
    && (forall k :: 0 <= k < |p.shards| ==> p.files[k] == FileOf(json, p.shards[k]))
    && (forall k :: 0 <= k < |p.shards| ==> Snug(p.shards[k], limit) && Size(p.shards[k]) >= limit)
    && (p.current != [] ==> Size(p.current) < limit)
    && Indexes(p.weightMap, p.shards)
  }

  method FlushShard(json: Json, p: Packing) returns (q: Packing)
    requires p.shardIdx == |p.shards| + 1 == |p.files| + 1 && Indexes(p.weightMap, p.shards)
    ensures p.current == [] ==> q == p
    ensures p.current != [] ==>
      && q.shards == p.shards + [p.current] && q.files == p.files + [FileOf(json, p.current)]
      && q.current == [] && q.currentBytes == 0 && q.shardIdx == p.shardIdx + 1
    ensures Indexes(q.weightMap, q.shards)
  {
    hide FileOf, Indexes;
    if p.current == [] { return p; }
    var file := WriteSafetensors(json, p.current);
    var weightMap := IndexShard(p.weightMap, p.current, p.shardIdx);
    IndexesNext(p.weightMap, weightMap, p.shards, p.current);
    q := Packing(p.shards + [p.current], p.files + [file], weightMap, [], 0, p.shardIdx + 1);
  }

  /** What one shard's names do to the index. */
  ghost predicate PointsTo(before: map<string, nat>, after: map<string, nat>, names: set<string>, shardIdx: nat)
  {
    && after.Keys == before.Keys + names
    && forall name :: name in after ==> after[name] == if name in names then shardIdx else before[name]
  }

  method IndexShard(before: map<string, nat>, shard: seq<Tensor>, shardIdx: nat) returns (weightMap: map<string, nat>)
    ensures PointsTo(before, weightMap, Names(shard), shardIdx)
  {
    weightMap := before;
    assert Names(shard[..0]) == {};
    for n := 0 to |shard|
      invariant PointsTo(before, weightMap, Names(shard[..n]), shardIdx)
    {
      assert shard[..n + 1] == shard[..n] + [shard[n]];
      assert Names(shard[..n + 1]) == Names(shard[..n]) + {shard[n].name};
      weightMap := weightMap[shard[n].name := shardIdx];
    }
    assert shard[..|shard|] == shard;
  }

  lemma IndexesNext(before: map<string, nat>, after: map<string, nat>, shards: seq<seq<Tensor>>, shard: seq<Tensor>)
    requires Indexes(before, shards) && PointsTo(before, after, Names(shard), |shards| + 1)
    ensures Indexes(after, shards + [shard])
  {
    hide Names;
    var next := shards + [shard];
    assert forall k :: 0 <= k < |shards| ==> next[k] == shards[k];
    assert next[|shards|] == shard;
  }

  /** One tensor joins the current shard, which is flushed as soon as it reaches the limit. */
  method Append(json: Json, p: Packing, t: Tensor, limit: int, ghost out: seq<Tensor>) returns (q: Packing)
    requires Packed(json, p, out, limit)
    ensures Packed(json, q, out + [t], limit)
  {
    hide FileOf, Indexes, Names;
    var current := p.current + [t];
    assert current[..|p.current|] == p.current;
    q := p.(current := current, currentBytes := p.currentBytes + |t.data|);
    assert p.current == [] ==> |current| == 1;
    assert Snug(current, limit);
    assert Flat(p.shards) + current == out + [t];
    if q.currentBytes >= limit {
      var r := FlushShard(json, q);
      assert r.shards[..|p.shards|] == p.shards;
      assert Flat(r.shards) == Flat(p.shards) + current;
      q := r;
    }
  }

  function CountSplits(ts: seq<Tensor>): nat
  {
    if ts == [] then 0 else CountSplits(ts[..|ts| - 1]) + (if Splits(ts[|ts| - 1]) then 1 else 0)
  }

  /** The shape[0] that both the rewriter and the dry run report: that of the first fused tensor. */
  function FirstExperts(ts: seq<Tensor>): Option<nat>
  {
    if ts == [] then None
    else if FirstExperts(ts[..|ts| - 1]).Some? then FirstExperts(ts[..|ts| - 1])
    else if Splits(ts[|ts| - 1]) then Some(ts[|ts| - 1].shape[0]) else None
  }

  datatype Report = Report(fusedSplit: nat, passedThrough: nat, totalExperts: Option<nat>, totalBytes: nat)

  ghost predicate Reports(r: Report, done: seq<Tensor>)
  {
    && r.fusedSplit == CountSplits(done) && r.passedThrough == |done| - CountSplits(done)
    && r.totalExperts == FirstExperts(done) && r.totalBytes == Size(AllOutputs(done))
  }

  /** The loop body for one input tensor. */
  method ProcessTensor(json: Json, p: Packing, r: Report, t: Tensor, limit: int, ghost done: seq<Tensor>)
    returns (q: Packing, s: Report)
    requires Packed(json, p, AllOutputs(done), limit) && Reports(r, done)
    ensures Packed(json, q, AllOutputs(done + [t]), limit) && Reports(s, done + [t])
  {
    hide *;
    SizesAdd(done, t);
    if Splits(t) {
      q, s := ProcessFused(json, p, r, t, limit, done);
    } else {
      q := Append(json, p, t, limit, AllOutputs(done));
      s := r.(totalBytes := r.totalBytes + |t.data|, passedThrough := r.passedThrough + 1);
      PassedReport(r, s, t, done);
    }
  }

  lemma SizesAdd(done: seq<Tensor>, t: Tensor)
    ensures AllOutputs(done + [t]) == AllOutputs(done) + Outputs(t)
    ensures Size(AllOutputs(done + [t])) == Size(AllOutputs(done)) + Size(Outputs(t))
    ensures !Splits(t) ==> Outputs(t) == [t] && Size(Outputs(t)) == |t.data|
  {
    assert (done + [t])[..|done|] == done;
    BlobConcat(AllOutputs(done), Outputs(t));
    if !Splits(t) { SingleBlob(t); }
  }

  lemma PassedReport(r: Report, s: Report, t: Tensor, done: seq<Tensor>)
    requires Reports(r, done) && !Splits(t)
    requires s == r.(totalBytes := r.totalBytes + |t.data|, passedThrough := r.passedThrough + 1)
    ensures Reports(s, done + [t])
  {
    hide Splits, AllOutputs, Outputs;
    SizesAdd(done, t);
    assert (done + [t])[..|done|] == done;
  }

  lemma FusedReport(r: Report, s: Report, t: Tensor, done: seq<Tensor>)
    requires Reports(r, done) && Splits(t) && s.fusedSplit == r.fusedSplit + 1 && s.passedThrough == r.passedThrough
    requires s.totalExperts == (if r.totalExperts.Some? then r.totalExperts else Some(SplitCount(t)))
    requires s.totalBytes == r.totalBytes + Size(Outputs(t))
    ensures Reports(s, done + [t])
  {
    hide Splits, AllOutputs, Outputs;
    SizesAdd(done, t);
    assert (done + [t])[..|done|] == done;
  }

  /** The loop over one fused tensor's experts. */
  method ProcessFused(json: Json, p: Packing, r: Report, t: Tensor, limit: int, ghost done: seq<Tensor>)
    returns (q: Packing, s: Report)
    requires Packed(json, p, AllOutputs(done), limit) && Reports(r, done) && Splits(t)
    ensures Packed(json, q, AllOutputs(done) + Outputs(t), limit) && Reports(s, done + [t])
  {
    hide FileOf, Packed, Reports, Splits, Expert, Size;
    q, s := p, r;
    ghost var before := AllOutputs(done);
    var experts := SplitCount(t);
    if s.totalExperts.None? { s := s.(totalExperts := Some(experts)); }
    assert Outputs(t)[..0] == [] && before + [] == before;
    NoBytes();
    for e := 0 to experts
      invariant Packed(json, q, before + Outputs(t)[..e], limit)
      invariant s.totalBytes == r.totalBytes + Size(Outputs(t)[..e])
      invariant s.fusedSplit == r.fusedSplit && s.passedThrough == r.passedThrough
      invariant s.totalExperts == if r.totalExperts.Some? then r.totalExperts else Some(experts)
    {
      var piece := Expert(t, e);
      q := Append(json, q, piece, limit, before + Outputs(t)[..e]);
      OneMoreExpert(t, e);
      assert before + Outputs(t)[..e] + [piece] == before + Outputs(t)[..e + 1];
      s := s.(totalBytes := s.totalBytes + |piece.data|);
    }
    assert Outputs(t)[..experts] == Outputs(t);
    s := s.(fusedSplit := s.fusedSplit + 1);
    FusedReport(r, s, t, done);
  }

  lemma NoBytes()
    ensures Size([]) == 0
  {
  }

  lemma OneMoreExpert(t: Tensor, e: nat)
    requires Splits(t) && e < SplitCount(t)
    ensures Outputs(t)[..e + 1] == Outputs(t)[..e] + [Expert(t, e)]
    ensures Size(Outputs(t)[..e + 1]) == Size(Outputs(t)[..e]) + |Expert(t, e).data|
  {
    hide Splits, Expert;
    BlobSnoc(Outputs(t), e);
  }

  function SplitCount(t: Tensor): (k: nat)
    requires Splits(t)
    ensures |t.shape| >= 1 && k == t.shape[0] == |Outputs(t)|
  {
    t.shape[0]
  }

  lemma Initially(json: Json, p: Packing, r: Report, limit: int)
    requires p == Packing([], [], map[], [], 0, 1) && r == Report(0, 0, None, 0)
    ensures Packed(json, p, AllOutputs([]), limit) && Reports(r, [])
  {
  }

  /** All tensors of one input shard, in name order. */
  method ProcessShard(json: Json, p: Packing, r: Report, shard: seq<Tensor>, limit: int, ghost done: seq<Tensor>)
    returns (q: Packing, s: Report)
    requires Packed(json, p, AllOutputs(done), limit) && Reports(r, done)
    ensures Packed(json, q, AllOutputs(done + shard), limit) && Reports(s, done + shard)
  {
    hide *;
    q, s := p, r;
    assert done + shard[..0] == done;
    for b := 0 to |shard|
      invariant Packed(json, q, AllOutputs(done + shard[..b]), limit) && Reports(s, done + shard[..b])
    {
      q, s := ProcessTensor(json, q, s, shard[b], limit, done + shard[..b]);
      assert done + shard[..b] + [shard[b]] == done + shard[..b + 1];
    }
    assert shard[..|shard|] == shard;
  }

  /** The flush after the loop: only this shard may stay below the limit. */
  method LastFlush(json: Json, p: Packing, ghost out: seq<Tensor>, limit: int) returns (q: Packing)
    requires Packed(json, p, out, limit)
    ensures Flat(q.shards) == out && q.current == [] && |q.files| == |q.shards| == q.shardIdx - 1
    ensures forall k :: 0 <= k < |q.shards| ==> q.files[k] == FileOf(json, q.shards[k]) && Snug(q.shards[k], limit)
    ensures forall k :: 0 <= k < |q.shards| - 1 ==> Size(q.shards[k]) >= limit
    ensures Indexes(q.weightMap, q.shards)
  {
    hide FileOf, Indexes, Names;
    q := FlushShard(json, p);
    if p.current != [] {
      assert q.shards[..|p.shards|] == p.shards;
      FrontSmaller(p.current);
    }
  }

  lemma FrontSmaller(ts: seq<Tensor>)
    requires ts != []
    ensures Size(ts[..|ts| - 1]) <= Size(ts)
  {
  }

  // ---------------------------------------------------------------- the index

  ghost predicate DistinctNames(ts: seq<Tensor>)
  {
    forall a, b :: 0 <= a < b < |ts| ==> ts[a].name != ts[b].name
  }

  lemma {:induction false} FlatPosition(shards: seq<seq<Tensor>>, k: nat, n: nat)
    requires k < |shards| && n < |shards[k]|
    ensures |Flat(shards[..k])| + n < |Flat(shards)| && Flat(shards)[|Flat(shards[..k])| + n] == shards[k][n]
    decreases |shards|
  {
    var l := |shards| - 1;
    if k < l {
      FlatPosition(shards[..l], k, n);
      assert shards[..l][..k] == shards[..k];
    }
  }

  lemma {:induction false} FlatMonotone(shards: seq<seq<Tensor>>, k: nat, j: nat)
    requires k < j <= |shards|
    ensures |Flat(shards[..k])| + |shards[k]| <= |Flat(shards[..j])|
    decreases j
  {
    FlatSnoc(shards, j - 1);
    if k < j - 1 { FlatMonotone(shards, k, j - 1); }
  }

  /**
   * After a run on inputs whose names do not clash, following the index finds every tensor: the named
   * shard's file reads back its bytes, shape and dtype. Inputs never carry the metadata's name, which is
   * taken out of every header that is read.
   */
  lemma IndexFindsEveryTensor(json: Json, ts: seq<Tensor>, p: Packing, k: nat, n: nat)
    requires json.Lawful() && NoClash(ts) && forall t :: t in ts ==> t.name != METADATA
    requires Flat(p.shards) == AllOutputs(ts) && Indexes(p.weightMap, p.shards)
    requires |p.files| == |p.shards| && forall j :: 0 <= j < |p.shards| ==> p.files[j] == FileOf(json, p.shards[j])
    requires k < |p.shards| && n < |p.shards[k]| && Fits(json, p.shards[k])
    ensures var name := p.shards[k][n].name;
            && name in p.weightMap && p.weightMap[name] == k + 1
            && ReadName(json, p.files[k], name) == Some(p.shards[k][n])
  {
    hide *;
    OutputNamesDistinct(ts);
    IndexedAt(p, k, n);
    LastIsSelf(p.shards, k, n);
    FlatPosition(p.shards, k, n);
    NotMetadata(ts, |Flat(p.shards[..k])| + n);
    ReadBack(json, p.shards[k], n);
  }

  lemma NotMetadata(ts: seq<Tensor>, n: nat)
    requires n < |AllOutputs(ts)| && forall t :: t in ts ==> t.name != METADATA
    ensures AllOutputs(ts)[n].name != METADATA
  {
    hide Splits, Expert, AllOutputs;
    var a := OutputOrigin(ts, n);
    if Splits(ts[a]) {
      var e :| 0 <= e < SplitCount(ts[a]) && Expert(ts[a], e).name == AllOutputs(ts)[n].name;
      ExpertHasDot(ts[a], e);
    }
  }

  lemma ExpertHasDot(t: Tensor, e: nat)
    requires Splits(t) && e < t.shape[0]
    ensures '.' in Expert(t, e).name && '.' !in METADATA
  {
    var f := MatchFused(t.name).value;
    assert ExpertName(f, e)[|f.prefix|] == '.';
  }

  /** With distinct names, the index points to the one shard that holds the tensor. */
  lemma IndexedAt(p: Packing, k: nat, n: nat)
    requires Indexes(p.weightMap, p.shards) && k < |p.shards| && n < |p.shards[k]| && DistinctNames(Flat(p.shards))
    ensures p.shards[k][n].name in p.weightMap && p.weightMap[p.shards[k][n].name] == k + 1
  {
    hide Names, DistinctNames, Flat;
    var name := p.shards[k][n].name;
    NameListed(p.shards[k], n);
    var j := p.weightMap[name] - 1;
    var m := NamePosition(p.shards[j], name);
    SameShard(p.shards, k, n, j, m);
  }

  lemma NameListed(ts: seq<Tensor>, n: nat)
    requires n < |ts|
    ensures ts[n].name in Names(ts)
  {
    assert ts[n] in ts;
  }

  lemma NamePosition(ts: seq<Tensor>, name: string) returns (m: nat)
    requires name in Names(ts)
    ensures m < |ts| && ts[m].name == name
  {
    m :| 0 <= m < |ts| && ts[m].name == name;
  }

  lemma SameShard(shards: seq<seq<Tensor>>, k: nat, n: nat, j: nat, m: nat)
    requires DistinctNames(Flat(shards)) && k < |shards| && n < |shards[k]| && j < |shards| && m < |shards[j]|
    requires shards[k][n].name == shards[j][m].name
    ensures k == j && n == m
  {
    hide Flat;
    FlatPosition(shards, k, n);
    FlatPosition(shards, j, m);
    if k < j { FlatMonotone(shards, k, j); }
    if j < k { FlatMonotone(shards, j, k); }
  }

  lemma LastIsSelf(shards: seq<seq<Tensor>>, k: nat, n: nat)
    requires DistinctNames(Flat(shards)) && k < |shards| && n < |shards[k]|
    ensures LastNamed(shards[k], n) == n
  {
    hide *;
    SameShard(shards, k, n, k, LastNamed(shards[k], n));
  }

  /** The names an input tensor gives rise to. */
  ghost predicate Gives(t: Tensor, name: string)
  {
    if Splits(t) then exists e :: 0 <= e < SplitCount(t) && Expert(t, e).name == name else t.name == name
  }

  /**
   * Two inputs that would both write some name: two split tensors whose names differ at most by a final
   * line break, a passed-through tensor named like an expert of the other, or two passed through alike.
   */
  ghost predicate Clash(t: Tensor, u: Tensor)
  {
    if Splits(t) && Splits(u) then Body(t.name) == Body(u.name)
    else if Splits(t) then Gives(t, u.name)
    else if Splits(u) then Gives(u, t.name)
    else t.name == u.name
  }

  ghost predicate NoClash(ts: seq<Tensor>)
  {
    forall a, b :: 0 <= a < b < |ts| ==> !Clash(ts[a], ts[b])
  }

  lemma ClashIff(t: Tensor, u: Tensor)
    ensures Clash(t, u) <==> exists name :: Gives(t, name) && Gives(u, name)
  {
    hide Splits, Expert, Body;
    if Splits(t) && Splits(u) {
      if Clash(t, u) {
        SameExperts(t, u);
        assert Gives(t, Expert(t, 0).name) && Gives(u, Expert(t, 0).name);
      } else if name :| Gives(t, name) && Gives(u, name) {
        var e :| 0 <= e < SplitCount(t) && Expert(t, e).name == name;
        var e' :| 0 <= e' < SplitCount(u) && Expert(u, e').name == name;
        ExpertNamesDiffer(t, e, u, e');
      }
    } else if Clash(t, u) {
      assert Gives(t, if Splits(t) then u.name else t.name) && Gives(u, if Splits(t) then u.name else t.name);
    }
  }

  lemma SameExperts(t: Tensor, u: Tensor)
    requires Splits(t) && Splits(u) && Body(t.name) == Body(u.name)
    ensures SplitCount(t) > 0 && SplitCount(u) > 0 && Expert(t, 0).name == Expert(u, 0).name
  {
  }

  lemma {:induction false} OutputOrigin(ts: seq<Tensor>, n: nat) returns (a: nat)
    requires n < |AllOutputs(ts)|
    ensures a < |ts| && Gives(ts[a], AllOutputs(ts)[n].name)
    decreases |ts|
  {
    hide Splits, Expert;
    var l := |ts| - 1;
    if n < |AllOutputs(ts[..l])| {
      a := OutputOrigin(ts[..l], n);
    } else {
      a := l;
      var e := n - |AllOutputs(ts[..l])|;
      assert AllOutputs(ts)[n] == Outputs(ts[l])[e];
      OwnGives(ts[l], e);
    }
  }

  lemma ExpertNamesDiffer(t: Tensor, e: nat, t': Tensor, e': nat)
    requires Splits(t) && Splits(t') && e < t.shape[0] && e' < t'.shape[0] && Expert(t, e).name == Expert(t', e').name
    ensures e == e' && Body(t.name) == Body(t'.name)
  {
    ExpertNamesInjective(t.name, e, t'.name, e');
  }

  lemma OneSource(ts: seq<Tensor>, a: nat, b: nat, name: string)
    requires NoClash(ts) && a < |ts| && b < |ts| && Gives(ts[a], name) && Gives(ts[b], name)
    ensures a == b
  {
    hide Gives, Clash;
    if a < b { ClashIff(ts[a], ts[b]); }
    if b < a { ClashIff(ts[b], ts[a]); }
  }

  /** A name that an input gives is in that input's own block of outputs. */
  lemma GivenAt(t: Tensor, name: string) returns (m: nat)
    requires Gives(t, name)
    ensures m < |Outputs(t)| && Outputs(t)[m].name == name
  {
    hide Splits, Expert;
    if Splits(t) {
      var e :| 0 <= e < SplitCount(t) && Expert(t, e).name == name;
      m := e;
    } else {
      m := 0;
    }
  }

  lemma {:induction false} BlockAt(ts: seq<Tensor>, a: nat, m: nat)
    requires a < |ts| && m < |Outputs(ts[a])|
    ensures var k := |AllOutputs(ts[..a])|; k + m < |AllOutputs(ts)| && AllOutputs(ts)[k + m] == Outputs(ts[a])[m]
    decreases |ts|
  {
    hide Outputs;
    var l := |ts| - 1;
    if a < l {
      BlockAt(ts[..l], a, m);
      assert ts[..l][..a] == ts[..a];
    }
  }

  lemma {:induction false} BlocksInOrder(ts: seq<Tensor>, a: nat, b: nat)
    requires a < b <= |ts|
    ensures |AllOutputs(ts[..a])| + |Outputs(ts[a])| <= |AllOutputs(ts[..b])|
    decreases b
  {
    hide Outputs;
    assert ts[..b][..b - 1] == ts[..b - 1];
    if a < b - 1 { BlocksInOrder(ts, a, b - 1); }
  }

  lemma ClashRepeatsName(ts: seq<Tensor>, a: nat, b: nat)
    requires a < b < |ts| && Clash(ts[a], ts[b])
    ensures !DistinctNames(AllOutputs(ts))
  {
    hide Gives, Clash, Outputs, AllOutputs;
    ClashIff(ts[a], ts[b]);
    var name :| Gives(ts[a], name) && Gives(ts[b], name);
    var m := GivenAt(ts[a], name);
    var n := GivenAt(ts[b], name);
    BlockAt(ts, a, m);
    BlockAt(ts, b, n);
    BlocksInOrder(ts, a, b);
    var x, y := |AllOutputs(ts[..a])| + m, |AllOutputs(ts[..b])| + n;
    assert x < y && AllOutputs(ts)[x].name == AllOutputs(ts)[y].name;
  }

  /** All output names differ, as the index and the shard headers need, exactly when no two inputs clash. */
  lemma OutputNamesDistinct(ts: seq<Tensor>)
    ensures DistinctNames(AllOutputs(ts)) <==> NoClash(ts)
  {
    hide Clash, DistinctNames, AllOutputs;
    if NoClash(ts) {
      NoClashDistinct(ts);
    } else {
      var a, b :| 0 <= a < b < |ts| && Clash(ts[a], ts[b]);
      ClashRepeatsName(ts, a, b);
    }
  }

  lemma {:induction false} NoClashDistinct(ts: seq<Tensor>)
    requires NoClash(ts)
    ensures DistinctNames(AllOutputs(ts))
  {
    hide Splits, Expert, Gives, NoClash;
    if ts != [] {
      var l := |ts| - 1;
      var before, own := AllOutputs(ts[..l]), Outputs(ts[l]);
      NoClashFront(ts);
      NoClashDistinct(ts[..l]);
      OwnNamesDistinct(ts[l]);
      forall n, m | 0 <= n < |before| && 0 <= m < |own|
        ensures before[n].name != own[m].name
      {
        if before[n].name == own[m].name {
          var a := OutputOrigin(ts[..l], n);
          OwnGives(ts[l], m);
          OneSource(ts, a, l, own[m].name);
          assert false;
        }
      }
    }
  }

  lemma NoClashFront(ts: seq<Tensor>)
    requires NoClash(ts) && ts != []
    ensures NoClash(ts[..|ts| - 1])
  {
    hide Clash;
  }

  lemma OwnGives(t: Tensor, m: nat)
    requires m < |Outputs(t)|
    ensures Gives(t, Outputs(t)[m].name)
  {
    hide Splits, Expert;
    if Splits(t) {
      assert m < SplitCount(t);
      assert Outputs(t)[m] == Expert(t, m);
    }
  }

  lemma OwnNamesDistinct(t: Tensor)
    ensures DistinctNames(Outputs(t))
  {
    hide Splits, Expert, Body;
    if Splits(t) {
      forall a, b | 0 <= a < b < SplitCount(t)
        ensures Outputs(t)[a].name != Outputs(t)[b].name
      {
        if Expert(t, a).name == Expert(t, b).name { ExpertNamesDiffer(t, a, t, b); }
      }
    }
  }

  // ----------------------------------------------------------------- dry run

  /** Output tensors that fused inputs give. */
  function FusedOutputs(ts: seq<Tensor>): nat
  {
    if ts == [] then 0
    else FusedOutputs(ts[..|ts| - 1]) + (if Splits(ts[|ts| - 1]) then ts[|ts| - 1].shape[0] else 0)
  }

  lemma {:induction false} OutputCount(ts: seq<Tensor>)
    ensures |AllOutputs(ts)| == |ts| - CountSplits(ts) + FusedOutputs(ts) && CountSplits(ts) <= |ts|
  {
    hide Splits;
    if ts != [] {
      var l := |ts| - 1;
      OutputCount(ts[..l]);
      if Splits(ts[l]) { assert SplitCount(ts[l]) == |Outputs(ts[l])|; }
    }
  }

  /**
   * The dry run's counts. Its prediction multiplies the fused count by the first tensor's expert count, so
   * it is the real number of outputs exactly when that product is the sum of all expert counts.
   */
  method DryRun(tensors: seq<Tensor>) returns (fused: nat, passed: nat, predicted: nat)
    ensures fused == CountSplits(tensors) && fused + passed == |tensors|
    ensures predicted == |AllOutputs(tensors)| <==> fused * OrZero(FirstExperts(tensors)) == FusedOutputs(tensors)
  {
    hide *;
    fused, passed := 0, 0;
    var totalExperts: Option<nat> := None;
    NothingCounted(tensors);
    for n := 0 to |tensors|
      invariant fused == CountSplits(tensors[..n]) && fused + passed == n && totalExperts == FirstExperts(tensors[..n])
    {
      CountNext(tensors, n);
      if Splits(tensors[n]) {
        fused := fused + 1;
        if totalExperts.None? { totalExperts := Some(SplitCount(tensors[n])); }
      } else {
        passed := passed + 1;
      }
    }
    assert tensors[..|tensors|] == tensors;
    OutputCount(tensors);
    var product := fused * OrZero(totalExperts);
    predicted := passed + product;
  }

  function OrZero(x: Option<nat>): nat { if x.Some? then x.value else 0 }

  lemma NothingCounted(ts: seq<Tensor>)
    ensures CountSplits(ts[..0]) == 0 && FirstExperts(ts[..0]) == None
  {
  }

  lemma CountNext(ts: seq<Tensor>, n: nat)
    requires n < |ts|
    ensures CountSplits(ts[..n + 1]) == CountSplits(ts[..n]) + if Splits(ts[n]) then 1 else 0
    ensures FirstExperts(ts[..n + 1]) == if FirstExperts(ts[..n]).Some? then FirstExperts(ts[..n])
                                         else if Splits(ts[n]) then Some(SplitCount(ts[n])) else None
  {
    hide Splits;
    assert ts[..n + 1][..n] == ts[..n];
  }

  /** When every fused tensor has the same expert count, the prediction is right. */
  lemma {:induction false} UniformPrediction(ts: seq<Tensor>, experts: nat)
    requires forall n :: 0 <= n < |ts| && Splits(ts[n]) ==> SplitCount(ts[n]) == experts
    ensures CountSplits(ts) * experts == FusedOutputs(ts)
    ensures FirstExperts(ts) == if CountSplits(ts) == 0 then None else Some(experts)
  {
    hide Splits;
    if ts != [] {
      var l := |ts| - 1;
      UniformPrediction(ts[..l], experts);
      assert (CountSplits(ts[..l]) + 1) * experts == CountSplits(ts[..l]) * experts + experts;
      if Splits(ts[l]) { assert SplitCount(ts[l]) == experts; }
    }
  }

  const UNEVEN: seq<Tensor> := [Tensor("x" + UP_PROJ, [1, 2], [2], "U8"), Tensor("y" + UP_PROJ, [1, 2, 3], [3], "U8")]

  /** Two and three experts are predicted as two times two. */
  lemma UnevenMispredicted()
    ensures CountSplits(UNEVEN) * OrZero(FirstExperts(UNEVEN)) == 4 && |AllOutputs(UNEVEN)| == 5
  {
    hide Splits, IsFusedExpertTensor, SplitCount, AllOutputs;
    UnevenSplits();
    NothingCounted(UNEVEN);
    CountNext(UNEVEN, 0);
    CountNext(UNEVEN, 1);
    assert UNEVEN[..2] == UNEVEN;
    OutputCount(UNEVEN);
    assert UNEVEN[..|UNEVEN| - 1] == [UNEVEN[0]] && [UNEVEN[0]][..0] == [];
    assert FusedOutputs([UNEVEN[0]]) == 2;
  }

  lemma UnevenSplits()
    ensures Splits(UNEVEN[0]) && Splits(UNEVEN[1]) && SplitCount(UNEVEN[0]) == 2 && SplitCount(UNEVEN[1]) == 3
  {
    hide IsFusedExpertTensor;
    UpProjFused('x');
    UpProjFused('y');
  }
}
