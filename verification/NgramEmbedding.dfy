// The fused n-gram embedding, the rolling context cache, and the model's use of both.
module NgramEmbedding {
  import opened ModArith
  import opened NgramHash
  import opened Sequences
  import opened Text
  import opened Vectors

  /** word[token], emb[table][id], and proj[table] with one row per hidden unit. */
  datatype Weights = Weights(word: seq<Vec>, emb: seq<seq<Vec>>, proj: seq<seq<Vec>>)

  /** A configuration, its weights, and the two vector lengths; N >= 1 as the context length is N - 1. */
  datatype Net = Net(cfg: Cfg, w: Weights, hidden: nat, embDim: nat) {
    ghost predicate Valid()
    {
      && cfg.neighborNum >= 1
      && |w.word| == cfg.vocabSize && (forall t :: 0 <= t < |w.word| ==> |w.word[t]| == hidden)
      && |w.emb| == |w.proj| == cfg.NumEmbedders()
      && (forall e :: 0 <= e < |w.emb| ==> |w.emb[e]| == cfg.TableVocab(e))
      && (forall e, r :: 0 <= e < |w.emb| && 0 <= r < |w.emb[e]| ==> |w.emb[e][r]| == embDim)
      && (forall e :: 0 <= e < |w.proj| ==> |w.proj[e]| == hidden)
      && (forall e, r :: 0 <= e < |w.proj| && 0 <= r < |w.proj[e]| ==> |w.proj[e][r]| == embDim)
    }

    ghost predicate Tokens(context: seq<int>) { TokensInVocab(cfg, context) }
  }

  function Project(proj: seq<Vec>, x: Vec): (y: Vec)
    requires forall r :: 0 <= r < |proj| ==> |proj[r]| == |x|
    ensures |y| == |proj|
  {
    seq(|proj|, r requires 0 <= r < |proj| => Dot(proj[r], x))
  }

  function Divide(a: Vec, n: nat): (c: Vec)
    requires n > 0
    ensures |c| == |a|
  {
    seq(|a|, r requires 0 <= r < |a| => a[r] / (n as real))
  }

  lemma TableIndexInRange(cfg: Cfg, i: nat, j: nat)
    requires 2 <= i <= cfg.neighborNum && j < cfg.splitNum
    ensures cfg.TableIndex(i, j) < cfg.NumEmbedders()
  {
    assert cfg.NumEmbedders() == (i - 2) * cfg.splitNum + (cfg.neighborNum + 1 - i) * cfg.splitNum by {
      assert (i - 2) + (cfg.neighborNum + 1 - i) == cfg.neighborNum - 1;
    }
    assert (cfg.neighborNum + 1 - i) * cfg.splitNum >= cfg.splitNum;
  }

  /** The projected table row for one position, size and split. */
  ghost function Term(net: Net, context: seq<int>, p: nat, i: nat, j: nat): (v: Vec)
    requires net.Valid() && p < |context| && 2 <= i <= net.cfg.neighborNum && j < net.cfg.splitNum
    ensures |v| == net.hidden
  {
    TableIndexInRange(net.cfg, i, j);
    var index := net.cfg.TableIndex(i, j);
    Project(net.w.proj[index], net.w.emb[index][HashId(net.cfg, context, p, i, j)])
  }

  /** The word embedding plus the terms before size i, split j. */
  ghost function Fused(net: Net, context: seq<int>, p: nat, i: nat, j: nat): (v: Vec)
    requires net.Valid() && net.Tokens(context) && p < |context|
    requires 2 <= i <= net.cfg.neighborNum + 1 && j <= net.cfg.splitNum && (i == net.cfg.neighborNum + 1 ==> j == 0)
    ensures |v| == net.hidden
    decreases i, j
  {
    if j > 0 then AddRow(Fused(net, context, p, i, j - 1), Term(net, context, p, i, j - 1))
    else if i > 2 then Fused(net, context, p, i - 1, net.cfg.splitNum)
    else net.w.word[context[p]]
  }

  ghost function EmbedAt(net: Net, context: seq<int>, p: nat): Vec
    requires net.Valid() && net.Tokens(context) && p < |context|
  {
    Divide(Fused(net, context, p, net.cfg.neighborNum + 1, 0), 1 + net.cfg.NumEmbedders())
  }

  /** The whole sequence in one shot, with no context. */
  ghost function OneShot(net: Net, tokens: seq<int>): (rows: seq<Vec>)
    requires net.Valid() && net.Tokens(tokens)
    ensures |rows| == |tokens|
  {
    seq(|tokens|, p requires 0 <= p < |tokens| => EmbedAt(net, tokens, p))
  }

  // ------------------------------------------------------ the embedding written out

  /** The table numbers run through the sizes, and within a size through the splits. */
  lemma FlatIndex(i: nat, j: nat, k: nat)
    requires j < k && i >= 2
    ensures var e := (i - 2) * k + j; e >= 0 && e / k == i - 2 && e % k == j
  {
    ModUnique((i - 2) * k + j, k, i - 2, j);
  }

  /** Row of table e that position p looks up: the polynomial of the last 2 + e / k tokens, modulo the size. */
  ghost function Looked(net: Net, context: seq<int>, p: nat, e: nat): (id: int)
    requires p < |context| && net.cfg.splitNum > 0
    ensures 0 <= id < net.cfg.ratio * net.cfg.vocabSize + 2 * e + 1
  {
    Polynomial(net.cfg, context, p, 2 + e / net.cfg.splitNum) % (net.cfg.ratio * net.cfg.vocabSize + 2 * e + 1)
  }

  /** What the first n tables add to hidden unit r. */
  ghost function TableShare(net: Net, context: seq<int>, p: nat, r: nat, n: nat): real
    requires net.Valid() && p < |context| && r < net.hidden && n <= net.cfg.splitNum * (net.cfg.neighborNum - 1)
  {
    if n == 0 then 0.0
    else
      assert net.cfg.splitNum > 0;
      TableShare(net, context, p, r, n - 1)
      + Dot(net.w.proj[n - 1][r], net.w.emb[n - 1][Looked(net, context, p, n - 1)])
  }

  lemma {:induction false} FusedIsShare(net: Net, context: seq<int>, p: nat, i: nat, j: nat, r: nat)
    requires net.Valid() && net.Tokens(context) && p < |context| && r < net.hidden
    requires 2 <= i <= net.cfg.neighborNum + 1 && j <= net.cfg.splitNum && (i == net.cfg.neighborNum + 1 ==> j == 0)
    ensures var n := (i - 2) * net.cfg.splitNum + j;
      && 0 <= n <= net.cfg.splitNum * (net.cfg.neighborNum - 1)
      && Fused(net, context, p, i, j)[r] == net.w.word[context[p]][r] + TableShare(net, context, p, r, n)
    decreases i, j
  {
    hide Dot, Polynomial;
    var k, n := net.cfg.splitNum, (i - 2) * net.cfg.splitNum + j;
    TablesBefore(net.cfg, i, j);
    if j > 0 {
      FusedIsShare(net, context, p, i, j - 1, r);
      TableIndexInRange(net.cfg, i, j - 1);
      FlatIndex(i, j - 1, k);
      assert Fused(net, context, p, i, j)[r]
          == Fused(net, context, p, i, j - 1)[r] + Term(net, context, p, i, j - 1)[r];
    } else if i > 2 {
      FusedIsShare(net, context, p, i - 1, k, r);
      assert (i - 3) * k + k == (i - 2) * k;
    }
  }

  lemma TablesBefore(cfg: Cfg, i: nat, j: nat)
    requires 2 <= i <= cfg.neighborNum + 1 && j <= cfg.splitNum && (i == cfg.neighborNum + 1 ==> j == 0)
    ensures 0 <= (i - 2) * cfg.splitNum + j <= cfg.splitNum * (cfg.neighborNum - 1)
  {
    var k := cfg.splitNum;
    assert k * (cfg.neighborNum - 1) == (i - 2) * k + (cfg.neighborNum + 1 - i) * k;
    if i <= cfg.neighborNum { assert (cfg.neighborNum + 1 - i) * k >= k; }
  }

  /** Every entry is the word's plus all tables' shares, divided by how many parts that makes. */
  ghost predicate Written(net: Net, context: seq<int>, p: nat, row: Vec)
    requires net.Valid() && net.Tokens(context) && p < |context|
  {
    var tables := net.cfg.splitNum * (net.cfg.neighborNum - 1);
    && |row| == net.hidden
    && forall r :: 0 <= r < net.hidden ==>
         row[r] * (1 + tables) as real == net.w.word[context[p]][r] + TableShare(net, context, p, r, tables)
  }

  /** So is every embedding, for any context it is read from. */
  lemma EntryFormula(net: Net, context: seq<int>, p: nat)
    requires net.Valid() && net.Tokens(context) && p < |context|
    ensures Written(net, context, p, EmbedAt(net, context, p))
  {
    hide Fused, TableShare;
    var tables := net.cfg.splitNum * (net.cfg.neighborNum - 1);
    assert net.cfg.NumEmbedders() == tables && (net.cfg.neighborNum + 1 - 2) * net.cfg.splitNum + 0 == tables;
    forall r | 0 <= r < net.hidden
      ensures EmbedAt(net, context, p)[r] * (1 + tables) as real
           == net.w.word[context[p]][r] + TableShare(net, context, p, r, tables)
    {
      FusedIsShare(net, context, p, net.cfg.neighborNum + 1, 0, r);
    }
  }

  lemma OneShotFormula(net: Net, tokens: seq<int>, p: nat)
    requires net.Valid() && net.Tokens(tokens) && p < |tokens|
    ensures Written(net, tokens, p, OneShot(net, tokens)[p])
  {
    hide EmbedAt, Written;
    EntryFormula(net, tokens, p);
  }

  // ---------------------------------------------------------- slices from the end

  /** s[-k:], which for k == 0 is the whole of s. */
  function FromEnd<T>(s: seq<T>, k: nat): seq<T>
  {
    if k == 0 || |s| <= k then s else s[|s| - k..]
  }

  /** Why a chunk must not be empty: s[-0:] keeps everything. */
  lemma FromEndLength<T>(s: seq<T>, k: nat)
    ensures k <= |s| ==> (|FromEnd(s, k)| == k <==> (k > 0 || s == []))
  {
  }

  function WithContext(cfg: Cfg, context: Option<seq<int>>, chunk: seq<int>): seq<int>
    requires cfg.neighborNum >= 1
  {
    match context
    case Some(c) => if |c| > 0 then FromEnd(c, cfg.neighborNum - 1) + chunk else chunk
    case None => chunk
  }

  ghost function EmbedChunk(net: Net, context: Option<seq<int>>, chunk: seq<int>): (rows: seq<Vec>)
    requires net.Valid() && net.Tokens(WithContext(net.cfg, context, chunk))
    ensures |rows| == |chunk|
  {
    var ctx := WithContext(net.cfg, context, chunk);
    seq(|chunk|, q requires 0 <= q < |chunk| => EmbedAt(net, ctx, |ctx| - |chunk| + q))
  }

  method NgramEmbed(net: Net, input: seq<int>, context: Option<seq<int>>) returns (rows: seq<Vec>)
    requires net.Valid() && input != [] && net.Tokens(WithContext(net.cfg, context, input))
    ensures rows == EmbedChunk(net, context, input)
    ensures |rows| == |input|
    ensures var ctx := WithContext(net.cfg, context, input);
            forall q :: 0 <= q < |input| ==> Written(net, ctx, |ctx| - |input| + q, rows[q])
  {
    hide PartialSums, EmbedAt, Divide, Written;
    var ctx := input;
    if context.Some? && |context.value| > 0 {
      ctx := FromEnd(context.value, net.cfg.neighborNum - 1) + input;
    }
    var x := TableSums(net, ctx, input);
    assert ctx == WithContext(net.cfg, context, input);
    var parts := 1 + net.cfg.NumEmbedders();
    rows := seq(|x|, q requires 0 <= q < |x| => Divide(x[q], parts));
    SumsToRows(net, ctx, x, rows);
    forall q | 0 <= q < |input|
      ensures Written(net, ctx, |ctx| - |input| + q, rows[q])
    {
      EntryFormula(net, ctx, |ctx| - |input| + q);
    }
  }

  lemma SumsToRows(net: Net, ctx: seq<int>, x: seq<Vec>, rows: seq<Vec>)
    requires net.Valid() && net.Tokens(ctx) && PartialSums(net, ctx, x, net.cfg.neighborNum + 1, 0) && |rows| == |x|
    requires forall q :: 0 <= q < |x| ==> rows[q] == Divide(x[q], 1 + net.cfg.NumEmbedders())
    ensures rows == seq(|x|, q requires 0 <= q < |x| => EmbedAt(net, ctx, |ctx| - |x| + q))
  {
    hide Fused, Divide;
    forall q | 0 <= q < |x|
      ensures rows[q] == EmbedAt(net, ctx, |ctx| - |x| + q)
    {
      assert x[q] == Fused(net, ctx, |ctx| - |x| + q, net.cfg.neighborNum + 1, 0);
    }
  }

  /** x holds, for the last |x| positions, the sums before size i, split j. */
  ghost predicate PartialSums(net: Net, ctx: seq<int>, x: seq<Vec>, i: nat, j: nat)
    requires net.Valid() && net.Tokens(ctx)
    requires 2 <= i <= net.cfg.neighborNum + 1 && j <= net.cfg.splitNum && (i == net.cfg.neighborNum + 1 ==> j == 0)
  {
    |x| <= |ctx| && forall q :: 0 <= q < |x| ==> x[q] == Fused(net, ctx, |ctx| - |x| + q, i, j)
  }

  method WordRows(net: Net, ctx: seq<int>, input: seq<int>) returns (x: seq<Vec>)
    requires net.Valid() && net.Tokens(ctx) && |input| <= |ctx| && ctx[|ctx| - |input|..] == input
    ensures |x| == |input| && PartialSums(net, ctx, x, 2, 0)
  {
    assert forall q :: 0 <= q < |input| ==> input[q] == ctx[|ctx| - |input|..][q];
    x := seq(|input|, q requires 0 <= q < |input| => net.w.word[input[q]]);
  }

  /** The loops over n-gram sizes and splits. */
  method TableSums(net: Net, ctx: seq<int>, input: seq<int>) returns (x: seq<Vec>)
    requires net.Valid() && net.Tokens(ctx) && 0 < |input| <= |ctx| && ctx[|ctx| - |input|..] == input
    ensures |x| == |input| && PartialSums(net, ctx, x, net.cfg.neighborNum + 1, 0)
  {
    x := WordRows(net, ctx, input);
    var mods := PrecomputeVocabMods(net.cfg);
    for i := 2 to net.cfg.neighborNum + 1
      invariant |x| == |input| && PartialSums(net, ctx, x, i, 0)
    {
      for j := 0 to net.cfg.splitNum
        invariant |x| == |input| && PartialSums(net, ctx, x, i, j)
      {
        assert ModsFor(net.cfg, mods, i, j);
        x := AddTable(net, ctx, x, i, j, mods);
      }
      assert PartialSums(net, ctx, x, i + 1, 0);
    }
  }

  /** Every id is a row of its table. */
  lemma IdsInTable(cfg: Cfg, ctx: seq<int>, i: nat, j: nat)
    requires i >= 2
    ensures forall p :: 0 <= p < |ctx| ==> 0 <= HashId(cfg, ctx, p, i, j) < cfg.TableVocab(cfg.TableIndex(i, j))
  {
  }

  /** The body of the table loop: hash, look the rows up, project, add. */
  method AddTable(net: Net, ctx: seq<int>, x: seq<Vec>, i: nat, j: nat, mods: Mods) returns (y: seq<Vec>)
    requires net.Valid() && net.Tokens(ctx) && x != []
    requires 2 <= i <= net.cfg.neighborNum && j < net.cfg.splitNum && ModsFor(net.cfg, mods, i, j)
    requires PartialSums(net, ctx, x, i, j)
    ensures |y| == |x| && PartialSums(net, ctx, y, i, j + 1)
  {
    TableIndexInRange(net.cfg, i, j);
    var index := net.cfg.TableIndex(i, j);
    var all := NgramIdsForTable(ctx, net.cfg, i, j, mods);
    hide HashId;
    var ids := FromEnd(all, |x|);
    assert forall q :: 0 <= q < |x| ==> ids[q] == HashId(net.cfg, ctx, |ctx| - |x| + q, i, j);
    IdsInTable(net.cfg, ctx, i, j);
    y := seq(|x|, q requires 0 <= q < |x| => AddRow(x[q], Project(net.w.proj[index], net.w.emb[index][ids[q]])));
  }

  // ------------------------------------------------- the truncated form refines the full form

  /** Looking back n places inside a slice that still holds those places. */
  lemma TokenBackInSlice(row: seq<int>, lo: nat, hi: nat, p: nat, n: nat, eos: int)
    requires lo <= hi <= |row| && p < hi - lo && (lo == 0 || n <= p)
    ensures TokenBack(row[lo..hi], p, n, eos) == TokenBack(row, lo + p, n, eos)
  {
    var s := row[lo..hi];
    if n <= p {
      assert forall k :: p - n <= k < p ==> s[k] == row[lo + k];
      assert forall k :: lo + p - n <= k < lo + p ==> row[k] == s[k - lo];
    }
  }

  lemma {:induction false} PolynomialInSlice(cfg: Cfg, row: seq<int>, lo: nat, hi: nat, p: nat, i: nat)
    requires lo <= hi <= |row| && p < hi - lo && (lo == 0 || i <= p + 1)
    ensures Polynomial(cfg, row[lo..hi], p, i) == Polynomial(cfg, row, lo + p, i)
  {
    if i > 0 {
      PolynomialInSlice(cfg, row, lo, hi, p, i - 1);
      TokenBackInSlice(row, lo, hi, p, i - 1, cfg.eos);
    }
  }

  lemma {:induction false} FusedInSlice(net: Net, row: seq<int>, lo: nat, hi: nat, p: nat, i: nat, j: nat)
    requires net.Valid() && net.Tokens(row)
    requires lo <= hi <= |row| && p < hi - lo && (lo == 0 || net.cfg.neighborNum <= p + 1)
    requires 2 <= i <= net.cfg.neighborNum + 1 && j <= net.cfg.splitNum && (i == net.cfg.neighborNum + 1 ==> j == 0)
    ensures Fused(net, row[lo..hi], p, i, j) == Fused(net, row, lo + p, i, j)
    decreases i, j
  {
    if j > 0 {
      FusedInSlice(net, row, lo, hi, p, i, j - 1);
      PolynomialInSlice(net.cfg, row, lo, hi, p, i);
    } else if i > 2 {
      FusedInSlice(net, row, lo, hi, p, i - 1, net.cfg.splitNum);
    }
  }

  lemma EmbedInSlice(net: Net, row: seq<int>, lo: nat, hi: nat, p: nat)
    requires net.Valid() && net.Tokens(row)
    requires lo <= hi <= |row| && p < hi - lo && (lo == 0 || net.cfg.neighborNum <= p + 1)
    ensures EmbedAt(net, row[lo..hi], p) == EmbedAt(net, row, lo + p)
  {
    FusedInSlice(net, row, lo, hi, p, net.cfg.neighborNum + 1, 0);
  }

  /** Later tokens never change an earlier embedding. */
  lemma OneShotPrefix(net: Net, history: seq<int>, chunk: seq<int>)
    requires net.Valid() && net.Tokens(history) && net.Tokens(chunk)
    ensures net.Tokens(history + chunk)
    ensures OneShot(net, history + chunk)[..|history|] == OneShot(net, history)
  {
    var all := history + chunk;
    assert all[0..|history|] == history;
    forall p | 0 <= p < |history|
      ensures EmbedAt(net, history, p) == EmbedAt(net, all, p)
    {
      EmbedInSlice(net, all, 0, |history|, p);
    }
  }

  /** The context a cache holds for a row with this history. */
  function Remembered(cfg: Cfg, history: seq<int>): seq<int>
    requires cfg.neighborNum >= 1
  {
    FromEnd(history, cfg.neighborNum - 1)
  }

  /**
   * The last N - 1 tokens are enough: embedding a non-empty chunk against them gives exactly the
   * rows that embedding the whole history in one shot gives.
   */
  lemma ChunkRefinesOneShot(net: Net, history: seq<int>, chunk: seq<int>)
    requires net.Valid() && net.Tokens(history) && net.Tokens(chunk) && chunk != []
    ensures net.Tokens(history + chunk) && net.Tokens(WithContext(net.cfg, Some(Remembered(net.cfg, history)), chunk))
    ensures OneShot(net, history) + EmbedChunk(net, Some(Remembered(net.cfg, history)), chunk)
         == OneShot(net, history + chunk)
  {
    OneShotPrefix(net, history, chunk);
    var all, kept := history + chunk, Remembered(net.cfg, history);
    var ctx := WithContext(net.cfg, Some(kept), chunk);
    ContextIsSlice(net.cfg, history, chunk);
    var rows := EmbedChunk(net, Some(kept), chunk);
    forall q | 0 <= q < |chunk|
      ensures rows[q] == OneShot(net, all)[|history| + q]
    {
      EmbedInSlice(net, all, |history| - |kept|, |all|, |kept| + q);
    }
    assert OneShot(net, all) == OneShot(net, all)[..|history|] + rows;
  }

  lemma ContextIsSlice(cfg: Cfg, history: seq<int>, chunk: seq<int>)
    requires cfg.neighborNum >= 1
    ensures var all, kept := history + chunk, Remembered(cfg, history);
            WithContext(cfg, Some(kept), chunk) == all[|history| - |kept|..|all|]
  {
  }

  /** The same for sums that wrap at 64 bits, at any dimensions. */
  lemma {:induction false} Accumulated64InSlice(row: seq<int>, lo: nat, hi: nat, p: nat, eos: int, mods: seq<int>,
                                                i: nat)
    requires lo <= hi <= |row| && p < hi - lo && 1 <= i <= |mods| + 1 && (lo == 0 || i <= p + 1)
    ensures Accumulated64(row[lo..hi], p, eos, mods, i) == Accumulated64(row, lo + p, eos, mods, i)
  {
    if i > 1 {
      Accumulated64InSlice(row, lo, hi, p, eos, mods, i - 1);
      TokenBackInSlice(row, lo, hi, p, i - 1, eos);
    }
  }

  /** So the ids that 64-bit tensors hold for a chunk are those of the whole history too, wrapped or not. */
  lemma WrappedIdsRefine(cfg: Cfg, history: seq<int>, chunk: seq<int>, q: nat, mods: seq<int>, i: nat)
    requires q < |chunk| && 1 <= i <= cfg.neighborNum && i <= |mods| + 1
    ensures var ctx := WithContext(cfg, Some(Remembered(cfg, history)), chunk);
      && |chunk| <= |ctx|
      && Accumulated64(ctx, |ctx| - |chunk| + q, cfg.eos, mods, i)
         == Accumulated64(history + chunk, |history| + q, cfg.eos, mods, i)
  {
    var all, kept := history + chunk, Remembered(cfg, history);
    ContextIsSlice(cfg, history, chunk);
    Accumulated64InSlice(all, |history| - |kept|, |all|, |kept| + q, cfg.eos, mods, i);
  }

  // ------------------------------------------------------------- the cache

  type Batch = seq<seq<int>>

  function UpdatedRow(row: seq<int>, newTokens: seq<int>, maxLen: nat): seq<int>
  {
    FromEnd(row + newTokens, maxLen)
  }

  function Updated(context: Option<Batch>, newTokens: Batch, maxLen: nat): Batch
    requires context.Some? ==> |context.value| == |newTokens|
  {
    seq(|newTokens|, r requires 0 <= r < |newTokens| =>
      UpdatedRow(if context.Some? then context.value[r] else [], newTokens[r], maxLen))
  }

  /** index_select along the batch dimension. */
  function Select<T>(rows: seq<T>, beam: seq<nat>): (s: seq<T>)
    requires forall b :: 0 <= b < |beam| ==> beam[b] < |rows|
    ensures |s| == |beam|
  {
    seq(|beam|, b requires 0 <= b < |beam| => rows[beam[b]])
  }

  class NgramCache {
    var ngramContext: Option<Batch>
    const maxContextLen: nat

    constructor (cfg: Cfg)
      requires cfg.neighborNum >= 1
      ensures ngramContext == None && maxContextLen == cfg.neighborNum - 1
    {
      ngramContext := None;
      maxContextLen := cfg.neighborNum - 1;
    }

    method UpdateNgramContext(newTokens: Batch)
      requires ngramContext.Some? ==> |ngramContext.value| == |newTokens|
      modifies this
      ensures ngramContext == Some(Updated(old(ngramContext), newTokens, maxContextLen))
    {
      ghost var goal := Updated(ngramContext, newTokens, maxContextLen);
      if ngramContext.None? {
        ngramContext := Some(newTokens);
        assert forall r :: 0 <= r < |newTokens| ==> [] + newTokens[r] == newTokens[r];
      } else {
        var rows := ngramContext.value;
        ngramContext := Some(seq(|rows|, r requires 0 <= r < |rows| => rows[r] + newTokens[r]));
      }
      var grown := ngramContext.value;
      var kept := seq(|grown|, r requires 0 <= r < |grown| =>
        if |grown[r]| > maxContextLen then FromEnd(grown[r], maxContextLen) else grown[r]);
      assert kept == goal;
      ngramContext := Some(kept);
    }

    method ReorderCache(beam: seq<nat>)
      requires ngramContext.Some? ==> forall b :: 0 <= b < |beam| ==> beam[b] < |ngramContext.value|
      modifies this
      ensures ngramContext == if old(ngramContext).Some? then Some(Select(old(ngramContext).value, beam)) else None
    {
      if ngramContext.Some? {
        ngramContext := Some(Select(ngramContext.value, beam));
      }
    }
  }

  /** The context row a forward pass reads for batch row r. */
  function ContextRow(context: Option<Batch>, r: nat): Option<seq<int>>
    requires context.Some? ==> r < |context.value|
  {
    if context.Some? then Some(context.value[r]) else None
  }

  ghost predicate Readable(net: Net, context: Option<Batch>, inputIds: Batch)
    requires net.Valid()
  {
    && (context.Some? ==> |context.value| == |inputIds|)
    && forall r :: 0 <= r < |inputIds| ==>
         inputIds[r] != [] && net.Tokens(WithContext(net.cfg, ContextRow(context, r), inputIds[r]))
  }

  ghost function EmbedBatch(net: Net, context: Option<Batch>, inputIds: Batch): (out: seq<seq<Vec>>)
    requires net.Valid() && Readable(net, context, inputIds)
    ensures |out| == |inputIds|
  {
    seq(|inputIds|, r requires 0 <= r < |inputIds| => EmbedChunk(net, ContextRow(context, r), inputIds[r]))
  }

  /** What a forward pass is given to go on: nothing, another kind of cache, or an n-gram cache. */
  datatype Past = NoPast | Foreign | Own(cache: NgramCache)

  function PastContext(past: Past): Option<Batch>
    reads if past.Own? then {past.cache} else {}
  {
    if past.Own? then past.cache.ngramContext else None
  }

  /** Both or neither of ids and embeddings are given, or an n-gram cache would have to take in missing ids. */
  predicate Rejected(inputIds: Option<Batch>, given: Option<seq<seq<Vec>>>, past: Past, useCache: bool)
  {
    inputIds.Some? == given.Some? || (given.Some? && useCache && !past.Foreign?)
  }

  /** The model's handling of the cache: read the context, embed, then append the new tokens. None where it raises. */
  method Forward(net: Net, inputIds: Option<Batch>, given: Option<seq<seq<Vec>>>, past: Past, useCache: bool)
    returns (embeds: Option<seq<seq<Vec>>>, next: Past)
    requires net.Valid()
    requires inputIds.Some? ==> Readable(net, PastContext(past), inputIds.value)
    requires past.Own? ==> past.cache.maxContextLen == net.cfg.neighborNum - 1
    modifies if useCache && past.Own? then {past.cache} else {}
    ensures embeds.None? <==> Rejected(inputIds, given, past, useCache)
    ensures embeds.None? || given.Some? || !useCache || past.Foreign?
            ==> next == past && PastContext(past) == old(PastContext(past))
    ensures embeds.Some? && given.Some? ==> embeds == given
    ensures embeds.Some? && inputIds.Some? ==> embeds.value == EmbedBatch(net, old(PastContext(past)), inputIds.value)
    ensures embeds.Some? && inputIds.Some? && useCache && !past.Foreign? ==>
      && next.Own? && next.cache.maxContextLen == net.cfg.neighborNum - 1
      && (if past.Own? then next == past else fresh(next.cache))
      && next.cache.ngramContext == Some(Updated(old(PastContext(past)), inputIds.value, net.cfg.neighborNum - 1))
  {
    next := past;
    if inputIds.Some? == given.Some? { return None, next; }
    var context := None;
    if past.Own? && past.cache.ngramContext.Some? {
      context := past.cache.ngramContext;
    }
    var rows: seq<seq<Vec>> := [];
    if given.Some? {
      rows := given.value;
    } else {
      for r := 0 to |inputIds.value|
        invariant past.Own? ==> past.cache.ngramContext == old(PastContext(past))
        invariant |rows| == r
        invariant forall q :: 0 <= q < r ==> rows[q] == EmbedChunk(net, ContextRow(context, q), inputIds.value[q])
      {
        var row := NgramEmbed(net, inputIds.value[r], ContextRow(context, r));
        rows := rows + [row];
      }
    }
    if useCache && next.NoPast? {
      if inputIds.None? { return None, next; }
      var cache := new NgramCache(net.cfg);
      next := Own(cache);
    }
    if useCache && next.Own? {
      if inputIds.None? { return None, next; }
      next.cache.UpdateNgramContext(inputIds.value);
    }
    embeds := Some(rows);
  }

  // ------------------------------------------------------------ whole runs

  datatype Event = Feed(tokens: Batch) | Reorder(beam: seq<nat>)

  /** The cache together with each row's full history and everything embedded for it so far. */
  datatype Run = Run(context: Option<Batch>, history: Batch, outputs: seq<seq<Vec>>)

  const START: Run := Run(None, [], [])

  ghost predicate Enabled(net: Net, run: Run, ev: Event)
  {
    match ev
    case Feed(tokens) =>
      && (run.context.Some? ==> |tokens| == |run.context.value|)
      && forall r :: 0 <= r < |tokens| ==> tokens[r] != [] && net.Tokens(tokens[r])
    case Reorder(beam) =>
      run.context.Some? ==> forall b :: 0 <= b < |beam| ==> beam[b] < |run.context.value|
  }

  /** Every row remembers the end of its own history, and was embedded as in one shot. */
  ghost predicate Faithful(net: Net, run: Run)
    requires net.Valid()
  {
    match run.context
    case None => run == START
    case Some(rows) =>
      && |rows| == |run.history| == |run.outputs|
      && forall r :: 0 <= r < |rows| ==>
           && net.Tokens(run.history[r])
           && rows[r] == Remembered(net.cfg, run.history[r])
           && run.outputs[r] == OneShot(net, run.history[r])
  }

  ghost function After(net: Net, run: Run, ev: Event): Run
    requires net.Valid() && Faithful(net, run) && Enabled(net, run, ev)
  {
    match ev
    case Reorder(beam) =>
      if run.context.None? then run
      else Run(Some(Select(run.context.value, beam)), Select(run.history, beam), Select(run.outputs, beam))
    case Feed(tokens) =>
      FeedReadable(net, run, tokens);
      var embeds := EmbedBatch(net, run.context, tokens);
      var context := Some(Updated(run.context, tokens, net.cfg.neighborNum - 1));
      if run.context.None? then Run(context, tokens, embeds)
      else Run(context,
        seq(|tokens|, r requires 0 <= r < |tokens| => run.history[r] + tokens[r]),
        seq(|tokens|, r requires 0 <= r < |tokens| => run.outputs[r] + embeds[r]))
  }

  lemma FeedReadable(net: Net, run: Run, tokens: Batch)
    requires net.Valid() && Faithful(net, run) && Enabled(net, run, Feed(tokens))
    ensures Readable(net, run.context, tokens)
  {
    hide OneShot, EmbedChunk, Remembered, WithContext, TokensInVocab;
    forall r | 0 <= r < |tokens|
      ensures net.Tokens(WithContext(net.cfg, ContextRow(run.context, r), tokens[r]))
    {
      if run.context.Some? {
        RememberedReadable(net, run.history[r], tokens[r]);
      } else {
        FreshReadable(net, tokens[r]);
      }
    }
  }

  lemma FreshReadable(net: Net, chunk: seq<int>)
    requires net.Valid() && net.Tokens(chunk)
    ensures net.Tokens(WithContext(net.cfg, None, chunk))
  {
  }

  lemma RememberedReadable(net: Net, history: seq<int>, chunk: seq<int>)
    requires net.Valid() && net.Tokens(history) && net.Tokens(chunk)
    ensures net.Tokens(WithContext(net.cfg, Some(Remembered(net.cfg, history)), chunk))
  {
  }

  lemma StepFaithful(net: Net, run: Run, ev: Event)
    requires net.Valid() && Faithful(net, run) && Enabled(net, run, ev)
    ensures Faithful(net, After(net, run, ev))
  {
    if ev.Feed? {
      FeedReadable(net, run, ev.tokens);
      var next := After(net, run, ev);
      forall r | 0 <= r < |ev.tokens|
        ensures net.Tokens(next.history[r])
        ensures next.context.value[r] == Remembered(net.cfg, next.history[r])
        ensures next.outputs[r] == OneShot(net, next.history[r])
      {
        FedRow(net, run, ev.tokens, r);
      }
    }
  }

  /** What feeding does to one row. */
  lemma FedRow(net: Net, run: Run, tokens: Batch, r: nat)
    requires net.Valid() && Faithful(net, run) && Enabled(net, run, Feed(tokens)) && r < |tokens|
    ensures var next := After(net, run, Feed(tokens));
      && next.context.Some? && |next.context.value| == |next.history| == |next.outputs| == |tokens|
      && net.Tokens(next.history[r])
      && next.context.value[r] == Remembered(net.cfg, next.history[r])
      && next.outputs[r] == OneShot(net, next.history[r])
  {
    hide OneShot, EmbedChunk, Remembered, Net.Tokens;
    FeedReadable(net, run, tokens);
    var chunk := tokens[r];
    if run.context.Some? {
      ChunkRefinesOneShot(net, run.history[r], chunk);
      AppendRemembered(net.cfg, run.history[r], chunk);
    } else {
      FirstChunk(net, chunk);
    }
  }

  lemma FirstChunk(net: Net, chunk: seq<int>)
    requires net.Valid() && net.Tokens(chunk)
    ensures EmbedChunk(net, None, chunk) == OneShot(net, chunk)
    ensures UpdatedRow([], chunk, net.cfg.neighborNum - 1) == Remembered(net.cfg, chunk)
  {
    assert [] + chunk == chunk;
  }

  /** Truncating, appending and truncating again is truncating the longer history. */
  lemma AppendRemembered(cfg: Cfg, history: seq<int>, chunk: seq<int>)
    requires cfg.neighborNum >= 1
    ensures UpdatedRow(Remembered(cfg, history), chunk, cfg.neighborNum - 1) == Remembered(cfg, history + chunk)
  {
  }

  ghost predicate ValidRun(net: Net, events: seq<Event>)
    requires net.Valid()
    decreases |events|, 0
  {
    events == [] ||
    (var before := events[..|events| - 1];
     ValidRun(net, before) && Enabled(net, Final(net, before), events[|events| - 1]))
  }

  ghost function Final(net: Net, events: seq<Event>): (run: Run)
    requires net.Valid() && ValidRun(net, events)
    ensures Faithful(net, run)
    decreases |events|, 1
  {
    if events == [] then START
    else
      var run := Final(net, events[..|events| - 1]);
      StepFaithful(net, run, events[|events| - 1]);
      After(net, run, events[|events| - 1])
  }

  /** A cache row is the end of its history, cut to N - 1 tokens exactly when N - 1 is not 0. */
  lemma RememberedIsWindow(cfg: Cfg, history: seq<int>)
    requires cfg.neighborNum >= 1
    ensures var kept := Remembered(cfg, history);
            && |kept| <= |history| && kept == history[|history| - |kept|..]
            && (|kept| == (if |history| < cfg.neighborNum - 1 then |history| else cfg.neighborNum - 1)
                <==> cfg.neighborNum >= 2 || history == [])
  {
  }

  function Feeds(chunks: seq<seq<int>>): seq<Event>
  {
    seq(|chunks|, c requires 0 <= c < |chunks| => Feed([chunks[c]]))
  }

  /** Prefill, decode and chunked prefill agree: however a sequence is cut, its embedding is the same. */
  lemma {:induction false} AnyCutEqualsOneShot(net: Net, chunks: seq<seq<int>>)
    requires net.Valid() && chunks != []
    requires forall c :: 0 <= c < |chunks| ==> chunks[c] != [] && net.Tokens(chunks[c])
    ensures ValidRun(net, Feeds(chunks)) && net.Tokens(Flat(chunks))
    ensures Final(net, Feeds(chunks)).history == [Flat(chunks)]
    ensures Final(net, Feeds(chunks)).outputs == [OneShot(net, Flat(chunks))]
    ensures Final(net, Feeds(chunks)).context.Some? && Flat(chunks) != []
    decreases |chunks|
  {
    hide OneShot, EmbedChunk, Remembered, After;
    var front, last := chunks[..|chunks| - 1], chunks[|chunks| - 1];
    assert Feeds(chunks)[..|chunks| - 1] == Feeds(front) && Feeds(chunks)[|chunks| - 1] == Feed([last]);
    if front == [] {
      assert Feeds(front) == [];
      FeedAfterAll(net, START, [], last);
    } else {
      AnyCutEqualsOneShot(net, front);
      FeedAfterAll(net, Final(net, Feeds(front)), Flat(front), last);
    }
    assert Flat(chunks) == Flat(front) + last;
  }

  /** One more chunk, fed to a run of one row that has read `before`. */
  lemma FeedAfterAll(net: Net, run: Run, before: seq<int>, chunk: seq<int>)
    requires net.Valid() && Faithful(net, run) && net.Tokens(before) && chunk != [] && net.Tokens(chunk)
    requires if before == [] then run == START else run.history == [before] && run.context.Some?
    ensures Enabled(net, run, Feed([chunk])) && net.Tokens(before + chunk)
    ensures var next := After(net, run, Feed([chunk]));
            next.history == [before + chunk] && next.outputs == [OneShot(net, before + chunk)] && next.context.Some?
  {
    hide OneShot, EmbedChunk, Remembered;
    FedRow(net, run, [chunk], 0);
    assert [] + chunk == chunk;
  }
}
