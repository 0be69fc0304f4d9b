// The n-gram hash: shifting with resets at EOS, the table moduli, and the rolling hash ids.
module NgramHash {
  import opened ModArith

  /** The configuration the n-gram path reads. neighborNum is N, splitNum is k. */
  datatype Cfg = Cfg(vocabSize: nat, ratio: nat, neighborNum: nat, splitNum: nat, eos: int) {
    function M(): nat { ratio * vocabSize }

    function NumEmbedders(): nat { if neighborNum == 0 then 0 else splitNum * (neighborNum - 1) }

    function TableIndex(i: nat, j: nat): nat
      requires i >= 2
    { (i - 2) * splitNum + j }

    function TableVocab(index: nat): nat { M() + index * 2 + 1 }
  }

  // ---------------------------------------------------------------- shifting

  predicate EosFree(row: seq<int>, lo: int, hi: int, eos: int)
    requires 0 <= lo && hi <= |row|
  {
    forall k :: lo <= k < hi ==> row[k] != eos
  }

  /** The token n places before p, or 0 when the sequence start or an EOS lies in between. */
  function TokenBack(row: seq<int>, p: nat, n: nat, eos: int): int
    requires p < |row|
  {
    if n <= p && EosFree(row, p - n, p, eos) then row[p - n] else 0
  }

  function Shifted(row: seq<int>, n: nat, eos: int): (s: seq<int>)
    ensures |s| == |row|
  {
    seq(|row|, p requires 0 <= p < |row| => TokenBack(row, p, n, eos))
  }

  method EosPositions(row: seq<int>, eos: int) returns (ps: seq<nat>)
    ensures forall a, b :: 0 <= a < b < |ps| ==> ps[a] < ps[b]
    ensures forall a :: 0 <= a < |ps| ==> ps[a] < |row| && row[ps[a]] == eos
    ensures forall p :: 0 <= p < |row| && row[p] == eos ==> p in ps
  {
    ps := [];
    for i := 0 to |row|
      invariant forall a, b :: 0 <= a < b < |ps| ==> ps[a] < ps[b]
      invariant forall a :: 0 <= a < |ps| ==> ps[a] < i && row[ps[a]] == eos
      invariant forall p :: 0 <= p < i && row[p] == eos ==> p in ps
    {
      if row[i] == eos { ps := ps + [i]; }
    }
  }

  method ShiftRightIgnoreEos(row: seq<int>, n: nat, eos: int) returns (shifted: seq<int>)
    ensures shifted == Shifted(row, n, eos)
  {
    var out := new int[|row|](_ => 0);
    var ends := EosPositions(row, eos);
    var prev := 0;
    for q := 0 to |ends|
      invariant prev == if q == 0 then 0 else ends[q - 1] + 1
      invariant prev <= |row|
      invariant forall p :: 0 <= p < prev ==> out[p] == TokenBack(row, p, n, eos)
      invariant forall p :: prev <= p < |row| ==> out[p] == 0
    {
      var end := ends[q] + 1;
      SegmentFree(row, ends, q, eos);
      if end - prev > n {
        forall p | prev + n <= p < end { out[p] := row[p - n]; }
      }
      prev := end;
    }
    if prev < |row| && |row| - prev > n {
      SegmentFree(row, ends, |ends|, eos);
      forall p | prev + n <= p < |row| { out[p] := row[p - n]; }
    }
    SegmentFree(row, ends, |ends|, eos);
    shifted := out[..];
  }

  /** Between two neighbouring EOS positions there is no other. */
  lemma SegmentFree(row: seq<int>, ends: seq<nat>, q: nat, eos: int)
    requires q <= |ends|
    requires forall a, b :: 0 <= a < b < |ends| ==> ends[a] < ends[b]
    requires forall a :: 0 <= a < |ends| ==> ends[a] < |row| && row[ends[a]] == eos
    requires forall p :: 0 <= p < |row| && row[p] == eos ==> p in ends
    ensures EosFree(row, if q == 0 then 0 else ends[q - 1] + 1, if q == |ends| then |row| else ends[q], eos)
  {
    var lo, hi := if q == 0 then 0 else ends[q - 1] + 1, if q == |ends| then |row| else ends[q];
    forall k | lo <= k < hi
      ensures row[k] != eos
    {
      assert forall a :: 0 <= a < q ==> ends[a] <= ends[q - 1] < k;
      assert forall a :: q <= a < |ends| ==> k < ends[q] <= ends[a];
      assert k !in ends;
    }
  }

  // ------------------------------------------------------------------ moduli

  /** mods[d - 1] is V^d reduced by the table size, for d = 1 .. i - 1. */
  predicate ModRow(row: seq<int>, v: int, t: nat, i: nat)
  {
    && t > 0 && |row| == (if i == 0 then 0 else i - 1)
    && forall d :: 1 <= d < i ==> row[d - 1] == Pow(v, d) % t
  }

  type Mods = map<(nat, nat), seq<int>>

  predicate ModsFor(cfg: Cfg, mods: Mods, i: nat, j: nat)
    requires i >= 2
  {
    (i, j) in mods && ModRow(mods[(i, j)], cfg.vocabSize, cfg.TableVocab(cfg.TableIndex(i, j)), i)
  }

  method PrecomputeVocabMods(cfg: Cfg) returns (mods: Mods)
    requires cfg.neighborNum >= 1
    ensures forall i, j {:trigger ModsFor(cfg, mods, i, j)} ::
              2 <= i <= cfg.neighborNum && 0 <= j < cfg.splitNum ==> ModsFor(cfg, mods, i, j)
  {
    mods := map[];
    for i := 2 to cfg.neighborNum + 1
      invariant forall a, b {:trigger ModsFor(cfg, mods, a, b)} ::
                  2 <= a < i && 0 <= b < cfg.splitNum ==> ModsFor(cfg, mods, a, b)
    {
      for j := 0 to cfg.splitNum
        invariant forall a, b {:trigger ModsFor(cfg, mods, a, b)} ::
          2 <= a && 0 <= b < cfg.splitNum && (a < i || (a == i && b < j)) ==> ModsFor(cfg, mods, a, b)
      {
        var row := PowersReduced(cfg.vocabSize, cfg.TableVocab(cfg.TableIndex(i, j)), i);
        ghost var before := mods;
        mods := mods[(i, j) := row];
        forall a, b | 2 <= a && 0 <= b < cfg.splitNum && (a < i || (a == i && b <= j))
          ensures ModsFor(cfg, mods, a, b)
        {
          assert (a, b) == (i, j) || ModsFor(cfg, before, a, b);
        }
      }
    }
  }

  method PowersReduced(v: int, t: nat, i: nat) returns (row: seq<int>)
    requires t > 0 && i >= 1
    ensures ModRow(row, v, t, i)
  {
    row := [];
    var powerMod := 1;
    for d := 1 to i
      invariant |row| == d - 1
      invariant (powerMod - Pow(v, d - 1)) % t == 0
      invariant forall c :: 1 <= c < d ==> row[c - 1] == Pow(v, c) % t
    {
      PowerStep(powerMod, v, d, t);
      powerMod := (powerMod * v) % t;
      row := row + [powerMod];
    }
  }

  lemma PowerStep(p: int, v: int, d: nat, t: int)
    requires t > 0 && d >= 1 && (p - Pow(v, d - 1)) % t == 0
    ensures (p * v) % t == Pow(v, d) % t
    ensures ((p * v) % t - Pow(v, d)) % t == 0
  {
    var k := (p - Pow(v, d - 1)) / t;
    assert p == Pow(v, d - 1) + k * t;
    assert p * v == Pow(v, d) + (k * v) * t by {
      assert (Pow(v, d - 1) + k * t) * v == v * Pow(v, d - 1) + (k * v) * t;
    }
    ModShift(Pow(v, d), k * v, t);
    ModReduceSummand(p * v, -Pow(v, d), t);
    ModShift(0, k * v, t);
  }

  // -------------------------------------------------------------------- ids

  /** The base-V polynomial of the i tokens ending at p, newest first, 0 beyond an EOS. */
  function Polynomial(cfg: Cfg, context: seq<int>, p: nat, i: nat): int
    requires p < |context|
  {
    if i == 0 then 0
    else Polynomial(cfg, context, p, i - 1) + TokenBack(context, p, i - 1, cfg.eos) * Pow(cfg.vocabSize, i - 1)
  }

  function HashId(cfg: Cfg, context: seq<int>, p: nat, i: nat, j: nat): int
    requires p < |context| && i >= 2
  {
    Polynomial(cfg, context, p, i) % cfg.TableVocab(cfg.TableIndex(i, j))
  }

  /** What the accumulation holds after the terms of the first i tokens. */
  function Accumulated(context: seq<int>, p: nat, eos: int, mods: seq<int>, i: nat): int
    requires p < |context| && 1 <= i <= |mods| + 1
  {
    if i == 1 then context[p]
    else Accumulated(context, p, eos, mods, i - 1) + TokenBack(context, p, i - 1, eos) * mods[i - 2]
  }

  /** Reducing each power separately leaves the residue of the whole polynomial. */
  lemma {:induction false} AccumulatedIsPolynomial(cfg: Cfg, context: seq<int>, p: nat, mods: seq<int>, t: nat, i: nat,
                                                   n: nat)
    requires p < |context| && 1 <= i <= n && ModRow(mods, cfg.vocabSize, t, n)
    ensures Accumulated(context, p, cfg.eos, mods, i) % t == Polynomial(cfg, context, p, i) % t
  {
    if i == 1 {
      assert TokenBack(context, p, 0, cfg.eos) == context[p];
      assert Polynomial(cfg, context, p, 0) == 0;
      assert Pow(cfg.vocabSize, 0) == 1;
      assert Polynomial(cfg, context, p, 1) == context[p];
    } else {
      AccumulatedIsPolynomial(cfg, context, p, mods, t, i - 1, n);
      var acc, poly := Accumulated(context, p, cfg.eos, mods, i - 1), Polynomial(cfg, context, p, i - 1);
      var tok, power := TokenBack(context, p, i - 1, cfg.eos), Pow(cfg.vocabSize, i - 1);
      ModReduceFactor(acc, tok, power, t);
      ModReduceSummand(acc, tok * power, t);
      ModReduceSummand(poly, tok * power, t);
    }
  }

  method NgramIdsForTable(context: seq<int>, cfg: Cfg, i: nat, j: nat, mods: Mods) returns (ids: seq<int>)
    requires 2 <= i && ModsFor(cfg, mods, i, j)
    ensures |ids| == |context|
    ensures forall p :: 0 <= p < |context| ==> ids[p] == HashId(cfg, context, p, i, j)
  {
    var t := cfg.TableVocab(cfg.TableIndex(i, j));
    var row := mods[(i, j)];
    var acc := context;
    for d := 2 to i + 1
      invariant |acc| == |context|
      invariant forall p :: 0 <= p < |context| ==> acc[p] == Accumulated(context, p, cfg.eos, row, d - 1)
    {
      var shifted := ShiftRightIgnoreEos(context, d - 1, cfg.eos);
      acc := seq(|context|, p requires 0 <= p < |context| => acc[p] + shifted[p] * row[d - 2]);
    }
    forall p | 0 <= p < |context|
      ensures acc[p] % t == HashId(cfg, context, p, i, j)
    {
      AccumulatedIsPolynomial(cfg, context, p, row, t, i, i);
    }
    ids := seq(|acc|, p requires 0 <= p < |acc| => acc[p] % t);
  }

  // ---------------------------------------------------------- 64-bit widths

  const TWO63: int := 0x8000_0000_0000_0000

  /** Two's complement wrap-around of a 64-bit result. */
  function Wrap64(x: int): int { (x + TWO63) % (2 * TWO63) - TWO63 }

  predicate TokensInVocab(cfg: Cfg, context: seq<int>)
  {
    forall p :: 0 <= p < |context| ==> 0 <= context[p] < cfg.vocabSize
  }

  lemma ProductBound(a: int, b: int, v: int, t: int)
    requires 0 <= a < v && 0 <= b < t
    ensures 0 <= a * b < v * t && v <= v * t
  {
    ScaledDifference(a, t, b);
    ScaledDifference(t, v, a + 1);
    ScaledDifference(v, t, 1);
    ProductNonNegative(a, b);
    ProductNonNegative(a, t - b);
    ProductNonNegative(t, v - a - 1);
    ProductNonNegative(v, t - 1);
  }

  lemma AddOne(k: int, step: int)
    ensures (k + 1) * step == k * step + step
  {
  }

  /** Every partial sum stays below (terms so far) * V * T. */
  lemma {:induction false} AccumulatedBound(cfg: Cfg, context: seq<int>, p: nat, mods: seq<int>, t: nat, i: nat, n: nat)
    requires p < |context| && 1 <= i <= n && ModRow(mods, cfg.vocabSize, t, n) && TokensInVocab(cfg, context)
    ensures 0 <= Accumulated(context, p, cfg.eos, mods, i) < i * (cfg.vocabSize * t)
    ensures i >= 2 ==> 0 <= TokenBack(context, p, i - 1, cfg.eos) * mods[i - 2] < cfg.vocabSize * t
  {
    var v := cfg.vocabSize;
    if i == 1 {
      ProductBound(context[p], 0, v, t);
    } else {
      AccumulatedBound(cfg, context, p, mods, t, i - 1, n);
      var tok, m := TokenBack(context, p, i - 1, cfg.eos), mods[i - 2];
      assert m == Pow(v, i - 1) % t;
      ProductBound(tok, m, v, t);
      AddOne(i - 1, v * t);
    }
  }

  /** The tensor version: every product and sum is a 64-bit operation. */
  method GetNgramIds(context: seq<int>, shifted: map<nat, seq<int>>, vocabMods: seq<int>, ngram: nat, ghost eos: int)
    returns (ids: seq<int>)
    requires 1 <= ngram <= |vocabMods| + 1
    requires forall k :: 2 <= k <= ngram ==> k in shifted && shifted[k] == Shifted(context, k - 1, eos)
    ensures |ids| == |context|
    ensures forall p :: 0 <= p < |context| ==> ids[p] == Accumulated64(context, p, eos, vocabMods, ngram)
  {
    ids := context;
    for k := 2 to ngram + 1
      invariant |ids| == |context|
      invariant forall p :: 0 <= p < |context| ==> ids[p] == Accumulated64(context, p, eos, vocabMods, k - 1)
    {
      var row := shifted[k];
      ids := seq(|context|, p requires 0 <= p < |context| => Wrap64(ids[p] + Wrap64(row[p] * vocabMods[k - 2])));
    }
  }

  function Accumulated64(context: seq<int>, p: nat, eos: int, mods: seq<int>, i: nat): int
    requires p < |context| && 1 <= i <= |mods| + 1
  {
    if i == 1 then context[p]
    else Wrap64(Accumulated64(context, p, eos, mods, i - 1) + Wrap64(TokenBack(context, p, i - 1, eos) * mods[i - 2]))
  }

  lemma WrapIdentity(x: int)
    requires 0 <= x < TWO63
    ensures Wrap64(x) == x
  {
  }

  lemma Scale(i: nat, n: nat, step: nat)
    requires 1 <= i <= n
    ensures step <= i * step <= n * step
  {
    assert n * step == i * step + (n - i) * step;
    assert i * step == step + (i - 1) * step;
  }

  /** As long as i * V * T fits, no 64-bit step ever wraps: the tensor ids are the exact ids. */
  lemma {:induction false} NoWrap(cfg: Cfg, context: seq<int>, p: nat, mods: seq<int>, t: nat, i: nat, n: nat)
    requires p < |context| && 1 <= i <= n && ModRow(mods, cfg.vocabSize, t, n) && TokensInVocab(cfg, context)
    requires n * (cfg.vocabSize * t) <= TWO63
    ensures Accumulated64(context, p, cfg.eos, mods, i) == Accumulated(context, p, cfg.eos, mods, i)
    ensures Accumulated64(context, p, cfg.eos, mods, i) % t == Polynomial(cfg, context, p, i) % t
  {
    var step := cfg.vocabSize * t;
    AccumulatedBound(cfg, context, p, mods, t, i, n);
    Scale(i, n, step);
    AccumulatedIsPolynomial(cfg, context, p, mods, t, i, n);
    if i > 1 {
      NoWrap(cfg, context, p, mods, t, i - 1, n);
      WrapIdentity(TokenBack(context, p, i - 1, cfg.eos) * mods[i - 2]);
      WrapIdentity(Accumulated(context, p, cfg.eos, mods, i));
    }
  }

  const LONGCAT := Cfg(131072, 78, 4, 4, 2)

  /** At the real dimensions the reduced sums fit 64 bits for every table. */
  lemma RealDimsNeverWrap(context: seq<int>, p: nat, i: nat, j: nat, mods: Mods)
    requires p < |context| && 2 <= i <= 4 && j < 4 && TokensInVocab(LONGCAT, context) && ModsFor(LONGCAT, mods, i, j)
    ensures Accumulated64(context, p, LONGCAT.eos, mods[(i, j)], i) % LONGCAT.TableVocab(LONGCAT.TableIndex(i, j))
         == HashId(LONGCAT, context, p, i, j)
  {
    var t := LONGCAT.TableVocab(LONGCAT.TableIndex(i, j));
    assert t <= 10223639;
    assert 131072 * t <= 131072 * 10223639;
    assert i * (131072 * t) <= 4 * (131072 * t);
    NoWrap(LONGCAT, context, p, mods[(i, j)], t, i, i);
  }

  /** Without reducing each power the 4-gram polynomial does not fit 64 bits. */
  lemma RealDimsUnreducedOverflows()
    ensures var context := [131071, 131071, 131071, 131071];
            TokensInVocab(LONGCAT, context) && Polynomial(LONGCAT, context, 3, 4) >= 2 * TWO63
  {
    var c := [131071, 131071, 131071, 131071];
    var x: int := 131072;
    assert Pow(x, 0) == 1 && Pow(x, 1) == x;
    assert Pow(x, 2) == x * Pow(x, 1);
    assert Pow(x, 3) == x * Pow(x, 2);
    assert TokenBack(c, 3, 0, 2) == 131071 && TokenBack(c, 3, 1, 2) == 131071;
    assert TokenBack(c, 3, 2, 2) == 131071 && TokenBack(c, 3, 3, 2) == 131071;
    assert Polynomial(LONGCAT, c, 3, 0) == 0;
    assert Polynomial(LONGCAT, c, 3, 1) == 131071;
    assert Polynomial(LONGCAT, c, 3, 2) == 131071 + 131071 * Pow(x, 1);
    assert Polynomial(LONGCAT, c, 3, 3) == Polynomial(LONGCAT, c, 3, 2) + 131071 * Pow(x, 2);
    assert Polynomial(LONGCAT, c, 3, 4) == Polynomial(LONGCAT, c, 3, 3) + 131071 * Pow(x, 3);
  }
}
