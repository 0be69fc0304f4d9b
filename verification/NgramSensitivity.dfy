// When the vocabulary size is a power of two, the hash tables separate every pair of windows that differ
// in one token, neither version of it an EOS; and what a new EOS does.
module NgramSensitivity {
  import opened ModArith
  import opened NgramHash

  /** Table sizes are pairwise different, whatever the configuration. */
  lemma TableSizesDistinct(cfg: Cfg, i: nat, j: nat, i': nat, j': nat)
    requires 2 <= i && 2 <= i' && j < cfg.splitNum && j' < cfg.splitNum
    ensures cfg.TableVocab(cfg.TableIndex(i, j)) == cfg.TableVocab(cfg.TableIndex(i', j')) <==> (i, j) == (i', j')
  {
    var k := cfg.splitNum;
    NonzeroMultiple(i - i', k);
    assert cfg.TableIndex(i, j) - cfg.TableIndex(i', j') == (i - i') * k + j - j' by {
      assert (i - 2) * k - (i' - 2) * k == (i - i') * k;
    }
  }

  /** The two contexts agree except d places before p. */
  ghost predicate DifferOnlyAt(a: seq<int>, b: seq<int>, p: nat, d: nat)
  {
    && |a| == |b| && p < |a| && d <= p
    && a[p - d] != b[p - d]
    && forall q :: 0 <= q < |a| && q != p - d ==> a[q] == b[q]
  }

  /** Neither version of the changed token ends a document that p does not belong to. */
  ghost predicate NotAnEos(cfg: Cfg, a: seq<int>, b: seq<int>, p: nat, d: nat)
    requires DifferOnlyAt(a, b, p, d)
  {
    d == 0 || (a[p - d] != cfg.eos && b[p - d] != cfg.eos)
  }

  lemma SameReach(cfg: Cfg, a: seq<int>, b: seq<int>, p: nat, d: nat, n: nat)
    requires DifferOnlyAt(a, b, p, d) && NotAnEos(cfg, a, b, p, d)
    ensures n != d ==> TokenBack(a, p, n, cfg.eos) == TokenBack(b, p, n, cfg.eos)
    ensures EosFree(a, p - d, p, cfg.eos) == EosFree(b, p - d, p, cfg.eos)
  {
    if n <= p {
      assert EosFree(a, p - n, p, cfg.eos) == EosFree(b, p - n, p, cfg.eos);
    }
  }

  /** The difference of the two polynomials is one monomial, or nothing beyond an EOS. */
  lemma {:induction false} PolynomialDifference(cfg: Cfg, a: seq<int>, b: seq<int>, p: nat, d: nat, i: nat)
    requires DifferOnlyAt(a, b, p, d) && NotAnEos(cfg, a, b, p, d)
    ensures Polynomial(cfg, a, p, i) - Polynomial(cfg, b, p, i)
         == if d < i && EosFree(a, p - d, p, cfg.eos) then (a[p - d] - b[p - d]) * Pow(cfg.vocabSize, d) else 0
  {
    if i > 0 {
      var n := i - 1;
      PolynomialDifference(cfg, a, b, p, d, n);
      SameReach(cfg, a, b, p, d, n);
      SubtractProducts(TokenBack(a, p, n, cfg.eos), TokenBack(b, p, n, cfg.eos), Pow(cfg.vocabSize, n));
    }
  }

  lemma SubtractProducts(x: int, y: int, w: int)
    ensures x * w - y * w == (x - y) * w
  {
  }

  /** A table of a power-of-two vocabulary has an odd size: it shares no factor with V. */
  lemma {:induction false} CoprimeToPowers(cfg: Cfg, k: nat, index: nat, x: int, d: nat)
    requires cfg.vocabSize == Pow(2, k) && cfg.ratio >= 1 && k >= 1
    requires (x * Pow(cfg.vocabSize, d)) % cfg.TableVocab(index) == 0
    ensures x % cfg.TableVocab(index) == 0
  {
    var t := cfg.TableVocab(index);
    assert cfg.M() == 2 * (cfg.ratio * Pow(2, k - 1)) by {
      assert Pow(2, k) == 2 * Pow(2, k - 1);
      assert cfg.ratio * (2 * Pow(2, k - 1)) == 2 * (cfg.ratio * Pow(2, k - 1));
    }
    PowMul(2, k, d);
    OddDividesShifted(t, x, k * d);
  }

  /** A nonzero difference of two tokens is no multiple of a table size. */
  lemma TokenGapSurvives(cfg: Cfg, index: nat, x: int)
    requires cfg.ratio >= 1 && x != 0 && -(cfg.vocabSize as int) < x < cfg.vocabSize
    ensures x % cfg.TableVocab(index) != 0
  {
    var t := cfg.TableVocab(index);
    NonzeroMultiple(cfg.vocabSize, cfg.ratio);
    assert t > cfg.vocabSize;
    if x > 0 { ModUnique(x, t, 0, x); } else { ModUnique(x, t, -1, x + t); }
  }

  /**
   * Changing one token of an n-gram window, neither version of it an EOS, changes the id exactly when no
   * EOS hides the token from p: for every size i, split j and position of the change in the window.
   */
  lemma OneTokenChangesId(cfg: Cfg, k: nat, a: seq<int>, b: seq<int>, p: nat, d: nat, i: nat, j: nat)
    requires cfg.vocabSize == Pow(2, k) && k >= 1 && cfg.ratio >= 1
    requires TokensInVocab(cfg, a) && TokensInVocab(cfg, b)
    requires DifferOnlyAt(a, b, p, d) && NotAnEos(cfg, a, b, p, d) && d < i && 2 <= i
    ensures HashId(cfg, a, p, i, j) != HashId(cfg, b, p, i, j) <==> EosFree(a, p - d, p, cfg.eos)
  {
    var index := cfg.TableIndex(i, j);
    var t := cfg.TableVocab(index);
    var x := a[p - d] - b[p - d];
    PolynomialDifference(cfg, a, b, p, d, i);
    if EosFree(a, p - d, p, cfg.eos) && HashId(cfg, a, p, i, j) == HashId(cfg, b, p, i, j) {
      SameResidue(Polynomial(cfg, a, p, i), Polynomial(cfg, b, p, i), t);
      CoprimeToPowers(cfg, k, index, x, d);
      TokenGapSurvives(cfg, index, x);
      assert false;
    }
  }

  /** An EOS put d places before p cuts the window there. */
  lemma {:induction false} EosCutsWindow(cfg: Cfg, a: seq<int>, b: seq<int>, p: nat, d: nat, i: nat)
    requires DifferOnlyAt(a, b, p, d) && d >= 1 && b[p - d] == cfg.eos
    ensures Polynomial(cfg, b, p, i) == Polynomial(cfg, a, p, if i < d then i else d)
  {
    if i > 0 {
      var n := i - 1;
      EosCutsWindow(cfg, a, b, p, d, n);
      if n < d {
        assert n <= p ==> EosFree(a, p - n, p, cfg.eos) == EosFree(b, p - n, p, cfg.eos);
        assert TokenBack(a, p, n, cfg.eos) == TokenBack(b, p, n, cfg.eos);
      } else {
        assert n <= p ==> !EosFree(b, p - n, p, cfg.eos);
        assert TokenBack(b, p, n, cfg.eos) == 0;
      }
    }
  }

  /**
   * Changing a token into an EOS that p lies beyond changes the id exactly when the part of the polynomial
   * that the EOS cuts off is no multiple of the table size.
   */
  lemma NewEosChangesId(cfg: Cfg, a: seq<int>, b: seq<int>, p: nat, d: nat, i: nat, j: nat)
    requires DifferOnlyAt(a, b, p, d) && 1 <= d < i && 2 <= i && b[p - d] == cfg.eos
    ensures HashId(cfg, a, p, i, j) != HashId(cfg, b, p, i, j)
       <==> (Polynomial(cfg, a, p, i) - Polynomial(cfg, a, p, d)) % cfg.TableVocab(cfg.TableIndex(i, j)) != 0
  {
    var t := cfg.TableVocab(cfg.TableIndex(i, j));
    var x, y := Polynomial(cfg, a, p, i), Polynomial(cfg, a, p, d);
    EosCutsWindow(cfg, a, b, p, d, i);
    if x % t == y % t {
      SameResidue(x, y, t);
    } else if (x - y) % t == 0 {
      var q := (x - y) / t;
      assert x == y + q * t;
      ModShift(y, q, t);
    }
  }

  // -------------------------------------------------------- the rolling recurrence

  lemma BackOne(row: seq<int>, p: nat, n: nat, eos: int)
    requires 1 <= p < |row|
    ensures TokenBack(row, p, n + 1, eos) == if row[p - 1] == eos then 0 else TokenBack(row, p - 1, n, eos)
  {
    if n + 1 <= p {
      assert EosFree(row, p - (n + 1), p, eos) <==> EosFree(row, p - 1 - n, p - 1, eos) && row[p - 1] != eos;
    }
  }

  /**
   * The polynomial rolls: the token itself, plus V times the polynomial of the position before with one token
   * less, unless the sequence starts here or the token before is an EOS.
   */
  lemma {:induction false} Rolling(cfg: Cfg, context: seq<int>, p: nat, i: nat)
    requires p < |context| && i >= 1
    ensures Polynomial(cfg, context, p, i)
         == context[p] + if p == 0 || context[p - 1] == cfg.eos then 0
                         else cfg.vocabSize * Polynomial(cfg, context, p - 1, i - 1)
  {
    hide EosFree;
    var v := cfg.vocabSize;
    if i == 1 {
      assert Polynomial(cfg, context, p, 0) == 0 && Pow(v, 0) == 1;
      assert TokenBack(context, p, 0, cfg.eos) == context[p] by { NothingBetween(context, p, cfg.eos); }
      if p > 0 { assert Polynomial(cfg, context, p - 1, 0) == 0; }
    } else {
      Rolling(cfg, context, p, i - 1);
      var n := i - 2;
      assert Pow(v, n + 1) == v * Pow(v, n);
      if p > 0 {
        BackOne(context, p, n, cfg.eos);
        var tok := TokenBack(context, p - 1, n, cfg.eos);
        Pull(v, Polynomial(cfg, context, p - 1, n), tok, Pow(v, n));
      } else {
        assert TokenBack(context, p, n + 1, cfg.eos) == 0;
      }
    }
  }

  lemma NothingBetween(row: seq<int>, p: nat, eos: int)
    requires p < |row|
    ensures TokenBack(row, p, 0, eos) == row[p]
  {
  }

  lemma Pull(v: int, a: int, tok: int, power: int)
    ensures v * a + tok * (v * power) == v * (a + tok * power)
  {
    assert tok * (v * power) == v * (tok * power);
  }
}
