// Choosing where to cut a long text so that its rendering has a given token count.
module CutSearch {
  import opened Text

  /** count(k) is the rendered token count of the first k words; sentence(k) says that they end a sentence. */
  ghost predicate Nondecreasing(count: nat -> int, n: nat)
  {
    forall i, j :: 1 <= i <= j <= n ==> count(i) <= count(j)
  }

  /** The largest cut whose count is at most the target, or 1 when even that is above it. */
  ghost predicate LargestWithin(count: nat -> int, n: nat, target: int, k: nat)
  {
    && 1 <= k <= n && (k > 1 ==> count(k) <= target)
    && forall j :: k < j <= n ==> count(j) > target
  }

  /** Every cut from k to top has the target count and, if longer than one word, does not end a sentence. */
  ghost predicate Passed(count: nat -> int, sentence: nat -> bool, target: int, k: nat, top: nat)
  {
    forall j :: k <= j <= top ==> count(j) == target && (j > 1 ==> !sentence(j))
  }

  /** The scan passed every cut above low and stopped there, at the first word or at another count. */
  ghost predicate Exhausted(count: nat -> int, sentence: nat -> bool, target: int, low: nat, top: nat)
  {
    1 <= low <= top && Passed(count, sentence, target, low + 1, top) && (low == 1 || count(low) != target)
  }

  method BinarySearch(count: nat -> int, n: nat, target: int) returns (lo: nat)
    requires n >= 1
    ensures 1 <= lo <= n && (lo > 1 ==> count(lo) <= target)
    ensures lo < n ==> count(lo + 1) > target
    ensures Nondecreasing(count, n) ==> LargestWithin(count, n, target, lo)
  {
    lo := 1;
    var hi := n;
    while lo < hi
      invariant 1 <= lo <= hi <= n && (lo > 1 ==> count(lo) <= target)
      invariant hi < n ==> count(hi + 1) > target
    {
      var mid := (lo + hi + 1) / 2;
      if count(mid) <= target { lo := mid; } else { hi := mid - 1; }
    }
  }

  /**
   * The backward scan from the found cut, whatever the counts do: the answer has exactly the target count;
   * it is the last sentence end reached through cuts of the target count, or the found cut if there is none.
   */
  method ScanBack(count: nat -> int, sentence: nat -> bool, target: int, top: nat) returns (best: nat, ghost low: nat)
    requires top >= 1 && count(top) == target
    ensures 1 <= best <= top && count(best) == target
    ensures best > 1 && sentence(best) ==> Passed(count, sentence, target, best + 1, top)
    ensures !(best > 1 && sentence(best)) ==> best == top && Exhausted(count, sentence, target, low, top)
  {
    best, low := top, top;
    var k := top;
    while k > 1 && count(k) == target
      invariant 1 <= k <= top && best == top && Passed(count, sentence, target, k + 1, top)
      decreases k
    {
      if sentence(k) {
        best := k;
        return;
      }
      k := k - 1;
    }
    low := k;
  }

  /** None where the source exits. */
  method FindCut(count: nat -> int, sentence: nat -> bool, n: nat, target: int) returns (best: Option<nat>)
    requires n >= 1
    ensures best.Some? ==> 1 <= best.value <= n && count(best.value) == target
    ensures Nondecreasing(count, n) ==> (best.Some? <==> exists k :: 1 <= k <= n && count(k) == target)
    ensures Nondecreasing(count, n) && best.Some? ==> IsBest(count, sentence, n, target, best.value)
  {
    hide Passed, Exhausted, LargestWithin, IsBest;
    var lo := BinarySearch(count, n, target);
    if Nondecreasing(count, n) { ExactCutExists(count, n, target, lo); }
    if count(lo) != target { return None; }
    var found, low := ScanBack(count, sentence, target, lo);
    if Nondecreasing(count, n) { ScanPicksLast(count, sentence, n, target, lo, low, found); }
    best := Some(found);
  }

  /** A cut that the nondecreasing case allows: the target count, ending a sentence, more than one word. */
  ghost predicate Candidate(count: nat -> int, sentence: nat -> bool, n: nat, target: int, k: nat)
  {
    2 <= k <= n && count(k) == target && sentence(k)
  }

  /** The last candidate or, when there is none, the last cut of the target count. */
  ghost predicate IsBest(count: nat -> int, sentence: nat -> bool, n: nat, target: int, best: nat)
  {
    if exists k: nat :: Candidate(count, sentence, n, target, k)
    then Candidate(count, sentence, n, target, best)
         && forall k: nat :: Candidate(count, sentence, n, target, k) ==> k <= best
    else forall k :: 1 <= k <= n && count(k) == target ==> k <= best
  }

  /** With nondecreasing counts, some cut has the target count exactly when the found one has. */
  lemma ExactCutExists(count: nat -> int, n: nat, target: int, top: nat)
    requires n >= 1 && Nondecreasing(count, n) && LargestWithin(count, n, target, top)
    ensures count(top) == target <==> exists k :: 1 <= k <= n && count(k) == target
  {
    if k :| 1 <= k <= n && count(k) == target {
      assert k <= top;
      assert count(k) <= count(top);
    }
  }

  /** With nondecreasing counts, stopping where the scan stops loses no later candidate. */
  lemma ScanPicksLast(count: nat -> int, sentence: nat -> bool, n: nat, target: int, top: nat, low: nat, best: nat)
    requires n >= 1 && Nondecreasing(count, n) && LargestWithin(count, n, target, top) && count(top) == target
    requires 1 <= best <= top && count(best) == target
    requires best > 1 && sentence(best) ==> Passed(count, sentence, target, best + 1, top)
    requires !(best > 1 && sentence(best)) ==> best == top && Exhausted(count, sentence, target, low, top)
    ensures IsBest(count, sentence, n, target, best)
  {
    forall k | 1 <= k <= n && count(k) == target
      ensures k <= top
    {
    }
    if best > 1 && sentence(best) {
      assert Candidate(count, sentence, n, target, best);
      forall k: nat | Candidate(count, sentence, n, target, k)
        ensures k <= best
      {
      }
    } else {
      forall k: nat
        ensures !Candidate(count, sentence, n, target, k)
      {
        NoCandidate(count, sentence, n, target, top, low, k);
      }
    }
  }

  lemma NoCandidate(count: nat -> int, sentence: nat -> bool, n: nat, target: int, top: nat, low: nat, k: nat)
    requires Nondecreasing(count, n) && LargestWithin(count, n, target, top) && count(top) == target
    requires Exhausted(count, sentence, target, low, top)
    ensures !Candidate(count, sentence, n, target, k)
  {
    if 2 <= k <= low {
      assert count(k) <= count(low) <= count(top);
    } else if top < k <= n {
      assert count(k) > target;
    }
  }
}
