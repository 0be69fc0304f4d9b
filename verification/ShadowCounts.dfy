// What the tables of a log count, told by its lines alone.
module ShadowCounts {
  import opened Text
  import opened ShadowTopk

  /** The list in force for a position: one printed for it with no later one. */
  ghost predicate ListFor(earlier: seq<Line>, pos: nat, ids: seq<int>)
  {
    exists q :: ListAt(earlier, pos, ids, q)
  }

  ghost predicate ListAt(earlier: seq<Line>, pos: nat, ids: seq<int>, q: int)
  {
    && 0 <= q < |earlier| && earlier[q] == Topk(pos, ids)
    && forall p :: q < p < |earlier| ==> !(earlier[p].Topk? && earlier[p].pos == pos)
  }

  ghost predicate SomeList(earlier: seq<Line>, pos: nat) { exists ids :: ListFor(earlier, pos, ids) }

  lemma {:induction false} LatestLaw(earlier: seq<Line>, pos: nat, ids: seq<int>)
    ensures Latest(earlier, pos) == Some(ids) <==> ListFor(earlier, pos, ids)
  {
    if earlier != [] {
      var l := |earlier| - 1;
      var front, last := earlier[..l], earlier[l];
      LatestLaw(front, pos, ids);
      if last.Topk? && last.pos == pos {
        if last.ids == ids { assert ListAt(earlier, pos, ids, l); }
      } else {
        if q :| ListAt(front, pos, ids, q) { assert ListAt(earlier, pos, ids, q); }
        if q :| ListAt(earlier, pos, ids, q) { assert ListAt(front, pos, ids, q); }
      }
    }
  }

  /** Draft i of a line is judged: it has a token, and every position up to its own has a list. */
  ghost predicate Judged(earlier: seq<Line>, t: Line, i: int)
  {
    && t.Target? && 0 <= i < |t.drafts| && i < |t.v|
    && forall p: nat :: t.base <= p <= t.base + i ==> SomeList(earlier, p)
  }

  /** The drafts before i were the tokens. */
  ghost predicate OnSpine(t: Line, i: nat)
  {
    t.Target? && i <= |t.drafts| && i <= |t.v| && forall j :: 0 <= j < i ==> t.drafts[j] == t.v[j]
  }

  /** Whether the target token is in the list, and how far up. */
  ghost predicate Ranked(ids: seq<int>, token: int, w: Which)
  {
    match w
    case All => true
    case Hit(r) => exists q :: 0 <= q < |ids| && q <= r && ids[q] == token
    case Missed => token !in ids
  }

  /** The line has a judged draft at depth d of the kind asked for. */
  ghost predicate Selected(earlier: seq<Line>, t: Line, d: nat, spineOnly: bool, w: Which)
  {
    && Judged(earlier, t, d - 1) && (spineOnly ==> OnSpine(t, d - 1))
    && var pos, token := t.base + d - 1, t.v[d - 1]; exists ids :: ListFor(earlier, pos, ids) && Ranked(ids, token, w)
  }

  /** The drafter's first choice was not the draft. */
  ghost predicate Mismatched(earlier: seq<Line>, t: Line, i: int)
  {
    && Judged(earlier, t, i)
    && var pos := t.base + i; exists ids :: ListFor(earlier, pos, ids) && ids != [] && ids[0] != t.drafts[i]
  }

  ghost predicate OnSpineJudged(earlier: seq<Line>, t: Line, i: int) { Judged(earlier, t, i) && OnSpine(t, i) }

  ghost function Marked(log: seq<Line>, d: nat, spineOnly: bool, w: Which): set<int>
  {
    set k | 0 <= k < |log| && Selected(log[..k], log[k], d, spineOnly, w)
  }

  function Drafts(t: Line): nat { if t.Target? then |t.drafts| else 0 }

  ghost function Drafted(log: seq<Line>, chosen: (seq<Line>, Line, int) -> bool): set<(int, int)>
  {
    set k, i | 0 <= k < |log| && 0 <= i < Drafts(log[k]) && chosen(log[..k], log[k], i) :: (k, i)
  }

  // ------------------------------------------------------------------- one line

  /** The samples of a line from draft i on, one by one. */
  ghost predicate Shaped(earlier: seq<Line>, t: Line, i: nat, spine: bool, ss: seq<Sample>)
    requires t.Target?
  {
    && i + |ss| <= |t.drafts| && i + |ss| <= |t.v|
    && (i + |ss| < |t.drafts| && i + |ss| < |t.v| ==> Latest(earlier, t.base + i + |ss|).None?)
    && forall j :: 0 <= j < |ss| ==>
         Sampled(earlier, t, i + j, spine && Held(t, i, i + j), ss[j])
  }

  /** Drafts lo to hi were the tokens. */
  ghost predicate Held(t: Line, lo: nat, hi: nat)
    requires t.Target? && hi <= |t.drafts| && hi <= |t.v|
  {
    forall h :: lo <= h < hi ==> t.drafts[h] == t.v[h]
  }

  ghost predicate Sampled(earlier: seq<Line>, t: Line, i: nat, spine: bool, s: Sample)
    requires t.Target? && i < |t.drafts| && i < |t.v|
  {
    && s.depth == i + 1 && s.spine == spine && Latest(earlier, t.base + i).Some?
    && var ids := Latest(earlier, t.base + i).value;
      s.mismatch == (ids != [] && ids[0] != t.drafts[i]) && forall w :: Ranked(ids, t.v[i], w) <==> RankIs(s.rank, w)
  }

  predicate RankIs(rank: Option<nat>, w: Which)
  {
    match w
    case All => true
    case Hit(r) => rank.Some? && rank.value <= r
    case Missed => rank.None?
  }

  lemma RankLaw(ids: seq<int>, token: int, w: Which)
    ensures Ranked(ids, token, w) <==> RankIs(IndexOf(ids, token), w)
  {
    var rank := IndexOf(ids, token);
    hide IndexOf;
    if rank.Some? {
      assert ids[rank.value] == token;
      assert forall q :: 0 <= q < rank.value ==> ids[q] == ids[..rank.value][q];
    }
  }

  lemma {:induction false} LineShape(earlier: seq<Line>, t: Line, i: nat, spine: bool)
    requires t.Target? && i <= |t.drafts| && i <= |t.v|
    ensures Shaped(earlier, t, i, spine, SamplesFrom(earlier, t, i, spine))
    decreases |t.drafts| - i
  {
    hide Latest, SampleAt, Sampled, Shaped;
    if i < |t.drafts| && i < |t.v| && Latest(earlier, t.base + i).Some? {
      var ids := Latest(earlier, t.base + i).value;
      var s, next := SampleAt(ids, t, i, spine), spine && t.drafts[i] == t.v[i];
      var rest := SamplesFrom(earlier, t, i + 1, next);
      LineShape(earlier, t, i + 1, next);
      FirstSampled(earlier, t, i, spine);
      ShapedMore(earlier, t, i, spine, s, rest);
    } else {
      ShapedNone(earlier, t, i, spine);
    }
  }

  lemma FirstSampled(earlier: seq<Line>, t: Line, i: nat, spine: bool)
    requires t.Target? && i < |t.drafts| && i < |t.v| && Latest(earlier, t.base + i).Some?
    ensures Sampled(earlier, t, i, spine, SampleAt(Latest(earlier, t.base + i).value, t, i, spine))
  {
    hide Latest, IndexOf, Ranked, RankIs;
    var ids := Latest(earlier, t.base + i).value;
    forall w
      ensures Ranked(ids, t.v[i], w) <==> RankIs(IndexOf(ids, t.v[i]), w)
    {
      RankLaw(ids, t.v[i], w);
    }
  }

  lemma ShapedNone(earlier: seq<Line>, t: Line, i: nat, spine: bool)
    requires t.Target? && i <= |t.drafts| && i <= |t.v|
    requires i < |t.drafts| && i < |t.v| ==> Latest(earlier, t.base + i).None?
    ensures Shaped(earlier, t, i, spine, [])
  {
  }

  lemma ShapedMore(earlier: seq<Line>, t: Line, i: nat, spine: bool, s: Sample, rest: seq<Sample>)
    requires t.Target? && i < |t.drafts| && i < |t.v| && Sampled(earlier, t, i, spine, s)
    requires Shaped(earlier, t, i + 1, spine && t.drafts[i] == t.v[i], rest)
    ensures Shaped(earlier, t, i, spine, [s] + rest)
  {
    hide Latest, Sampled;
    var ss := [s] + rest;
    forall j | 0 <= j < |ss|
      ensures Sampled(earlier, t, i + j, spine && Held(t, i, i + j), ss[j])
    {
      if j > 0 {
        HeldMore(t, i, i + j);
        assert ss[j] == rest[j - 1] && i + 1 + (j - 1) == i + j;
      }
    }
  }

  lemma HeldMore(t: Line, lo: nat, hi: nat)
    requires t.Target? && lo < hi <= |t.drafts| && hi <= |t.v|
    ensures Held(t, lo, hi) <==> t.drafts[lo] == t.v[lo] && Held(t, lo + 1, hi)
  {
  }

  lemma HasList(earlier: seq<Line>, pos: nat)
    ensures Latest(earlier, pos).Some? <==> SomeList(earlier, pos)
    ensures Latest(earlier, pos).Some? ==>
              forall ids :: ListFor(earlier, pos, ids) <==> ids == Latest(earlier, pos).value
  {
    hide ListFor;
    forall ids
      ensures Latest(earlier, pos) == Some(ids) <==> ListFor(earlier, pos, ids)
    {
      LatestLaw(earlier, pos, ids);
    }
  }

  /** The samples of a line are its judged drafts. */
  lemma OwnSamples(earlier: seq<Line>, t: Line)
    requires t.Target?
    ensures var own := SamplesFrom(earlier, t, 0, true);
      && |own| <= |t.drafts| && |own| <= |t.v|
      && (forall i: nat :: i < |own| <==> Judged(earlier, t, i))
      && forall i :: 0 <= i < |own| ==> Sampled(earlier, t, i, OnSpine(t, i), own[i])
  {
    hide SamplesFrom, SomeList, ListFor, Latest, Sampled;
    LineShape(earlier, t, 0, true);
    var own := SamplesFrom(earlier, t, 0, true);
    forall i: nat
      ensures i < |own| <==> Judged(earlier, t, i)
    {
      if i < |own| {
        forall p: nat | t.base <= p <= t.base + i
          ensures SomeList(earlier, p)
        {
          var j := p - t.base;
          SampledHasList(earlier, t, j, true && Held(t, 0, 0 + j), own[j]);
          HasList(earlier, p);
        }
      } else if Judged(earlier, t, i) {
        assert SomeList(earlier, t.base + |own|);
        HasList(earlier, t.base + |own|);
      }
    }
    forall i | 0 <= i < |own|
      ensures Sampled(earlier, t, i, OnSpine(t, i), own[i])
    {
      assert (true && Held(t, 0, 0 + i)) == OnSpine(t, i);
      assert 0 + i == i;
    }
  }

  lemma SampledHasList(earlier: seq<Line>, t: Line, i: nat, spine: bool, s: Sample)
    requires t.Target? && i < |t.drafts| && i < |t.v| && Sampled(earlier, t, i, spine, s)
    ensures Latest(earlier, t.base + i).Some?
  {
  }

  lemma {:induction false} CountAtDepth(ss: seq<Sample>, d: nat, spineOnly: bool, w: Which)
    requires forall j :: 0 <= j < |ss| ==> ss[j].depth == j + 1
    ensures Count(ss, d, spineOnly, w) == if 1 <= d <= |ss| && Counts(ss[d - 1], d, spineOnly, w) then 1 else 0
  {
    if ss != [] { CountAtDepth(ss[..|ss| - 1], d, spineOnly, w); }
  }

  lemma LineCount(earlier: seq<Line>, t: Line, d: nat, spineOnly: bool, w: Which)
    requires t.Target?
    ensures Count(SamplesFrom(earlier, t, 0, true), d, spineOnly, w)
         == if Selected(earlier, t, d, spineOnly, w) then 1 else 0
  {
    hide SamplesFrom, ListFor, Latest, Judged, OnSpine, Ranked, Count;
    var own := SamplesFrom(earlier, t, 0, true);
    OwnSamples(earlier, t);
    forall j | 0 <= j < |own|
      ensures own[j].depth == j + 1
    {
      assert Sampled(earlier, t, j, OnSpine(t, j), own[j]);
    }
    CountAtDepth(own, d, spineOnly, w);
    if d == 0 {
      NotBefore(earlier, t);
    } else if d - 1 < |own| {
      var pos, s := t.base + d - 1, own[d - 1];
      HasList(earlier, pos);
      assert Sampled(earlier, t, d - 1, OnSpine(t, d - 1), s);
      assert t.base + (d - 1) == pos;
      var ids := Latest(earlier, pos).value;
      assert ListFor(earlier, pos, ids);
      assert Ranked(ids, t.v[d - 1], w) <==> RankIs(s.rank, w);
      assert Counts(s, d, spineOnly, w) <==> (spineOnly ==> s.spine) && RankIs(s.rank, w);
    }
  }

  lemma NotBefore(earlier: seq<Line>, t: Line)
    ensures !Judged(earlier, t, -1)
  {
  }

  // -------------------------------------------------------------------- the log

  lemma LinesNext(log: seq<Line>, d: nat, spineOnly: bool, w: Which)
    requires log != []
    ensures
      var l := |log| - 1;
      Marked(log, d, spineOnly, w) == Marked(log[..l], d, spineOnly, w)
          + if Selected(log[..l], log[l], d, spineOnly, w) then {l} else {}
  {
    hide Selected;
    var l := |log| - 1;
    forall k | 0 <= k < l
      ensures Selected(log[..l][..k], log[..l][k], d, spineOnly, w) == Selected(log[..k], log[k], d, spineOnly, w)
    {
      assert log[..l][..k] == log[..k];
    }
  }

  /** Every count of a log is the number of its target lines with a judged draft of that depth and kind. */
  lemma {:induction false} CountIsLines(log: seq<Line>, d: nat, spineOnly: bool, w: Which)
    ensures Count(Samples(log), d, spineOnly, w) == |Marked(log, d, spineOnly, w)|
  {
    hide Selected, SamplesFrom, Count, Marked;
    if log == [] {
      NoLines(d, spineOnly, w);
    } else {
      var l := |log| - 1;
      CountIsLines(log[..l], d, spineOnly, w);
      LinesNext(log, d, spineOnly, w);
      Bounded(log[..l], d, spineOnly, w);
      if log[l].Target? {
        LineCount(log[..l], log[l], d, spineOnly, w);
        CountAppend(Samples(log[..l]), SamplesFrom(log[..l], log[l], 0, true), d, spineOnly, w);
      } else {
        NotSelected(log[..l], log[l], d, spineOnly, w);
        assert Samples(log[..l]) + [] == Samples(log[..l]);
      }
    }
  }

  lemma NoLines(d: nat, spineOnly: bool, w: Which)
    ensures Marked([], d, spineOnly, w) == {} && Count([], d, spineOnly, w) == 0
  {
  }

  lemma Bounded(log: seq<Line>, d: nat, spineOnly: bool, w: Which)
    ensures |log| !in Marked(log, d, spineOnly, w)
  {
    hide Selected;
  }

  lemma NotSelected(earlier: seq<Line>, t: Line, d: nat, spineOnly: bool, w: Which)
    requires !t.Target?
    ensures !Selected(earlier, t, d, spineOnly, w)
  {
  }

  /** The tables that the join returns, depth by depth. */
  lemma TablesCountLines(t: Tally, log: seq<Line>, kmax: nat, d: nat, spineOnly: bool)
    requires Tallies(t, log, kmax)
    ensures var table := if spineOnly then t.cond else t.uncond;
      && (d in table <==> Marked(log, d, spineOnly, All) != {})
      && (d in table ==>
           && table[d].n == |Marked(log, d, spineOnly, All)| && table[d].miss == |Marked(log, d, spineOnly, Missed)|
           && |table[d].hits| == kmax
           && forall r :: 0 <= r < kmax ==> table[d].hits[r] == |Marked(log, d, spineOnly, Hit(r))|)
  {
    hide Marked, Count, Samples, Latest;
    var table := if spineOnly then t.cond else t.uncond;
    assert Tabulates(table, Samples(log), spineOnly, kmax);
    forall w
      ensures Count(Samples(log), d, spineOnly, w) == |Marked(log, d, spineOnly, w)|
    {
      CountIsLines(log, d, spineOnly, w);
    }
  }

  // ---------------------------------------------------------------- the counters

  ghost function Among(n: nat, earlier: seq<Line>, t: Line, chosen: (seq<Line>, Line, int) -> bool): set<int>
  {
    set i | 0 <= i < n && chosen(earlier, t, i)
  }

  lemma {:induction false} MismatchesAmong(ss: seq<Sample>, earlier: seq<Line>, t: Line,
                                           chosen: (seq<Line>, Line, int) -> bool)
    requires forall i :: 0 <= i < |ss| ==> (ss[i].mismatch <==> chosen(earlier, t, i))
    ensures Mismatches(ss) == |Among(|ss|, earlier, t, chosen)|
  {
    if ss == [] {
      assert Among(0, earlier, t, chosen) == {};
    } else {
      var n := |ss| - 1;
      MismatchesAmong(ss[..n], earlier, t, chosen);
      AmongNext(n, earlier, t, chosen);
    }
  }

  lemma {:induction false} SpineAmong(ss: seq<Sample>, earlier: seq<Line>, t: Line,
                                      chosen: (seq<Line>, Line, int) -> bool)
    requires forall i :: 0 <= i < |ss| ==> (ss[i].spine <==> chosen(earlier, t, i))
    ensures SpineSamples(ss) == |Among(|ss|, earlier, t, chosen)|
  {
    if ss == [] {
      assert Among(0, earlier, t, chosen) == {};
    } else {
      var n := |ss| - 1;
      SpineAmong(ss[..n], earlier, t, chosen);
      AmongNext(n, earlier, t, chosen);
    }
  }

  lemma AmongNext(n: nat, earlier: seq<Line>, t: Line, chosen: (seq<Line>, Line, int) -> bool)
    ensures |Among(n + 1, earlier, t, chosen)|
         == |Among(n, earlier, t, chosen)| + if chosen(earlier, t, n) then 1 else 0
  {
    if chosen(earlier, t, n) {
      assert Among(n + 1, earlier, t, chosen) == Among(n, earlier, t, chosen) + {n};
    } else {
      assert Among(n + 1, earlier, t, chosen) == Among(n, earlier, t, chosen);
    }
  }

  ghost function RowOf(l: int, n: nat, earlier: seq<Line>, t: Line,
                       chosen: (seq<Line>, Line, int) -> bool): set<(int, int)>
  {
    set i | 0 <= i < n && chosen(earlier, t, i) :: (l, i)
  }

  lemma {:induction false} RowSize(l: int, n: nat, earlier: seq<Line>, t: Line, chosen: (seq<Line>, Line, int) -> bool)
    ensures |RowOf(l, n, earlier, t, chosen)| == |Among(n, earlier, t, chosen)|
  {
    if n == 0 {
      assert RowOf(l, n, earlier, t, chosen) == {} && Among(n, earlier, t, chosen) == {};
    } else {
      var row := RowOf(l, n - 1, earlier, t, chosen);
      RowSize(l, n - 1, earlier, t, chosen);
      AmongNext(n - 1, earlier, t, chosen);
      assert RowOf(l, n, earlier, t, chosen) == if chosen(earlier, t, n - 1) then row + {(l, n - 1)} else row;
    }
  }

  lemma DraftedNext(log: seq<Line>, chosen: (seq<Line>, Line, int) -> bool)
    requires log != []
    ensures var l := |log| - 1;
      |Drafted(log, chosen)| == |Drafted(log[..l], chosen)| + |Among(Drafts(log[l]), log[..l], log[l], chosen)|
  {
    var l := |log| - 1;
    var row := RowOf(l, Drafts(log[l]), log[..l], log[l], chosen);
    RowSize(l, Drafts(log[l]), log[..l], log[l], chosen);
    forall k | 0 <= k < l
      ensures log[..l][..k] == log[..k]
    {
    }
    forall p: (int, int)
      ensures p in Drafted(log, chosen) <==> p in Drafted(log[..l], chosen) || p in row
    {
    }
    assert Drafted(log, chosen) == Drafted(log[..l], chosen) + row;
    assert Drafted(log[..l], chosen) !! row;
  }

  lemma {:induction false} CountersAppend(a: seq<Sample>, b: seq<Sample>)
    ensures Mismatches(a + b) == Mismatches(a) + Mismatches(b)
    ensures SpineSamples(a + b) == SpineSamples(a) + SpineSamples(b)
    decreases |b|
  {
    if b == [] {
      assert a + b == a;
    } else {
      CountersAppend(a, b[..|b| - 1]);
      assert (a + b)[..|a + b| - 1] == a + b[..|b| - 1];
    }
  }

  lemma LineCounters(earlier: seq<Line>, t: Line)
    requires t.Target?
    ensures var own := SamplesFrom(earlier, t, 0, true);
      && Mismatches(own) == |Among(Drafts(t), earlier, t, Mismatched)|
      && SpineSamples(own) == |Among(Drafts(t), earlier, t, OnSpineJudged)|
  {
    hide SamplesFrom, ListFor, Latest, Judged, OnSpine, Ranked;
    var own := SamplesFrom(earlier, t, 0, true);
    OwnSamples(earlier, t);
    forall i: nat | i < |own|
      ensures own[i].mismatch <==> Mismatched(earlier, t, i)
      ensures own[i].spine <==> OnSpineJudged(earlier, t, i)
    {
      HasList(earlier, t.base + i);
      assert Sampled(earlier, t, i, OnSpine(t, i), own[i]);
    }
    MismatchesAmong(own, earlier, t, Mismatched);
    SpineAmong(own, earlier, t, OnSpineJudged);
    assert Among(|own|, earlier, t, Mismatched) == Among(Drafts(t), earlier, t, Mismatched);
    assert Among(|own|, earlier, t, OnSpineJudged) == Among(Drafts(t), earlier, t, OnSpineJudged);
  }

  /** The two counters: judged drafts on the spine, and judged drafts that the drafter did not put first. */
  lemma {:induction false} CountersCountDrafts(log: seq<Line>)
    ensures Mismatches(Samples(log)) == |Drafted(log, Mismatched)|
    ensures SpineSamples(Samples(log)) == |Drafted(log, OnSpineJudged)|
  {
    hide SamplesFrom, Mismatches, SpineSamples, Mismatched, OnSpineJudged, Drafted;
    if log == [] {
      NoDrafts();
    } else {
      var l := |log| - 1;
      CountersCountDrafts(log[..l]);
      DraftedNext(log, Mismatched);
      DraftedNext(log, OnSpineJudged);
      if log[l].Target? {
        LineCounters(log[..l], log[l]);
        CountersAppend(Samples(log[..l]), SamplesFrom(log[..l], log[l], 0, true));
      } else {
        assert Samples(log[..l]) + [] == Samples(log[..l]);
        assert Among(0, log[..l], log[l], Mismatched) == {} == Among(0, log[..l], log[l], OnSpineJudged);
      }
    }
  }

  lemma NoDrafts()
    ensures Drafted([], Mismatched) == {} == Drafted([], OnSpineJudged)
    ensures Mismatches([]) == 0 == SpineSamples([])
  {
  }
}
