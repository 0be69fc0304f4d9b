// Joining drafter top-k lines with verifier lines of one chronological log, into per-depth coverage counts.
module ShadowTopk {
  import opened Text

  /** The log lines the two patterns recognise; anything else is skipped. */
  datatype Line = Topk(pos: nat, ids: seq<int>) | Target(base: nat, v: seq<int>, drafts: seq<int>) | Noise

  datatype Stats = Stats(n: nat, hits: seq<nat>, miss: nat)

  type Table = map<nat, Stats>

  datatype Tally = Tally(last: map<nat, seq<int>>, cond: Table, uncond: Table, targets: nat, joined: nat,
                         mismatches: nat)

  // ------------------------------------------------------------- what is counted

  /** One judged draft: its depth, the target's rank in the drafter's list, whether the spine held so far. */
  datatype Sample = Sample(depth: nat, rank: Option<nat>, spine: bool, mismatch: bool, noIds: bool)

  /** The drafter's list for a position: that of the latest earlier line for it. */
  function Latest(earlier: seq<Line>, pos: nat): Option<seq<int>>
  {
    if earlier == [] then None
    else
      var l := earlier[|earlier| - 1];
      if l.Topk? && l.pos == pos then Some(l.ids) else Latest(earlier[..|earlier| - 1], pos)
  }

  function IndexOf(ids: seq<int>, x: int): (r: Option<nat>)
    ensures r.Some? <==> x in ids
    ensures r.Some? ==> r.value < |ids| && ids[r.value] == x && x !in ids[..r.value]
  {
    if ids == [] then None
    else if ids[0] == x then Some(0)
    else
      match IndexOf(ids[1..], x)
      case None => None
      case Some(k) =>
        assert ids[..k + 1] == [ids[0]] + ids[1..][..k];
        Some(k + 1)
  }

  function SampleAt(ids: seq<int>, t: Line, i: nat, spine: bool): Sample
    requires t.Target? && i < |t.drafts| && i < |t.v|
  {
    Sample(i + 1, IndexOf(ids, t.v[i]), spine, ids != [] && ids[0] != t.drafts[i], ids == [])
  }

  /**
   * The samples of one target line from draft i on; they end at the first position without a list, or without a
   * token.
   */
  function SamplesFrom(earlier: seq<Line>, t: Line, i: nat, spine: bool): seq<Sample>
    requires t.Target? && i <= |t.drafts|
    decreases |t.drafts| - i
  {
    if i == |t.drafts| || i >= |t.v| then []
    else
      match Latest(earlier, t.base + i)
      case None => []
      case Some(ids) => [SampleAt(ids, t, i, spine)] + SamplesFrom(earlier, t, i + 1, spine && t.drafts[i] == t.v[i])
  }

  predicate Listed(earlier: seq<Line>, t: Line, i: nat)
    requires t.Target?
  {
    Latest(earlier, t.base + i).Some?
  }

  /** The line's drafts run past its tokens with every list on the way present, so that indexing raises. */
  ghost predicate Raises(earlier: seq<Line>, t: Line)
  {
    t.Target? && |t.v| < |t.drafts| && forall i :: 0 <= i <= |t.v| ==> Listed(earlier, t, i)
  }

  ghost predicate LogRaises(log: seq<Line>) { exists k :: 0 <= k < |log| && Raises(log[..k], log[k]) }

  function Samples(log: seq<Line>): seq<Sample>
  {
    if log == [] then []
    else
      var front, l := log[..|log| - 1], log[|log| - 1];
      Samples(front) + if l.Target? then SamplesFrom(front, l, 0, true) else []
  }

  datatype Which = All | Hit(r: nat) | Missed

  predicate Counts(s: Sample, depth: nat, spineOnly: bool, w: Which)
  {
    && s.depth == depth && (spineOnly ==> s.spine)
    && match w
       case All => true
       case Hit(r) => s.rank.Some? && s.rank.value <= r
       case Missed => s.rank.None?
  }

  function Count(ss: seq<Sample>, depth: nat, spineOnly: bool, w: Which): nat
  {
    if ss == [] then 0
    else Count(ss[..|ss| - 1], depth, spineOnly, w) + if Counts(ss[|ss| - 1], depth, spineOnly, w) then 1 else 0
  }

  function Mismatches(ss: seq<Sample>): nat
  {
    if ss == [] then 0 else Mismatches(ss[..|ss| - 1]) + if ss[|ss| - 1].mismatch then 1 else 0
  }

  function SpineSamples(ss: seq<Sample>): nat
  {
    if ss == [] then 0 else SpineSamples(ss[..|ss| - 1]) + if ss[|ss| - 1].spine then 1 else 0
  }

  // -------------------------------------------------------------------- the loop

  /** A table holds exactly the counts of the samples, for the depths that occur. */
  ghost predicate Tabulates(table: Table, ss: seq<Sample>, spineOnly: bool, kmax: nat)
  {
    forall d: nat ::
      && (d in table <==> Count(ss, d, spineOnly, All) > 0)
      && (d in table ==> TabulatesAt(table[d], ss, d, spineOnly, kmax))
  }

  ghost predicate TabulatesAt(e: Stats, ss: seq<Sample>, d: nat, spineOnly: bool, kmax: nat)
  {
    && e.n == Count(ss, d, spineOnly, All) && e.miss == Count(ss, d, spineOnly, Missed) && |e.hits| == kmax
    && forall r :: 0 <= r < kmax ==> e.hits[r] == Count(ss, d, spineOnly, Hit(r))
  }

  lemma CountSnoc(ss: seq<Sample>, s: Sample, d: nat, spineOnly: bool, w: Which)
    ensures Count(ss + [s], d, spineOnly, w) == Count(ss, d, spineOnly, w) + if Counts(s, d, spineOnly, w) then 1 else 0
  {
    assert (ss + [s])[..|ss|] == ss;
  }

  lemma {:induction false} CountWithinAll(ss: seq<Sample>, d: nat, spineOnly: bool, w: Which)
    ensures Count(ss, d, spineOnly, w) <= Count(ss, d, spineOnly, All)
  {
    if ss != [] { CountWithinAll(ss[..|ss| - 1], d, spineOnly, w); }
  }

  lemma NoneCounted(ss: seq<Sample>, d: nat, spineOnly: bool, kmax: nat)
    requires Count(ss, d, spineOnly, All) == 0
    ensures TabulatesAt(Stats(0, seq(kmax, _ => 0), 0), ss, d, spineOnly, kmax)
  {
    CountWithinAll(ss, d, spineOnly, Missed);
    forall r | 0 <= r < kmax
      ensures Count(ss, d, spineOnly, Hit(r)) == 0
    {
      CountWithinAll(ss, d, spineOnly, Hit(r));
    }
  }

  method Bump(table: Table, s: Sample, kmax: nat, ghost ss: seq<Sample>, ghost spineOnly: bool) returns (out: Table)
    requires Tabulates(table, ss, spineOnly, kmax) && (spineOnly ==> s.spine)
    ensures Tabulates(out, ss + [s], spineOnly, kmax)
  {
    var e := Stats(0, seq(kmax, _ => 0), 0);
    if s.depth in table { e := table[s.depth]; } else { NoneCounted(ss, s.depth, spineOnly, kmax); }
    assert TabulatesAt(e, ss, s.depth, spineOnly, kmax);
    ghost var before := e;
    e := e.(n := e.n + 1);
    if s.rank.None? {
      e := e.(miss := e.miss + 1);
    } else if s.rank.value < kmax {
      for r := s.rank.value to kmax
        invariant e == before.(n := before.n + 1, hits := e.hits) && |e.hits| == kmax
        invariant forall q :: 0 <= q < kmax ==> e.hits[q] == before.hits[q] + if s.rank.value <= q < r then 1 else 0
      {
        e := e.(hits := e.hits[r := e.hits[r] + 1]);
      }
    }
    out := table[s.depth := e];
    BumpedTable(table, out, before, e, s, kmax, ss, spineOnly);
  }

  lemma BumpedTable(table: Table, out: Table, before: Stats, e: Stats, s: Sample, kmax: nat, ss: seq<Sample>,
                    spineOnly: bool)
    requires Tabulates(table, ss, spineOnly, kmax) && (spineOnly ==> s.spine) && out == table[s.depth := e]
    requires TabulatesAt(before, ss, s.depth, spineOnly, kmax)
    requires e.n == before.n + 1 && e.miss == before.miss + (if s.rank.None? then 1 else 0) && |e.hits| == kmax
    requires forall q :: 0 <= q < kmax ==>
               e.hits[q] == before.hits[q] + if s.rank.Some? && s.rank.value <= q then 1 else 0
    ensures Tabulates(out, ss + [s], spineOnly, kmax)
  {
    hide Count;
    forall d: nat
      ensures d in out <==> Count(ss + [s], d, spineOnly, All) > 0
      ensures d in out ==> TabulatesAt(out[d], ss + [s], d, spineOnly, kmax)
    {
      CountSnoc(ss, s, d, spineOnly, All);
      CountSnoc(ss, s, d, spineOnly, Missed);
      forall r | 0 <= r < kmax
        ensures Count(ss + [s], d, spineOnly, Hit(r))
             == Count(ss, d, spineOnly, Hit(r)) + if Counts(s, d, spineOnly, Hit(r)) then 1 else 0
      {
        CountSnoc(ss, s, d, spineOnly, Hit(r));
      }
    }
  }

  lemma SkippedSample(table: Table, s: Sample, kmax: nat, ss: seq<Sample>)
    requires Tabulates(table, ss, true, kmax) && !s.spine
    ensures Tabulates(table, ss + [s], true, kmax)
  {
    hide Count;
    forall d: nat, w: Which
      ensures Count(ss + [s], d, true, w) == Count(ss, d, true, w)
    {
      CountSnoc(ss, s, d, true, w);
    }
  }

  /** The map is the latest list of every position, and the tables count the samples of the log so far. */
  ghost predicate Tallies(t: Tally, log: seq<Line>, kmax: nat)
  {
    && (forall p: nat :: Latest(log, p) == if p in t.last then Some(t.last[p]) else None)
    && TalliesSamples(t, Samples(log), kmax)
  }

  ghost predicate TalliesSamples(t: Tally, ss: seq<Sample>, kmax: nat)
  {
    && Tabulates(t.uncond, ss, false, kmax) && Tabulates(t.cond, ss, true, kmax)
    && t.joined == SpineSamples(ss) && t.mismatches == Mismatches(ss)
  }

  /** The drafts of one target line; None where indexing its tokens raises. */
  method Judge(t: Tally, line: Line, kmax: nat, ghost earlier: seq<Line>) returns (out: Option<Tally>)
    requires line.Target? && Tallies(t, earlier, kmax)
    ensures out.None? <==> Raises(earlier, line)
    ensures out.Some? ==> out.value.last == t.last && out.value.targets == t.targets + 1
    ensures out.Some? ==> TalliesSamples(out.value, Samples(earlier) + SamplesFrom(earlier, line, 0, true), kmax)
  {
    hide *;
    var now := t.(targets := t.targets + 1);
    ghost var before, own := Samples(earlier), SamplesFrom(earlier, line, 0, true);
    ghost var done, rest := [], own;
    assert before + done == before && done + rest == own;
    StartJudging(t, now, earlier, kmax);
    var prefixOk := true;
    for i := 0 to |line.drafts|
      invariant now.last == t.last && now.targets == t.targets + 1
      invariant TalliesSamples(now, before + done, kmax)
      invariant done + rest == own && rest == SamplesFrom(earlier, line, i, prefixOk)
      invariant i <= |line.v| && forall j :: 0 <= j < i ==> Listed(earlier, line, j)
    {
      NextSample(t, earlier, line, i, prefixOk, kmax);
      if line.base + i !in now.last {
        assert rest == [] && done + rest == done;
        MissingList(earlier, line, i);
        return Some(now);
      }
      if i >= |line.v| {
        Overrun(earlier, line);
        return None;
      }
      var ids := now.last[line.base + i];
      var s := SampleAt(ids, line, i, prefixOk);
      now := Take(now, s, kmax, before + done);
      ghost var after := SamplesFrom(earlier, line, i + 1, prefixOk && line.drafts[i] == line.v[i]);
      assert rest == [s] + after;
      assert before + done + [s] == before + (done + [s]) && done + rest == done + [s] + after;
      done, rest := done + [s], after;
      prefixOk := prefixOk && line.drafts[i] == line.v[i];
    }
    NoMoreSamples(earlier, line, prefixOk);
    assert done + rest == done;
    out := Some(now);
  }

  lemma MissingList(earlier: seq<Line>, line: Line, i: nat)
    requires line.Target? && i <= |line.v| && !Listed(earlier, line, i)
    ensures !Raises(earlier, line)
  {
  }

  lemma Overrun(earlier: seq<Line>, line: Line)
    requires line.Target? && |line.v| < |line.drafts| && forall j :: 0 <= j <= |line.v| ==> Listed(earlier, line, j)
    ensures Raises(earlier, line)
  {
  }

  lemma StartJudging(t: Tally, out: Tally, earlier: seq<Line>, kmax: nat)
    requires Tallies(t, earlier, kmax) && out == t.(targets := t.targets + 1)
    ensures TalliesSamples(out, Samples(earlier), kmax)
  {
    hide Tabulates, Samples;
  }

  lemma NoMoreSamples(earlier: seq<Line>, line: Line, spine: bool)
    requires line.Target?
    ensures SamplesFrom(earlier, line, |line.drafts|, spine) == []
    ensures |line.drafts| <= |line.v| ==> !Raises(earlier, line)
  {
  }

  /** The next draft is judged against the map's list for its position, if there is one. */
  lemma NextSample(t: Tally, earlier: seq<Line>, line: Line, i: nat, spine: bool, kmax: nat)
    requires line.Target? && i < |line.drafts| && Tallies(t, earlier, kmax)
    ensures var p, rest := line.base + i, SamplesFrom(earlier, line, i, spine);
            && (p in t.last <==> Listed(earlier, line, i))
            && (p !in t.last ==> rest == [])
            && (p in t.last && i < |line.v| ==>
                rest == [SampleAt(t.last[p], line, i, spine)]
                    + SamplesFrom(earlier, line, i + 1, spine && line.drafts[i] == line.v[i]))
  {
    hide Tabulates, Samples, SampleAt;
    assert Latest(earlier, line.base + i) == if line.base + i in t.last then Some(t.last[line.base + i]) else None;
  }

  method Take(t: Tally, s: Sample, kmax: nat, ghost ss: seq<Sample>) returns (out: Tally)
    requires TalliesSamples(t, ss, kmax)
    ensures out.last == t.last && out.targets == t.targets && TalliesSamples(out, ss + [s], kmax)
  {
    hide Tabulates;
    assert (ss + [s])[..|ss|] == ss;
    out := t;
    if s.mismatch { out := out.(mismatches := out.mismatches + 1); }
    var uncond := Bump(out.uncond, s, kmax, ss, false);
    out := out.(uncond := uncond);
    if s.spine {
      var cond := Bump(out.cond, s, kmax, ss, true);
      out := out.(cond := cond, joined := out.joined + 1);
    } else {
      SkippedSample(out.cond, s, kmax, ss);
    }
  }

  /** One pass over the log; a later list for a position replaces the earlier one. */
  method Join(log: seq<Line>, kmax: nat) returns (out: Option<Tally>)
    ensures out.None? <==> LogRaises(log)
    ensures out.Some? ==> Tallies(out.value, log, kmax)
  {
    hide Tallies, Raises;
    var t := Tally(map[], map[], map[], 0, 0, 0);
    NothingTallied(t, kmax);
    assert log[..0] == [];
    for n := 0 to |log|
      invariant Tallies(t, log[..n], kmax)
      invariant forall k :: 0 <= k < n ==> !Raises(log[..k], log[k])
    {
      var line := log[n];
      match line
      case Noise =>
        NeverRaises(log[..n], line);
        StillTallies(t, t, log, n, kmax);
      case Topk(pos, ids) =>
        NeverRaises(log[..n], line);
        StillTallies(t, t.(last := t.last[pos := ids]), log, n, kmax);
        t := t.(last := t.last[pos := ids]);
      case Target(base, v, drafts) =>
        var judged := Judge(t, line, kmax, log[..n]);
        if judged.None? { return None; }
        TalliesLine(t, judged.value, log, n, kmax);
        t := judged.value;
    }
    assert log[..|log|] == log;
    out := Some(t);
  }

  /** A line that is no target line changes at most the latest list of its position. */
  lemma StillTallies(t: Tally, out: Tally, log: seq<Line>, n: nat, kmax: nat)
    requires n < |log| && !log[n].Target? && Tallies(t, log[..n], kmax)
    requires out == t.(last := if log[n].Topk? then t.last[log[n].pos := log[n].ids] else t.last)
    ensures Tallies(out, log[..n + 1], kmax)
  {
    hide TalliesSamples, Samples, Latest;
    LogSnoc(log, n);
    SameSamples(t, out, Samples(log[..n]), kmax);
    forall p: nat
      ensures Latest(log[..n + 1], p) == if p in out.last then Some(out.last[p]) else None
    {
      assert Latest(log[..n], p) == if p in t.last then Some(t.last[p]) else None;
    }
  }

  lemma SameSamples(t: Tally, out: Tally, ss: seq<Sample>, kmax: nat)
    requires TalliesSamples(t, ss, kmax) && out == t.(last := out.last)
    ensures TalliesSamples(out, ss, kmax)
  {
    hide Tabulates;
  }

  lemma TalliesLine(t: Tally, out: Tally, log: seq<Line>, n: nat, kmax: nat)
    requires n < |log| && log[n].Target? && Tallies(t, log[..n], kmax) && out.last == t.last
    requires TalliesSamples(out, Samples(log[..n]) + SamplesFrom(log[..n], log[n], 0, true), kmax)
    ensures Tallies(out, log[..n + 1], kmax)
  {
    hide Tabulates, Samples, SamplesFrom, Latest;
    LogSnoc(log, n);
    assert Samples(log[..n + 1]) == Samples(log[..n]) + SamplesFrom(log[..n], log[n], 0, true);
    assert TalliesSamples(out, Samples(log[..n + 1]), kmax);
    assert forall p: nat :: Latest(log[..n + 1], p) == if p in out.last then Some(out.last[p]) else None;
  }

  lemma NeverRaises(earlier: seq<Line>, line: Line)
    requires !line.Target?
    ensures !Raises(earlier, line)
  {
  }

  lemma LogSnoc(log: seq<Line>, n: nat)
    requires n < |log|
    ensures var front, l := log[..n], log[n];
      && Samples(log[..n + 1]) == Samples(front) + (if l.Target? then SamplesFrom(front, l, 0, true) else [])
      && (!l.Target? ==> Samples(log[..n + 1]) == Samples(front))
      && forall p: nat :: Latest(log[..n + 1], p) == if l.Topk? && l.pos == p then Some(l.ids) else Latest(front, p)
  {
    var all, front, l := log[..n + 1], log[..n], log[n];
    assert all[..|all| - 1] == front && all[|all| - 1] == l;
    forall p: nat
      ensures Latest(all, p) == if l.Topk? && l.pos == p then Some(l.ids) else Latest(front, p)
    {
    }
  }

  lemma NothingTallied(t: Tally, kmax: nat)
    requires t == Tally(map[], map[], map[], 0, 0, 0)
    ensures Tallies(t, [], kmax)
  {
  }

  // ------------------------------------------------------------ laws of the counts

  /** Top-r hits grow with r, and hits and misses never exceed the samples. */
  lemma {:induction false} HitsMonotone(ss: seq<Sample>, d: nat, spineOnly: bool, r: nat, q: nat)
    requires r <= q
    ensures Count(ss, d, spineOnly, Hit(r)) <= Count(ss, d, spineOnly, Hit(q))
    ensures Count(ss, d, spineOnly, Hit(q)) + Count(ss, d, spineOnly, Missed) <= Count(ss, d, spineOnly, All)
  {
    if ss != [] { HitsMonotone(ss[..|ss| - 1], d, spineOnly, r, q); }
  }

  /** Every conditional count is at most the unconditional one. */
  lemma {:induction false} ConditionalWithin(ss: seq<Sample>, d: nat, w: Which)
    ensures Count(ss, d, true, w) <= Count(ss, d, false, w)
  {
    if ss != [] { ConditionalWithin(ss[..|ss| - 1], d, w); }
  }

  lemma {:induction false} CountAppend(a: seq<Sample>, b: seq<Sample>, d: nat, spineOnly: bool, w: Which)
    ensures Count(a + b, d, spineOnly, w) == Count(a, d, spineOnly, w) + Count(b, d, spineOnly, w)
    decreases |b|
  {
    if b == [] {
      assert a + b == a;
    } else {
      CountAppend(a, b[..|b| - 1], d, spineOnly, w);
      assert (a + b)[..|a + b| - 1] == a + b[..|b| - 1];
    }
  }

  lemma CountOne(s: Sample, d: nat, spineOnly: bool, w: Which)
    ensures Count([s], d, spineOnly, w) == if Counts(s, d, spineOnly, w) then 1 else 0
  {
    CountSnoc([], s, d, spineOnly, w);
    assert [] + [s] == [s];
  }

  /** Within one target line: at most one sample per depth, none above the start, and none once the spine broke. */
  lemma {:induction false} LineCounts(earlier: seq<Line>, t: Line, i: nat, spine: bool, d: nat)
    requires t.Target? && i <= |t.drafts|
    ensures var n := Count(SamplesFrom(earlier, t, i, spine), d, true, All); n <= (if spine && d > i then 1 else 0)
    decreases |t.drafts| - i
  {
    if i < |t.drafts| && i < |t.v| && Latest(earlier, t.base + i).Some? {
      var s := SampleAt(Latest(earlier, t.base + i).value, t, i, spine);
      var next := spine && t.drafts[i] == t.v[i];
      LineCounts(earlier, t, i + 1, next, d);
      CountAppend([s], SamplesFrom(earlier, t, i + 1, next), d, true, All);
      CountOne(s, d, true, All);
    }
  }

  /** A deeper spine sample needs one at the depth before; where the top-1 is the draft, it needs a top-1 hit. */
  lemma {:induction false} LineDepths(earlier: seq<Line>, t: Line, i: nat, spine: bool, d: nat)
    requires t.Target? && i <= |t.drafts| && d > i
    ensures var ss := SamplesFrom(earlier, t, i, spine);
      && Count(ss, d + 1, true, All) <= Count(ss, d, true, All)
      && ((forall k :: 0 <= k < |ss| ==> !ss[k].mismatch && !ss[k].noIds)
           ==> Count(ss, d + 1, true, All) <= Count(ss, d, true, Hit(0)))
    decreases |t.drafts| - i
  {
    hide Count, Latest;
    if i < |t.drafts| && i < |t.v| && Latest(earlier, t.base + i).Some? {
      var ids := Latest(earlier, t.base + i).value;
      var s := SampleAt(ids, t, i, spine);
      var next := spine && t.drafts[i] == t.v[i];
      var rest := SamplesFrom(earlier, t, i + 1, next);
      var ss := [s] + rest;
      forall e, w
        ensures Count(ss, e, true, w) == Count(rest, e, true, w) + if Counts(s, e, true, w) then 1 else 0
      {
        CountAppend([s], rest, e, true, w);
        CountOne(s, e, true, w);
      }
      if d == i + 1 {
        LineCounts(earlier, t, i + 1, next, d + 1);
        assert ss[0] == s;
      } else {
        LineDepths(earlier, t, i + 1, next, d);
        assert forall k :: 0 <= k < |rest| ==> rest[k] == ss[k + 1];
      }
    } else {
      NoSamples(d);
    }
  }

  lemma NoSamples(d: nat)
    ensures Count([], d, true, All) == Count([], d + 1, true, All) == Count([], d, true, Hit(0)) == 0
  {
  }

  /** Over every log: conditional counts never grow with depth. */
  lemma {:induction false} DepthsShrink(log: seq<Line>, d: nat)
    requires d > 0
    ensures Count(Samples(log), d + 1, true, All) <= Count(Samples(log), d, true, All)
    ensures (forall k :: 0 <= k < |Samples(log)| ==> !Samples(log)[k].mismatch && !Samples(log)[k].noIds)
        ==> Count(Samples(log), d + 1, true, All) <= Count(Samples(log), d, true, Hit(0))
  {
    hide Count;
    if log == [] {
      NoSamples(d);
    } else {
      var front, l := log[..|log| - 1], log[|log| - 1];
      DepthsShrink(front, d);
      var own := if l.Target? then SamplesFrom(front, l, 0, true) else [];
      if l.Target? { LineDepths(front, l, 0, true, d); } else { NoSamples(d); }
      CountAppend(Samples(front), own, d + 1, true, All);
      CountAppend(Samples(front), own, d, true, All);
      CountAppend(Samples(front), own, d, true, Hit(0));
      assert Samples(log) == Samples(front) + own;
      assert forall k :: 0 <= k < |own| ==> Samples(log)[|Samples(front)| + k] == own[k];
      assert forall k :: 0 <= k < |Samples(front)| ==> Samples(log)[k] == Samples(front)[k];
    }
  }

  lemma {:induction false} NoMismatch(ss: seq<Sample>, k: nat)
    requires Mismatches(ss) == 0 && k < |ss|
    ensures !ss[k].mismatch
  {
    if k < |ss| - 1 { NoMismatch(ss[..|ss| - 1], k); }
  }
}
