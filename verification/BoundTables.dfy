// What each metric table of a threshold file says: its values and the comments attached to it, by line ranges.
module BoundTables {
  import opened Text
  import opened LineOwner

  /** Lines that do not end a table. */
  predicate Inside(k: Kind) { k.Key? || IsFiller(k) }

  /** No line from i on ends a table that is open before it. */
  predicate Open(kinds: seq<Kind>, i: nat) { forall j :: i <= j < |kinds| ==> Inside(kinds[j]) }

  /** The first key after i, if it comes before the table ends. */
  function FirstKey(kinds: seq<Kind>, i: nat): (j: Option<nat>)
    requires i <= |kinds|
    ensures j.Some? ==> i <= j.value < |kinds| && kinds[j.value].Key?
                        && forall k :: i <= k < j.value ==> IsFiller(kinds[k])
    ensures j.None? && Open(kinds, i) ==> forall k :: i <= k < |kinds| ==> IsFiller(kinds[k])
    decreases |kinds| - i
  {
    if i == |kinds| then None
    else if kinds[i].Key? then Some(i)
    else if IsFiller(kinds[i]) then FirstKey(kinds, i + 1)
    else None
  }

  /** The last value that the table going on at line i gives a key. */
  function ValueIn(kinds: seq<Kind>, i: nat, key: KeyKind): Option<real>
    requires i <= |kinds|
    decreases |kinds| - i
  {
    if i == |kinds| || !Inside(kinds[i]) then None
    else if ValueIn(kinds, i + 1, key).Some? then ValueIn(kinds, i + 1, key)
    else if kinds[i].Key? && kinds[i].key == key then Some(kinds[i].value) else None
  }

  /** The comments of lines lo to hi, with their line numbers from 1. */
  function CommentsIn(kinds: seq<Kind>, lo: nat, hi: nat): seq<(nat, string)>
    requires lo <= hi <= |kinds|
    decreases hi
  {
    if lo == hi then []
    else
      CommentsIn(kinds, lo, hi - 1) + if kinds[hi - 1].Comment? then [(hi, kinds[hi - 1].text)] else []
  }

  /**
   * The bound of the metric header on line i (from 0): the last value of each key before the table ends, and
   * the comments between the header and its first key. Without a key nothing is attached.
   */
  function BoundAt(kinds: seq<Kind>, i: nat): Bound
    requires i < |kinds| && kinds[i].Metric?
  {
    var first := FirstKey(kinds, i + 1);
    Bound(kinds[i].name, i + 1, Enclosing(kinds, i),
          ValueIn(kinds, i + 1, MinKey), ValueIn(kinds, i + 1, MaxKey), ValueIn(kinds, i + 1, NoiseKey),
          if first.Some? then CommentsIn(kinds, i + 1, first.value) else [])
  }

  // ------------------------------------------------------------ one more line

  lemma {:induction false} FirstKeySnoc(front: seq<Kind>, k: Kind, i: nat)
    requires i <= |front|
    ensures FirstKey(front + [k], i)
         == if FirstKey(front, i).Some? then FirstKey(front, i)
            else if Open(front, i) && k.Key? then Some(|front|) else None
    decreases |front| - i
  {
    var kinds := front + [k];
    if i < |front| {
      assert kinds[i] == front[i];
      if IsFiller(front[i]) {
        FirstKeySnoc(front, k, i + 1);
        assert Open(front, i) <==> Open(front, i + 1);
      }
    } else {
      assert kinds[i] == k && Open(front, i);
      assert FirstKey(kinds, i + 1) == None;
    }
  }

  lemma {:induction false} ValueSnoc(front: seq<Kind>, k: Kind, i: nat, key: KeyKind)
    requires i <= |front|
    ensures ValueIn(front + [k], i, key)
         == if Open(front, i) && k.Key? && k.key == key then Some(k.value) else ValueIn(front, i, key)
    decreases |front| - i
  {
    var kinds := front + [k];
    if i < |front| {
      assert kinds[i] == front[i];
      if Inside(front[i]) {
        ValueSnoc(front, k, i + 1, key);
        assert Open(front, i) <==> Open(front, i + 1);
      }
    } else {
      assert kinds[i] == k && Open(front, i);
      assert ValueIn(kinds, i + 1, key) == None;
    }
  }

  lemma {:induction false} CommentsSnoc(front: seq<Kind>, k: Kind, lo: nat, hi: nat)
    requires lo <= hi <= |front|
    ensures CommentsIn(front + [k], lo, hi) == CommentsIn(front, lo, hi)
    decreases hi
  {
    if lo < hi {
      CommentsSnoc(front, k, lo, hi - 1);
      assert (front + [k])[hi - 1] == front[hi - 1];
    }
  }

  /** What one more line does to the bound of an earlier header. */
  function Extended(front: seq<Kind>, k: Kind, i: nat): Bound
    requires i < |front| && front[i].Metric?
  {
    var b := BoundAt(front, i);
    if !Open(front, i + 1) || !k.Key? then b
    else
      var c := SetKey(b, k.key, k.value);
      if FirstKey(front, i + 1).Some? then c else c.(comment := CommentsIn(front, i + 1, |front|))
  }

  lemma BoundSnoc(front: seq<Kind>, k: Kind, i: nat)
    requires i < |front| && front[i].Metric?
    ensures BoundAt(front + [k], i) == Extended(front, k, i)
  {
    hide Open, FirstKey, ValueIn, CommentsIn, Enclosing;
    var kinds := front + [k];
    assert kinds[i] == front[i] && kinds[..|front|] == front;
    EnclosingPrefix(kinds, |front|, i);
    FirstKeySnoc(front, k, i + 1);
    ValueSnoc(front, k, i + 1, MinKey);
    ValueSnoc(front, k, i + 1, MaxKey);
    ValueSnoc(front, k, i + 1, NoiseKey);
    var first := FirstKey(kinds, i + 1);
    if first.Some? { CommentsSnoc(front, k, i + 1, first.value); }
  }

  // --------------------------------------------------------------- the parser

  /** The parser's variables say where the last table stands. */
  ghost predicate Follows(kinds: seq<Kind>, p: Parser)
  {
    && BoundsMatch(kinds, p.bounds)
    && (forall b :: 0 <= b < |p.bounds| ==> p.bounds[b].line >= 1 && IsBoundAt(kinds, p.bounds[b]))
    && (p.bounds == [] ==> !p.inTable)
    && (p.bounds != [] ==> LastTable(kinds, p, p.bounds[|p.bounds| - 1].line))
  }

  ghost predicate IsBoundAt(kinds: seq<Kind>, b: Bound)
  {
    1 <= b.line <= |kinds| && kinds[b.line - 1].Metric? && b == BoundAt(kinds, b.line - 1)
  }

  /** i is the line after the last header. */
  ghost predicate LastTable(kinds: seq<Kind>, p: Parser, i: nat)
  {
    && i <= |kinds| && (p.inTable <==> Open(kinds, i))
    && (p.inTable ==>
          && (p.seenKey <==> FirstKey(kinds, i).Some?)
          && (!p.seenKey ==> p.pending == CommentsIn(kinds, i, |kinds|)))
  }

  lemma OpenSnoc(front: seq<Kind>, k: Kind, i: nat)
    requires i <= |front|
    ensures Open(front + [k], i) <==> Open(front, i) && Inside(k)
  {
    assert (front + [k])[|front|] == k && forall j :: 0 <= j < |front| ==> (front + [k])[j] == front[j];
  }

  /** A header ends every table before it. */
  lemma HeaderCloses(kinds: seq<Kind>, i: nat, j: nat)
    requires i <= j < |kinds| && kinds[j].Metric?
    ensures !Open(kinds, i)
  {
    assert !Inside(kinds[j]);
  }

  lemma LastTableStep(front: seq<Kind>, k: Kind, p: Parser, i: nat)
    requires p.bounds != [] && LastTable(front, p, i) && !k.Metric?
    ensures LastTable(front + [k], ParseStep(p, k, |front| + 1), i)
  {
    hide FirstKey, Open;
    OpenSnoc(front, k, i);
    FirstKeySnoc(front, k, i);
    CommentsSnoc(front, k, i, |front|);
    assert (front + [k])[|front|] == k;
  }

  lemma NewTable(front: seq<Kind>, k: Kind, p: Parser)
    requires k.Metric? && (p.inTable ==> p.bounds != [])
    ensures LastTable(front + [k], ParseStep(p, k, |front| + 1), |front| + 1)
  {
  }

  /** A line that is no header updates only the table it stands in. */
  lemma BoundsStep(front: seq<Kind>, k: Kind, p: Parser)
    requires Follows(front, p) && !k.Metric?
    ensures var q := ParseStep(p, k, |front| + 1);
            |q.bounds| == |p.bounds| && forall b :: 0 <= b < |q.bounds| ==> IsBoundAt(front + [k], q.bounds[b])
  {
    hide FirstKey, Open, Enclosing, BoundAt, ValueIn, CommentsIn, BoundsMatch;
    var q, kinds := ParseStep(p, k, |front| + 1), front + [k];
    forall b | 0 <= b < |q.bounds|
      ensures IsBoundAt(kinds, q.bounds[b])
    {
      var old', i := p.bounds[b], p.bounds[b].line - 1;
      assert IsBoundAt(front, old');
      BoundSnoc(front, k, i);
      assert kinds[i] == front[i] && BoundAt(kinds, i).line == i + 1 by { LineOf(kinds, i); }
      if b < |q.bounds| - 1 {
        EarlierClosed(front, p, b);
      } else {
        assert LastTable(front, p, i + 1);
      }
    }
  }

  lemma LineOf(kinds: seq<Kind>, i: nat)
    requires i < |kinds| && kinds[i].Metric?
    ensures BoundAt(kinds, i).line == i + 1
  {
  }

  lemma EarlierClosed(kinds: seq<Kind>, p: Parser, b: nat)
    requires Follows(kinds, p) && b < |p.bounds| - 1
    ensures !Open(kinds, p.bounds[b].line)
  {
    hide Open, BoundAt, FirstKey;
    var last := p.bounds[|p.bounds| - 1];
    assert IsBoundAt(kinds, last) && p.bounds[b].line < last.line;
    HeaderCloses(kinds, p.bounds[b].line, last.line - 1);
  }

  /** A header leaves the earlier bounds and adds one that says nothing yet. */
  lemma HeaderStep(front: seq<Kind>, k: Kind, p: Parser)
    requires Follows(front, p) && k.Metric? && p.entry == EntriesIn(front) - 1
    ensures var q := ParseStep(p, k, |front| + 1);
            forall b :: 0 <= b < |q.bounds| ==> IsBoundAt(front + [k], q.bounds[b])
  {
    hide FirstKey, Open, Enclosing, ValueIn, CommentsIn, BoundsMatch, LastTable, EntriesIn;
    var q, kinds := ParseStep(p, k, |front| + 1), front + [k];
    forall b | 0 <= b < |q.bounds|
      ensures IsBoundAt(kinds, q.bounds[b])
    {
      if b < |p.bounds| {
        assert IsBoundAt(front, p.bounds[b]);
        BoundSnoc(front, k, p.bounds[b].line - 1);
      } else {
        FreshBound(front, k);
      }
    }
  }

  lemma FreshBound(front: seq<Kind>, k: Kind)
    requires k.Metric?
    ensures BoundAt(front + [k], |front|) == Bound(k.name, |front| + 1, EntriesIn(front) - 1, None, None, None, [])
  {
    NewLineEnclosing(front, k);
  }

  lemma {:induction false} ParserFollows(kinds: seq<Kind>)
    ensures Follows(kinds, Parsed(kinds))
  {
    hide BoundsMatch, IsBoundAt, LastTable, ParseStep;
    ParsedBounds(kinds);
    if kinds != [] {
      var n := |kinds| - 1;
      var front, k := kinds[..n], kinds[n];
      assert kinds == front + [k];
      var p := Parsed(front);
      ParserFollows(front);
      ParsedBounds(front);
      if k.Metric? {
        HeaderStep(front, k, p);
        NewTable(front, k, p);
        LastIsNew(p, k, |kinds|);
      } else {
        BoundsStep(front, k, p);
        SameLines(p, k, |kinds|);
        if p.bounds != [] { LastTableStep(front, k, p, p.bounds[|p.bounds| - 1].line); }
      }
    }
    LinesPositive(kinds, Parsed(kinds).bounds);
  }

  lemma LastIsNew(p: Parser, k: Kind, number: nat)
    requires k.Metric? && (p.inTable ==> p.bounds != [])
    ensures var q := ParseStep(p, k, number); q.bounds != [] && q.bounds[|q.bounds| - 1].line == number
  {
  }

  lemma SameLines(p: Parser, k: Kind, number: nat)
    requires !k.Metric? && (p.inTable ==> p.bounds != [])
    ensures var q := ParseStep(p, k, number);
      && |q.bounds| == |p.bounds| && (forall b :: 0 <= b < |q.bounds| ==> q.bounds[b].line == p.bounds[b].line)
      && (p.bounds == [] ==> !q.inTable)
  {
  }

  lemma LinesPositive(kinds: seq<Kind>, bounds: seq<Bound>)
    requires BoundsMatch(kinds, bounds)
    ensures forall b :: 0 <= b < |bounds| ==> bounds[b].line >= 1
  {
    hide Enclosing;
    forall b | 0 <= b < |bounds|
      ensures bounds[b].line >= 1
    {
      assert Placed(kinds, bounds[b]);
    }
  }

  /** Every bound is what its table's lines say, and every metric header has one, in the order of the lines. */
  lemma BoundsAreTables(kinds: seq<Kind>)
    ensures BoundsMatch(kinds, Parsed(kinds).bounds)
    ensures forall b :: 0 <= b < |Parsed(kinds).bounds| ==> IsBoundAt(kinds, Parsed(kinds).bounds[b])
  {
    hide *;
    ParserFollows(kinds);
    FollowsFacts(kinds, Parsed(kinds));
  }

  lemma FollowsFacts(kinds: seq<Kind>, p: Parser)
    requires Follows(kinds, p)
    ensures BoundsMatch(kinds, p.bounds) && forall b :: 0 <= b < |p.bounds| ==> IsBoundAt(kinds, p.bounds[b])
  {
  }
}
