// Which benchmark entry a line of a threshold file documents, and which operator a claim uses.
module LineOwner {
  import opened Text
  import opened Lines

  datatype KeyKind = MinKey | MaxKey | NoiseKey

  datatype Kind = Entry | Metric(name: string) | Table | Key(key: KeyKind, value: real) | Comment(text: string)
      | Blank | Other

  predicate IsNameChar(c: char) { 'A' <= c <= 'Z' || 'a' <= c <= 'z' || '0' <= c <= '9' || c == '_' }

  const METRIC: string := "[benchmarks.metrics."

  /** \[benchmarks\.metrics\.([A-Za-z0-9_]+)\] as a full match. */
  function MetricName(line: string): Option<string>
  {
    if METRIC <= line && |line| > |METRIC| + 1 && line[|line| - 1] == ']'
       && forall k :: |METRIC| <= k < |line| - 1 ==> IsNameChar(line[k])
    then Some(line[|METRIC|..|line| - 1]) else None
  }

  /** key\s*=\s*NUM as a full match; number recognises NUM. */
  function KeyValue(number: string -> Option<real>, line: string, key: string): Option<real>
  {
    if !(key <= line) then None
    else
      var rest := StripLeft(line[|key|..], IsSpace);
      if "=" <= rest then number(StripLeft(rest[1..], IsSpace)) else None
  }

  function KeyLine(number: string -> Option<real>, line: string): Option<(KeyKind, real)>
  {
    if KeyValue(number, line, "min").Some? then Some((MinKey, KeyValue(number, line, "min").value))
    else if KeyValue(number, line, "max").Some? then Some((MaxKey, KeyValue(number, line, "max").value))
    else if KeyValue(number, line, "noise").Some? then Some((NoiseKey, KeyValue(number, line, "noise").value))
    else None
  }

  function KindOf(number: string -> Option<real>, raw: string): Kind
  {
    var line := Strip(raw);
    if line == "[[benchmarks]]" then Entry
    else if MetricName(line).Some? then Metric(MetricName(line).value)
    else if "[" <= line then Table
    else if KeyLine(number, line).Some? then Key(KeyLine(number, line).value.0, KeyLine(number, line).value.1)
    else if "#" <= line then Comment(Strip(StripLeft(line, c => c == '#')))
    else if line == "" then Blank
    else Other
  }

  predicate IsFiller(k: Kind) { k.Comment? || k.Blank? }

  // ------------------------------------------------------------------ parsing

  datatype Bound = Bound(name: string, line: nat, entry: int, min: Option<real>, max: Option<real>, noise: Option<real>,
                         comment: seq<(nat, string)>)

  /** The parser's variables; when inTable, the last bound is the current one. */
  datatype Parser = Parser(bounds: seq<Bound>, inTable: bool, pending: seq<(nat, string)>, seenKey: bool, entry: int)

  const START: Parser := Parser([], false, [], false, -1)

  function SetKey(b: Bound, key: KeyKind, v: real): Bound
  {
    match key
    case MinKey => b.(min := Some(v))
    case MaxKey => b.(max := Some(v))
    case NoiseKey => b.(noise := Some(v))
  }

  /** One line, numbered from 1. */
  function ParseStep(p: Parser, k: Kind, number: nat): Parser
    requires p.inTable ==> p.bounds != []
  {
    match k
    case Entry => p.(entry := p.entry + 1, inTable := false)
    case Metric(name) =>
      p.(bounds := p.bounds + [Bound(name, number, p.entry, None, None, None, [])], inTable := true, pending := [],
          seenKey := false)
    case Table => p.(inTable := false)
    case Key(key, v) =>
      if !p.inTable then p
      else
        var b := SetKey(p.bounds[|p.bounds| - 1], key, v);
        var c := if p.seenKey then b else b.(comment := p.pending);
        p.(bounds := p.bounds[|p.bounds| - 1 := c], seenKey := true, pending := [])
    case Comment(text) => if p.inTable && !p.seenKey then p.(pending := p.pending + [(number, text)]) else p
    case Blank => p
    case Other => p.(inTable := false)
  }

  function Parsed(kinds: seq<Kind>): (p: Parser)
    ensures p.inTable ==> p.bounds != []
  {
    if kinds == [] then START else ParseStep(Parsed(kinds[..|kinds| - 1]), kinds[|kinds| - 1], |kinds|)
  }

  function Kinds(number: string -> Option<real>, lines: seq<string>): (ks: seq<Kind>)
    ensures |ks| == |lines|
  {
    seq(|lines|, i requires 0 <= i < |lines| => KindOf(number, lines[i]))
  }

  method Parse(number: string -> Option<real>, lines: seq<string>) returns (bounds: seq<Bound>)
    ensures bounds == Parsed(Kinds(number, lines)).bounds
  {
    hide KindOf;
    bounds := [];
    var inTable, seenKey, entry := false, false, -1;
    var pending: seq<(nat, string)> := [];
    ghost var kinds := Kinds(number, lines);
    for i := 0 to |lines|
      invariant Parsed(kinds[..i]) == Parser(bounds, inTable, pending, seenKey, entry)
    {
      assert kinds[..i + 1][..i] == kinds[..i];
      match KindOf(number, lines[i])
      case Entry =>
        entry := entry + 1;
        inTable := false;
      case Metric(name) =>
        bounds := bounds + [Bound(name, i + 1, entry, None, None, None, [])];
        inTable, pending, seenKey := true, [], false;
      case Table => inTable := false;
      case Key(key, v) =>
        if inTable {
          var last := |bounds| - 1;
          bounds := bounds[last := SetKey(bounds[last], key, v)];
          if !seenKey {
            bounds := bounds[last := bounds[last].(comment := pending)];
            seenKey := true;
          }
          pending := [];
        }
      case Comment(text) => if inTable && !seenKey { pending := pending + [(i + 1, text)]; }
      case Blank =>
      case Other => inTable := false;
    }
    assert kinds[..|kinds|] == kinds;
  }

  // ------------------------------------------------------------------ ownership

  function EntriesIn(kinds: seq<Kind>): nat
  {
    if kinds == [] then 0 else EntriesIn(kinds[..|kinds| - 1]) + if kinds[|kinds| - 1].Entry? then 1 else 0
  }

  /** The entry a line stands in: -1 before the first header. */
  function Enclosing(kinds: seq<Kind>, i: nat): int
    requires i < |kinds|
  {
    EntriesIn(kinds[..i + 1]) - 1
  }

  /** The entry header that only comments and blanks separate from line i (or line i itself). */
  function NextHeader(kinds: seq<Kind>, i: nat): (j: Option<nat>)
    requires i <= |kinds|
    ensures j.Some? ==> i <= j.value < |kinds| && kinds[j.value].Entry?
    decreases |kinds| - i
  {
    if i == |kinds| then None
    else if kinds[i].Entry? then Some(i)
    else if IsFiller(kinds[i]) then NextHeader(kinds, i + 1)
    else None
  }

  function Owner(kinds: seq<Kind>, i: nat): int
    requires i < |kinds|
  {
    var j := NextHeader(kinds, i);
    if j.Some? then Enclosing(kinds, j.value) else Enclosing(kinds, i)
  }

  method OwningEntry(number: string -> Option<real>, lines: seq<string>) returns (owner: seq<int>)
    ensures |owner| == |lines| && forall i :: 0 <= i < |lines| ==> owner[i] == Owner(Kinds(number, lines), i)
  {
    hide KindOf, Owner, Enclosing;
    var kinds := Kinds(number, lines);
    var o := new int[|lines|](_ => -1);
    FillEnclosing(kinds, o);
    ClaimPreambles(kinds, o);
    owner := o[..];
  }

  method FillEnclosing(kinds: seq<Kind>, o: array<int>)
    requires o.Length == |kinds|
    modifies o
    ensures forall k :: 0 <= k < |kinds| ==> o[k] == Enclosing(kinds, k)
  {
    var cur := -1;
    for i := 0 to |kinds|
      invariant cur == EntriesIn(kinds[..i]) - 1
      invariant forall k :: 0 <= k < i ==> o[k] == Enclosing(kinds, k)
    {
      assert kinds[..i + 1][..i] == kinds[..i];
      if kinds[i].Entry? { cur := cur + 1; }
      o[i] := cur;
    }
  }

  /** The backward walk: a run of comments and blanks that ends at a header is handed to it. */
  method ClaimPreambles(kinds: seq<Kind>, o: array<int>)
    requires o.Length == |kinds| && forall k :: 0 <= k < |kinds| ==> o[k] == Enclosing(kinds, k)
    modifies o
    ensures forall k :: 0 <= k < |kinds| ==> o[k] == Owner(kinds, k)
  {
    hide Enclosing;
    var nxt: Option<int> := None;
    for i := |kinds| downto 0
      invariant forall k :: 0 <= k < i ==> o[k] == Enclosing(kinds, k)
      invariant forall k :: i <= k < |kinds| ==> o[k] == Owner(kinds, k)
      invariant nxt == var j := NextHeader(kinds, i); if j.Some? then Some(Enclosing(kinds, j.value)) else None
    {
      if kinds[i].Entry? {
        nxt := Some(o[i]);
      } else if IsFiller(kinds[i]) {
        if nxt.Some? { o[i] := nxt.value; }
      } else {
        nxt := None;
      }
    }
  }

  /** Line i lies in the run of comments and blanks right before the header at j, or is that header. */
  ghost predicate Preamble(kinds: seq<Kind>, i: nat, j: nat)
  {
    i <= j < |kinds| && kinds[j].Entry? && forall k :: i <= k < j ==> IsFiller(kinds[k])
  }

  lemma {:induction false} NextHeaderIff(kinds: seq<Kind>, i: nat, j: nat)
    requires i <= |kinds|
    ensures NextHeader(kinds, i) == Some(j) <==> Preamble(kinds, i, j)
    decreases |kinds| - i
  {
    if i < |kinds| && !kinds[i].Entry? {
      NextHeaderIff(kinds, i + 1, j);
      if Preamble(kinds, i, j) { assert i < j && IsFiller(kinds[i]); }
    }
  }

  /** Each line documents the next entry exactly when it is preamble to it, and its enclosing entry otherwise. */
  lemma OwnerIff(kinds: seq<Kind>, i: nat)
    requires i < |kinds|
    ensures forall j :: Preamble(kinds, i, j) ==> Owner(kinds, i) == Enclosing(kinds, j)
    ensures (forall j: nat :: !Preamble(kinds, i, j)) ==> Owner(kinds, i) == Enclosing(kinds, i)
  {
    hide Preamble, NextHeader;
    forall j: nat
      ensures Preamble(kinds, i, j) <==> NextHeader(kinds, i) == Some(j)
    {
      NextHeaderIff(kinds, i, j);
    }
  }

  /** A preamble that is not the header itself goes to the entry after the enclosing one. */
  lemma PreambleIsNextEntry(kinds: seq<Kind>, i: nat, j: nat)
    requires Preamble(kinds, i, j) && i < j
    ensures Enclosing(kinds, j) == Enclosing(kinds, i) + 1
    decreases j
  {
    assert kinds[..j + 1][..j] == kinds[..j];
    NoEntriesBetween(kinds, i, j - 1);
  }

  lemma {:induction false} NoEntriesBetween(kinds: seq<Kind>, i: nat, j: nat)
    requires i <= j < |kinds| && forall k :: i < k <= j ==> !kinds[k].Entry?
    ensures Enclosing(kinds, i) == Enclosing(kinds, j)
    decreases j
  {
    if i < j {
      NoEntriesBetween(kinds, i, j - 1);
      assert kinds[..j + 1][..j] == kinds[..j];
    }
  }

  // ------------------------------------------------------ parser and owner agree

  ghost predicate BoundsMatch(kinds: seq<Kind>, bounds: seq<Bound>)
  {
    && (forall b :: 0 <= b < |bounds| ==> Placed(kinds, bounds[b]))
    && (forall a, b :: 0 <= a < b < |bounds| ==> bounds[a].line < bounds[b].line)
    && (forall i :: 0 <= i < |kinds| && kinds[i].Metric? ==> HasLine(bounds, i + 1))
  }

  /** The bound's line is its metric header, and its entry the one that line stands in. */
  ghost predicate Placed(kinds: seq<Kind>, b: Bound)
  {
    && 1 <= b.line <= |kinds| && kinds[b.line - 1] == Metric(b.name) && b.entry == Enclosing(kinds, b.line - 1)
  }

  ghost predicate HasLine(bounds: seq<Bound>, line: nat)
  {
    exists b :: 0 <= b < |bounds| && bounds[b].line == line
  }

  lemma EnclosingPrefix(kinds: seq<Kind>, n: nat, i: nat)
    requires i < n <= |kinds|
    ensures Enclosing(kinds[..n], i) == Enclosing(kinds, i)
  {
    assert kinds[..n][..i + 1] == kinds[..i + 1];
  }

  /** A line that is no metric header changes no bound's name, line or entry. */
  ghost predicate SameBounds(a: seq<Bound>, b: seq<Bound>)
  {
    |a| == |b|
    && forall k :: 0 <= k < |a| ==> a[k].name == b[k].name && a[k].line == b[k].line && a[k].entry == b[k].entry
  }

  lemma StepBounds(p: Parser, k: Kind, number: nat)
    requires p.inTable ==> p.bounds != []
    ensures var q := ParseStep(p, k, number);
      && q.entry == p.entry + (if k.Entry? then 1 else 0)
      && (!k.Metric? ==> SameBounds(p.bounds, q.bounds))
      && (k.Metric? ==> exists b: Bound ::
            q.bounds == p.bounds + [b] && b.name == k.name && b.line == number && b.entry == p.entry)
  {
  }

  lemma PlacedStays(front: seq<Kind>, k: Kind, b: Bound)
    requires Placed(front, b)
    ensures Placed(front + [k], b)
  {
    var kinds := front + [k];
    assert kinds[..|front|] == front;
    EnclosingPrefix(kinds, |front|, b.line - 1);
  }

  lemma BoundsKept(front: seq<Kind>, k: Kind, old': seq<Bound>, new': seq<Bound>)
    requires BoundsMatch(front, old') && SameBounds(old', new') && !k.Metric?
    ensures BoundsMatch(front + [k], new')
  {
    var kinds := front + [k];
    forall b | 0 <= b < |new'|
      ensures Placed(kinds, new'[b])
    {
      PlacedStays(front, k, old'[b]);
    }
    forall i | 0 <= i < |kinds| && kinds[i].Metric?
      ensures HasLine(new', i + 1)
    {
      assert front[i].Metric? && HasLine(old', i + 1);
    }
  }

  lemma BoundAdded(front: seq<Kind>, k: Kind, bounds: seq<Bound>, b: Bound)
    requires BoundsMatch(front, bounds) && k == Metric(b.name) && b.line == |front| + 1
             && b.entry == EntriesIn(front) - 1
    ensures BoundsMatch(front + [k], bounds + [b])
  {
    hide EntriesIn, Placed, HasLine;
    var kinds, all := front + [k], bounds + [b];
    NewLinePlaced(front, k, b);
    forall c | 0 <= c < |all|
      ensures Placed(kinds, all[c])
      ensures c < |bounds| ==> all[c].line <= |front|
    {
      if c < |bounds| {
        PlacedStays(front, k, bounds[c]);
        PlacedLine(front, bounds[c]);
      }
    }
    forall i | 0 <= i < |kinds| && kinds[i].Metric?
      ensures HasLine(all, i + 1)
    {
      HasLineGrows(bounds, b, i + 1);
      if i < |front| { assert front[i].Metric?; }
    }
  }

  lemma PlacedLine(kinds: seq<Kind>, b: Bound)
    requires Placed(kinds, b)
    ensures b.line <= |kinds|
  {
  }

  lemma HasLineGrows(bounds: seq<Bound>, b: Bound, line: nat)
    requires HasLine(bounds, line) || b.line == line
    ensures HasLine(bounds + [b], line)
  {
    var all := bounds + [b];
    if b.line == line {
      assert all[|bounds|].line == line;
    } else {
      var c :| 0 <= c < |bounds| && bounds[c].line == line;
      assert all[c].line == line;
    }
  }

  lemma NewLinePlaced(front: seq<Kind>, k: Kind, b: Bound)
    requires k == Metric(b.name) && b.line == |front| + 1 && b.entry == EntriesIn(front) - 1
    ensures Placed(front + [k], b)
  {
    NewLineEnclosing(front, k);
  }

  lemma NewLineEnclosing(front: seq<Kind>, k: Kind)
    requires !k.Entry?
    ensures Enclosing(front + [k], |front|) == EntriesIn(front) - 1
  {
    var kinds := front + [k];
    assert kinds[..|front| + 1] == kinds && kinds[..|front|] == front;
  }

  lemma {:induction false} ParsedBounds(kinds: seq<Kind>)
    ensures Parsed(kinds).entry == EntriesIn(kinds) - 1 && BoundsMatch(kinds, Parsed(kinds).bounds)
  {
    hide BoundsMatch, ParseStep;
    if kinds == [] {
      NoBounds();
    } else {
      var n := |kinds| - 1;
      var front, k := kinds[..n], kinds[n];
      assert kinds == front + [k];
      ParsedBounds(front);
      StepBounds(Parsed(front), k, |kinds|);
      var old', new' := Parsed(front).bounds, Parsed(kinds).bounds;
      if k.Metric? {
        var b: Bound :| new' == old' + [b] && b.name == k.name && b.line == |kinds| && b.entry == Parsed(front).entry;
        BoundAdded(front, k, old', b);
      } else {
        BoundsKept(front, k, old', new');
      }
    }
  }

  lemma NoBounds()
    ensures BoundsMatch([], [])
  {
  }

  /** Every metric header gives one bound, in order, and its entry number is what its line's owner is. */
  lemma OwnerAgreesWithParser(kinds: seq<Kind>)
    ensures BoundsMatch(kinds, Parsed(kinds).bounds)
    ensures forall b :: 0 <= b < |Parsed(kinds).bounds| ==>
      Owner(kinds, Parsed(kinds).bounds[b].line - 1) == Parsed(kinds).bounds[b].entry
  {
    hide Parsed, Enclosing, HasLine;
    ParsedBounds(kinds);
    var bounds := Parsed(kinds).bounds;
    forall b | 0 <= b < |bounds|
      ensures Owner(kinds, bounds[b].line - 1) == bounds[b].entry
    {
      var i := bounds[b].line - 1;
      assert Placed(kinds, bounds[b]);
      assert kinds[i].Metric? && NextHeader(kinds, i) == None;
    }
  }

  // ------------------------------------------------------- names within an entry

  /** The last bound of a name in an entry. */
  function LastBound(bounds: seq<Bound>, entry: int, name: string): Option<Bound>
  {
    if bounds == [] then None
    else
      var b := bounds[|bounds| - 1];
      if b.entry == entry && b.name == name then Some(b) else LastBound(bounds[..|bounds| - 1], entry, name)
  }

  function Lookup(m: map<int, map<string, Bound>>, entry: int, name: string): Option<Bound>
  {
    if entry in m && name in m[entry] then Some(m[entry][name]) else None
  }

  method PerEntry(bounds: seq<Bound>) returns (m: map<int, map<string, Bound>>)
    ensures forall entry, name :: Lookup(m, entry, name) == LastBound(bounds, entry, name)
  {
    m := map[];
    for n := 0 to |bounds|
      invariant forall entry, name :: Lookup(m, entry, name) == LastBound(bounds[..n], entry, name)
    {
      assert bounds[..n + 1][..n] == bounds[..n];
      var b := bounds[n];
      ghost var before := m;
      var names := if b.entry in m then m[b.entry] else map[];
      m := m[b.entry := names[b.name := b]];
      forall entry, name
        ensures Lookup(m, entry, name) == LastBound(bounds[..n + 1], entry, name)
      {
        assert Lookup(before, entry, name) == LastBound(bounds[..n], entry, name);
      }
    }
    assert bounds[..|bounds|] == bounds;
  }

  // ---------------------------------------------------------------- operators

  const OPS: seq<string> := [
    "is pinned at exactly", "is pinned to exactly", "is PINNED at exactly", "is PINNED to exactly",
    "is pinned at", "is PINNED at", "must be", ">=", "\U{2265}", "<=", "\U{2264}", "==", "="]

  /** The first operator in list order that the text starts with. */
  function FirstOp(text: string, from: nat): (k: Option<nat>)
    requires from <= |OPS|
    ensures k.Some? ==> from <= k.value < |OPS| && OPS[k.value] <= text
    ensures forall j :: from <= j < (if k.Some? then k.value else |OPS|) ==> !(OPS[j] <= text)
    decreases |OPS| - from
  {
    if from == |OPS| then None else if OPS[from] <= text then Some(from) else FirstOp(text, from + 1)
  }

  /** Longest first: of all operators a text starts with, the first in the list is the longest. */
  lemma FirstOpIsLongest(text: string, k: nat, j: nat)
    requires FirstOp(text, 0) == Some(k) && j < |OPS| && OPS[j] <= text
    ensures |OPS[j]| <= |OPS[k]|
  {
    assert k <= j;
    if j >= 7 {
      ShortOps(text, k, j);
    }
  }

  lemma ShortOps(text: string, k: nat, j: nat)
    requires k <= j < |OPS| && j >= 7 && OPS[k] <= text && OPS[j] <= text
    ensures |OPS[j]| <= |OPS[k]|
  {
    assert text[0] == OPS[k][0] == OPS[j][0];
  }
}
