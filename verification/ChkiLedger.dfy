// What the table keeps over any sequence of merges: printing and parsing lose nothing, every PR has one
// row, and the owed hardware is exactly what the latest row of each PR left unchecked.
module ChkiLedger {
  import opened Text
  import opened Lines
  import opened ChkiTable

  // --------------------------------------------------------------- clean cells

  predicate GoodText(s: string) { OneLine(s) && NoBar(s) }

  /** Readable between backticks. */
  predicate Plain(h: string) { h != "" && '`' !in h }

  predicate GoodName(h: string) { GoodText(h) && Plain(h) }

  lemma GoodConcat(a: string, b: string)
    requires GoodText(a) && GoodText(b)
    ensures GoodText(a + b)
  {
  }

  lemma GoodParts(a: string, b: string)
    requires GoodText(a + b)
    ensures GoodText(a) && GoodText(b)
  {
    assert forall k :: 0 <= k < |a| ==> a[k] == (a + b)[k];
    assert forall k :: 0 <= k < |b| ==> b[k] == (a + b)[|a| + k];
  }

  lemma {:induction false} QuotedParts(names: seq<string>, k: nat)
    requires GoodText(Quoted(names)) && k < |names|
    ensures GoodText(names[k])
    decreases k
  {
    hide GoodText, Quoted;
    var rest := if names[1..] == [] then "" else ", " + Quoted(names[1..]);
    QuotedCons("", names);
    assert "" + Quoted(names) == Quoted(names) && "" + "`" + names[0] == "`" + names[0];
    GoodParts("`" + names[0] + "`", rest);
    if k == 0 {
      GoodParts("`" + names[0], "`");
      GoodParts("`", names[0]);
    } else {
      GoodParts(", ", Quoted(names[1..]));
      QuotedParts(names[1..], k - 1);
    }
  }

  lemma {:induction false} QuotedGood(names: seq<string>)
    requires names != [] && forall k :: 0 <= k < |names| ==> GoodText(names[k])
    ensures var q := Quoted(names); GoodText(q) && q != "" && q[0] == '`' && q[|q| - 1] == '`'
  {
    GoodConcat("`", names[0]);
    GoodConcat("`" + names[0], "`");
    if |names| > 1 {
      QuotedGood(names[1..]);
      GoodConcat(Quote(names[0]), ", ");
      GoodConcat(Quote(names[0]) + ", ", Quoted(names[1..]));
    }
  }

  lemma {:induction false} TickedPlain(s: string, h: string)
    requires h in Ticked(s)
    ensures Plain(h)
    decreases |s|, 0
  {
    hide TickAt, TickedAfter;
    TickedAfterPlain(s[TickAt(s) + 1..], h);
  }

  lemma {:induction false} TickedAfterPlain(s: string, h: string)
    requires h in TickedAfter(s)
    ensures Plain(h)
    decreases |s|, 1
  {
    hide TickAt, Ticked;
    var j := TickAt(s);
    if j == 0 { TickedPlain(s, h); } else if h != s[..j] { TickedPlain(s[j + 1..], h); }
  }

  lemma {:induction false} TickedGood(s: string, h: string)
    requires GoodText(s) && h in Ticked(s)
    ensures GoodName(h)
    decreases |s|, 0
  {
    hide GoodText, TickAt, TickedAfter;
    TailGood(s, TickAt(s) + 1);
    TickedAfterGood(s[TickAt(s) + 1..], h);
  }

  lemma {:induction false} TickedAfterGood(s: string, h: string)
    requires GoodText(s) && h in TickedAfter(s)
    ensures GoodName(h)
    decreases |s|, 1
  {
    hide GoodText, TickAt, Ticked;
    var j := TickAt(s);
    if j == 0 {
      TickedGood(s, h);
    } else {
      HeadGood(s, j);
      TailGood(s, j + 1);
      if h == s[..j] { NamesGood(h); } else { TickedGood(s[j + 1..], h); }
    }
  }

  lemma TailGood(s: string, k: nat)
    requires GoodText(s) && k <= |s|
    ensures GoodText(s[k..])
  {
  }

  lemma HeadGood(s: string, k: nat)
    requires GoodText(s) && k <= |s|
    ensures GoodText(s[..k])
  {
  }

  lemma NamesGood(h: string)
    requires GoodText(h)
    ensures h != "" && '`' !in h ==> GoodName(h)
  {
  }

  lemma NameFacts(h: string)
    requires GoodName(h)
    ensures GoodText(h) && Plain(h)
  {
  }

  /** What a cell lists is what reading its backticks gives back. */
  lemma {:induction false} TickedQuoted(a: string, names: seq<string>)
    requires '`' !in a && forall k :: 0 <= k < |names| ==> Plain(names[k])
    ensures Ticked(a + Quoted(names)) == set h | h in names
    decreases |names|
  {
    hide Ticked;
    if names == [] {
      assert a + Quoted(names) == a;
      TickedStep(a, "x", "");
    } else {
      assert Plain(names[0]);
      var tail := names[1..];
      var rest := if tail == [] then "" else ", " + Quoted(tail);
      QuotedCons(a, names);
      TickedStep(a, names[0], rest);
      if tail == [] { TickedStep("", "x", ""); } else { TickedQuoted(", ", tail); }
      SetCons(names);
    }
  }

  lemma QuotedCons(a: string, names: seq<string>)
    requires names != []
    ensures a + Quoted(names) == a + "`" + names[0] + "`" + (if names[1..] == [] then "" else ", " + Quoted(names[1..]))
  {
    var rest := if names[1..] == [] then "" else ", " + Quoted(names[1..]);
    assert Quoted(names) == Quote(names[0]) + rest;
    hide Quoted;
    JoinThree(a, names[0], rest);
  }

  lemma JoinThree(a: string, name: string, rest: string)
    ensures a + (Quote(name) + rest) == a + "`" + name + "`" + rest
  {
  }

  lemma SetCons(names: seq<string>)
    requires names != []
    ensures (set h | h in names) == {names[0]} + set h | h in names[1..]
  {
    assert names == [names[0]] + names[1..];
  }

  /** A cell of names is clean exactly when every name is free of bars and line breaks. */
  lemma CellClean(sort: Sorter, hw: set<string>)
    requires sort.Lawful()
    ensures CleanCell(Cell(sort, hw)) <==> forall h :: h in hw ==> GoodText(h)
  {
    hide GoodText, Quoted;
    assert sort.Lists(hw);
    if hw == {} {
      DashClean();
    } else {
      var names := sort.list(hw);
      assert names != [];
      if CleanCell(Cell(sort, hw)) {
        CleanIsGood(Quoted(names));
        forall h | h in hw
          ensures GoodText(h)
        {
          var k :| 0 <= k < |names| && names[k] == h;
          QuotedParts(names, k);
        }
      }
      if forall h :: h in hw ==> GoodText(h) {
        forall k | 0 <= k < |names|
          ensures GoodText(names[k])
        {
          assert names[k] in hw;
        }
        QuotedGood(names);
        TicksAreClean(Quoted(names));
      }
    }
  }

  lemma CleanIsGood(s: string)
    requires CleanCell(s)
    ensures GoodText(s)
  {
  }

  lemma TicksAreClean(s: string)
    requires GoodText(s) && s != "" && s[0] == s[|s| - 1] == '`'
    ensures CleanCell(s)
  {
  }

  /** Reading the quotes of a printed cell gives back its set exactly when every name is readable between them. */
  lemma CellTicked(sort: Sorter, hw: set<string>)
    requires sort.Lawful()
    ensures Ticked(Cell(sort, hw)) == hw <==> forall h :: h in hw ==> Plain(h)
  {
    hide Ticked, Plain;
    assert sort.Lists(hw);
    forall h | h in Ticked(Cell(sort, hw))
      ensures Plain(h)
    {
      TickedPlain(Cell(sort, hw), h);
    }
    if hw == {} {
      TickedStep(DASH, "x", "");
    } else if forall h :: h in hw ==> Plain(h) {
      var names := sort.list(hw);
      forall k | 0 <= k < |names|
        ensures Plain(names[k])
      {
        assert names[k] in hw;
      }
      TickedQuoted("", names);
      assert "" + Quoted(names) == Quoted(names);
      assert (set h | h in names) == hw;
    }
  }

  // ---------------------------------------------------- printing and parsing

  lemma {:induction false} OwedGood(sort: Sorter, rows: seq<Row>, h: string)
    requires Rows(rows) && CleanRows(sort, rows) && h in Owed(sort, rows)
    ensures GoodName(h)
  {
    hide Ticked, CellsOf, GoodName;
    var l := |rows| - 1;
    if h in Ticked(CellsOf(sort, rows[l])[2]) {
      assert CleanCells(CellsOf(sort, rows[l]));
      TickedGood(CellsOf(sort, rows[l])[2], h);
    } else {
      OwedGood(sort, rows[..l], h);
    }
  }

  lemma MarkerText()
    ensures OneLine(MARKER)
  {
    hide IsSpace;
  }

  lemma MarkerLine()
    ensures ParseLine(MARKER) == None
  {
    hide LineCells, Heading, StripBy;
    assert !IsSpace(MARKER[0]) && !IsSpace(MARKER[|MARKER| - 1]);
    StripKeeps(MARKER, IsSpace);
    assert MARKER[0] == '<';
  }

  lemma ShortCellsClean()
    ensures CleanCell("PR") && CleanCell("relevant kernels") && CleanCell("---")
  {
  }

  lemma NotCheckedCellClean()
    ensures CleanCell("affected hardware (not checked)")
  {
  }

  lemma CheckedCellClean()
    ensures CleanCell("affected hardware (checked)")
  {
  }

  lemma HeadingCellsClean()
    ensures CleanCells(HEADER_CELLS) && CleanCells(SEP_CELLS)
  {
    hide CleanCell;
    ShortCellsClean();
    NotCheckedCellClean();
    CheckedCellClean();
  }

  /** The header and the separator are lines of clean cells like any row, but are not read as rows. */
  lemma HeadingLines()
    ensures OneLine(Bars(HEADER_CELLS)) && ParseLine(Bars(HEADER_CELLS)) == None
    ensures OneLine(Bars(SEP_CELLS)) && ParseLine(Bars(SEP_CELLS)) == None
  {
    HeadingCellsClean();
    hide Bars, ParseLine, CleanCells;
    ParseBars(HEADER_CELLS);
    ParseBars(SEP_CELLS);
  }

  lemma UnionLine(sort: Sorter, union: set<string>)
    requires sort.Lawful() && forall h :: h in union ==> GoodName(h)
    ensures var line := Bars([UNION_LABEL, DASH, Cell(sort, union), DASH]); OneLine(line) && ParseLine(line) == None
  {
    hide Cell, Bars, ParseLine;
    var cs := [UNION_LABEL, DASH, Cell(sort, union), DASH];
    CellClean(sort, union);
    assert CleanCells(cs);
    ParseBars(cs);
  }

  lemma {:induction false} NoRows(lines: seq<string>)
    requires forall k :: 0 <= k < |lines| ==> ParseLine(lines[k]) == None
    ensures ParseLines(lines) == []
  {
    hide ParseLine;
    if lines != [] { NoRows(lines[..|lines| - 1]); }
  }

  lemma FourLines(a: string, b: string, c: string, d: string)
    requires OneLine(a) && OneLine(b) && OneLine(c) && OneLine(d)
    requires ParseLine(a) == ParseLine(b) == ParseLine(c) == ParseLine(d) == None
    ensures ParseLines([a, b, c, d]) == [] && forall k :: 0 <= k < 4 ==> OneLine([a, b, c, d][k])
  {
    hide ParseLine, OneLine;
    NoRows([a, b, c, d]);
  }

  /** The four lines above the rows are read back as nothing. */
  lemma HeadIsSkipped(sort: Sorter, union: set<string>)
    requires sort.Lawful() && forall h :: h in union ==> GoodName(h)
    ensures var head := HeadLines(sort, union);
            ParseLines(head) == [] && forall k :: 0 <= k < |head| ==> OneLine(head[k])
  {
    hide ParseLine, ParseLines, Bars, OneLine, Cell;
    MarkerText();
    MarkerLine();
    HeadingLines();
    UnionLine(sort, union);
    FourLines(MARKER, Bars(HEADER_CELLS), Bars(SEP_CELLS), Bars([UNION_LABEL, DASH, Cell(sort, union), DASH]));
  }

  lemma ParseSnoc(front: seq<string>, x: string)
    ensures ParseLines(front + [x]) == ParseLines(front) + ParseRow(x)
  {
    hide ParseRow;
    assert (front + [x])[..|front|] == front;
  }

  lemma RereadSnoc(sort: Sorter, rows: seq<Row>)
    requires Rows(rows) && rows != []
    ensures var l := |rows| - 1;
            Reread(sort, rows)
            == Reread(sort, rows[..l]) + if Survives(sort, rows[l]) then [Parsed(CellsOf(sort, rows[l]))] else []
  {
    hide Survives, CellsOf;
  }

  /** Whatever is read as nothing may stand above the rows. */
  lemma {:induction false} RowLines(sort: Sorter, head: seq<string>, rows: seq<Row>)
    requires Rows(rows) && CleanRows(sort, rows) && ParseLines(head) == []
    ensures var lines := seq(|rows|, k requires 0 <= k < |rows| => RenderRow(sort, rows[k]));
            ParseLines(head + lines) == Reread(sort, rows) && forall k :: 0 <= k < |lines| ==> OneLine(lines[k])
  {
    hide ParseRow, CellsOf, RenderRow, Survives, CleanCells, OneLine, ParseLines;
    var lines := seq(|rows|, k requires 0 <= k < |rows| => RenderRow(sort, rows[k]));
    if rows == [] {
      assert head + lines == head;
    } else {
      hide Reread;
      var l := |rows| - 1;
      RowLines(sort, head, rows[..l]);
      var front := seq(l, k requires 0 <= k < l => RenderRow(sort, rows[..l][k]));
      assert lines == front + [RenderRow(sort, rows[l])];
      assert head + lines == (head + front) + [RenderRow(sort, rows[l])];
      assert CleanCells(CellsOf(sort, rows[l]));
      RowLine(sort, rows[l]);
      ParseSnoc(head + front, RenderRow(sort, rows[l]));
      RereadSnoc(sort, rows);
    }
  }

  lemma RowLine(sort: Sorter, r: Row)
    requires (r.Parsed? ==> |r.cells| == 4) && CleanCells(CellsOf(sort, r))
    ensures OneLine(RenderRow(sort, r))
    ensures ParseRow(RenderRow(sort, r)) == if Survives(sort, r) then [Parsed(CellsOf(sort, r))] else []
  {
    hide ParseLine, CellsOf, Bars, Heading, CleanCells;
    ParseBars(CellsOf(sort, r));
  }

  /** A printed table reads back as its rows, without those that print like a heading. */
  lemma ParseRendered(sort: Sorter, rows: seq<Row>)
    requires sort.Lawful() && Rows(rows) && CleanRows(sort, rows)
    ensures Parse(Rendered(sort, rows)) == Reread(sort, rows)
  {
    hide Owed, ParseLines, CellsOf, HeadLines, Bars, CleanRows, GoodName;
    var union := Owed(sort, rows);
    forall h | h in union
      ensures GoodName(h)
    {
      OwedGood(sort, rows, h);
    }
    HeadIsSkipped(sort, union);
    RowLines(sort, HeadLines(sort, union), rows);
    SplitUnlines(TableLines(sort, union, rows));
  }

  ghost predicate AllSurvive(sort: Sorter, rows: seq<Row>)
    requires Rows(rows)
  {
    forall k :: 0 <= k < |rows| ==> Survives(sort, rows[k])
  }

  lemma {:induction false} RereadSurvivors(sort: Sorter, rows: seq<Row>)
    requires Rows(rows)
    ensures |Reread(sort, rows)| <= |rows|
    ensures |Reread(sort, rows)| == |rows| <==> AllSurvive(sort, rows)
    ensures AllSurvive(sort, rows) ==>
      forall k :: 0 <= k < |rows| ==> Reread(sort, rows)[k] == Parsed(CellsOf(sort, rows[k]))
  {
    hide Survives, CellsOf;
    if rows != [] {
      var l := |rows| - 1;
      RereadSurvivors(sort, rows[..l]);
      assert AllSurvive(sort, rows) <==> AllSurvive(sort, rows[..l]) && Survives(sort, rows[l]);
    }
  }

  lemma ParsedRowsClean(sort: Sorter, body: string)
    ensures CleanRows(sort, Parse(body))
  {
    ParseLinesClean(sort, SplitLines(body));
  }

  /**
   * For any comment text whatsoever: printing what was parsed and parsing again gives the same rows,
   * exactly when none of them prints like the header or the separator.
   */
  lemma ReparseAnyBody(sort: Sorter, body: string)
    requires sort.Lawful()
    ensures Parse(Rendered(sort, Parse(body))) == Parse(body) <==> AllSurvive(sort, Parse(body))
  {
    hide Rendered, Survives, CleanRows, ParseLines;
    var rows := Parse(body);
    ParsedRowsClean(sort, body);
    ParseRendered(sort, rows);
    RereadSurvivors(sort, rows);
    if AllSurvive(sort, rows) {
      assert forall k :: 0 <= k < |rows| ==> Reread(sort, rows)[k] == rows[k];
    }
  }

  /** A table made of clean surviving rows reproduces itself character for character. */
  lemma RerenderReproduces(sort: Sorter, rows: seq<Row>)
    requires sort.Lawful() && Rows(rows) && CleanRows(sort, rows) && AllSurvive(sort, rows)
    ensures Rendered(sort, Parse(Rendered(sort, rows))) == Rendered(sort, rows)
  {
    hide *;
    ParseRendered(sort, rows);
    SurvivorCells(sort, rows);
    SameText(sort, Reread(sort, rows), rows);
  }

  /** Rows with the same cells print the same. */
  lemma SameText(sort: Sorter, a: seq<Row>, b: seq<Row>)
    requires Rows(a) && Rows(b) && |a| == |b|
    requires forall k :: 0 <= k < |a| ==> CellsOf(sort, a[k]) == CellsOf(sort, b[k])
    ensures Rendered(sort, a) == Rendered(sort, b)
  {
    hide CellsOf, Bars, HeadLines, Unlines, Owed;
    SameCells(sort, a, b);
    assert TableLines(sort, Owed(sort, a), a) == TableLines(sort, Owed(sort, b), b);
  }

  lemma {:induction false} SameCells(sort: Sorter, a: seq<Row>, b: seq<Row>)
    requires Rows(a) && Rows(b) && |a| == |b|
    requires forall k :: 0 <= k < |a| ==> CellsOf(sort, a[k]) == CellsOf(sort, b[k])
    ensures Owed(sort, a) == Owed(sort, b)
  {
    hide CellsOf, Ticked;
    if a != [] { SameCells(sort, a[..|a| - 1], b[..|b| - 1]); }
  }

  // ------------------------------------------------------------ fresh rows

  lemma BarsInjective(cs: seq<string>, ds: seq<string>)
    requires CleanCells(cs) && CleanCells(ds)
    ensures Bars(cs) == Bars(ds) <==> cs == ds
  {
    hide Bars, LineCells, CleanCell;
    CellsOfBars(cs);
    CellsOfBars(ds);
  }

  /** A clean row is read back exactly when its cells are neither heading's and it is not the owed row. */
  lemma SurvivesIff(sort: Sorter, r: Row)
    requires (r.Parsed? ==> |r.cells| == 4) && CleanCells(CellsOf(sort, r))
    ensures var cs := CellsOf(sort, r);
            Survives(sort, r) <==> cs != HEADER_CELLS && cs != SEP_CELLS && cs[0] != UNION_LABEL
  {
    HeadingCellsClean();
    hide Bars, CleanCells, CellsOf;
    BarsInjective(CellsOf(sort, r), HEADER_CELLS);
    BarsInjective(CellsOf(sort, r), SEP_CELLS);
  }

  lemma {:induction false} ParentGood(p: string)
    requires GoodText(p)
    ensures GoodText(Parent(p))
  {
    if p != "" && p[|p| - 1] != '/' { ParentGood(p[..|p| - 1]); }
  }

  lemma DecimalGood(n: nat)
    ensures GoodText(Decimal(n))
  {
    assert forall k :: 0 <= k < |Decimal(n)| ==> IsDigit(Decimal(n)[k]);
  }

  lemma ShownExists(sort: Sorter, paths: set<string>)
    requires sort.Lawful()
    ensures Shown(sort, paths) == [] <==> paths == {}
  {
    var dirs := set p | p in paths :: Parent(p);
    assert sort.Lists(dirs);
    if p :| p in paths { assert Parent(p) in sort.list(dirs); }
    if paths == {} { assert dirs == {}; }
  }

  /** Directories of good paths are good, shown or not. */
  lemma ShownGood(sort: Sorter, paths: set<string>)
    requires sort.Lawful() && forall p :: p in paths ==> GoodText(p)
    ensures forall d :: d in Shown(sort, paths) ==> GoodText(d)
  {
    hide GoodText, Parent;
    var dirs := set p | p in paths :: Parent(p);
    assert sort.Lists(dirs);
    forall d | d in Shown(sort, paths)
      ensures GoodText(d)
    {
      assert d in sort.list(dirs);
      var p :| p in paths && d == Parent(p);
      ParentGood(p);
    }
  }

  /** The second cell is clean exactly when every directory it shows is. */
  lemma CondenseClean(sort: Sorter, paths: set<string>)
    requires sort.Lawful()
    ensures CleanCell(Condense(sort, paths)) <==> forall d :: d in Shown(sort, paths) ==> GoodText(d)
  {
    hide Quoted, Decimal, GoodText, CleanCell, Shown, Directories;
    ShownExists(sort, paths);
    if paths == {} {
      DashClean();
      return;
    }
    var names, more, files := Shown(sort, paths), |Directories(sort, paths)| - 6, |paths|;
    var tail := if more > 0 then " +" + Decimal(more) + " more" else "";
    if CleanCell(Condense(sort, paths)) {
      CleanIsGood(Condense(sort, paths));
      CondensedParts(Quoted(names), tail, files);
      forall d | d in names
        ensures GoodText(d)
      {
        var k :| 0 <= k < |names| && names[k] == d;
        QuotedParts(names, k);
      }
    }
    if forall d :: d in names ==> GoodText(d) {
      QuotedGood(names);
      CondensedText(Quoted(names), tail, more, files);
    }
  }

  lemma CondensedParts(shown: string, tail: string, files: nat)
    requires GoodText(shown + tail + " (" + Decimal(files) + " file" + (if files != 1 then "s" else "") + ")")
    ensures GoodText(shown)
  {
    hide GoodText, Decimal;
    var plural := if files != 1 then "s" else "";
    GoodParts(shown + tail + " (" + Decimal(files) + " file" + plural, ")");
    GoodParts(shown + tail + " (" + Decimal(files) + " file", plural);
    GoodParts(shown + tail + " (" + Decimal(files), " file");
    GoodParts(shown + tail + " (", Decimal(files));
    GoodParts(shown + tail, " (");
    GoodParts(shown, tail);
  }

  lemma DashClean()
    ensures CleanCell(DASH)
  {
  }

  lemma CondensedLiterals()
    ensures GoodText(" +") && GoodText(" more") && GoodText("") && GoodText(" (") && GoodText(" file") && GoodText("s")
    ensures GoodText(")")
  {
  }

  lemma EndsClean(s: string)
    requires GoodText(s) && s != "" && s[0] == '`' && s[|s| - 1] == ')'
    ensures CleanCell(s)
  {
  }

  lemma CondensedText(shown: string, tail: string, more: int, files: nat)
    requires GoodText(shown) && shown != "" && shown[0] == '`'
    requires tail == if more > 0 then " +" + Decimal(more) + " more" else ""
    ensures CleanCell(shown + tail + " (" + Decimal(files) + " file" + (if files != 1 then "s" else "") + ")")
  {
    hide Decimal, GoodText, CleanCell;
    CondensedLiterals();
    DecimalGood(files);
    if more > 0 {
      DecimalGood(more);
      GoodConcat(" +", Decimal(more));
      GoodConcat(" +" + Decimal(more), " more");
    }
    GoodConcat(shown, tail);
    GoodConcat(shown + tail, " (");
    GoodConcat(shown + tail + " (", Decimal(files));
    GoodConcat(shown + tail + " (" + Decimal(files), " file");
    var plural := if files != 1 then "s" else "";
    GoodConcat(shown + tail + " (" + Decimal(files) + " file", plural);
    GoodConcat(shown + tail + " (" + Decimal(files) + " file" + plural, ")");
    EndsClean(shown + tail + " (" + Decimal(files) + " file" + plural + ")");
  }

  /** What the source demands of a PR reference, and more: it demands `#` and digits. */
  predicate PrRef(pr: string) { pr != "" && pr[0] == '#' && CleanCell(pr) }

  /**
   * Hardware names and the directories shown are free of bars and line breaks, and the names owed can be
   * read between backticks.
   */
  ghost predicate GoodMerge(sort: Sorter, m: Merge)
  {
    && PrRef(m.pr)
    && (forall d :: d in Shown(sort, KernelPaths(m.paths)) ==> GoodText(d))
    && (forall h :: h in Reached(m.paths) ==> GoodText(h))
    && (forall h :: h in OwedBy(m) ==> Plain(h))
  }

  /** The row of a merge has clean cells, is no heading, and says what the merge owes: exactly for good merges. */
  lemma FreshRowIff(sort: Sorter, m: Merge)
    requires sort.Lawful() && PrRef(m.pr)
    ensures var r := RowFor(m);
            GoodMerge(sort, m) <==>
              CleanCells(CellsOf(sort, r)) && Survives(sort, r) && Ticked(CellsOf(sort, r)[2]) == OwedBy(m)
  {
    hide Cell, Condense, Ticked, Shown, Reached, GoodText, Plain, Survives, KernelPaths, CleanCell;
    var r := RowFor(m);
    var cs := [m.pr, Condense(sort, r.paths), Cell(sort, r.notChecked), Cell(sort, r.checked)];
    assert CellsOf(sort, r) == cs;
    assert CleanCells(cs) <==> CleanCell(cs[0]) && CleanCell(cs[1]) && CleanCell(cs[2]) && CleanCell(cs[3]);
    assert cs[0][0] == '#' && HEADER_CELLS[0][0] == 'P' && SEP_CELLS[0][0] == '-' && UNION_LABEL[0] == '*';
    CondenseClean(sort, r.paths);
    CellClean(sort, r.notChecked);
    CellClean(sort, r.checked);
    CellTicked(sort, r.notChecked);
    assert forall h :: h in Reached(m.paths) <==> h in r.notChecked || h in r.checked;
    if CleanCells(CellsOf(sort, r)) { SurvivesIff(sort, r); }
  }

  // ------------------------------------------------------------- the ledger

  /** What one merge owes. */
  ghost function OwedBy(m: Merge): set<string> { Reached(m.paths) - m.checked }

  ghost predicate Has(sort: Sorter, rows: seq<Row>, pr: string, h: string)
    requires Rows(rows)
  {
    exists k :: 0 <= k < |rows| && Pr(rows[k]) == pr && h in Ticked(CellsOf(sort, rows[k])[2])
  }

  ghost predicate OneRowPerPr(rows: seq<Row>)
    requires Rows(rows)
  {
    forall a, b :: 0 <= a < b < |rows| ==> Pr(rows[a]) != Pr(rows[b])
  }

  lemma {:induction false} WithoutKeeps(sort: Sorter, rows: seq<Row>, pr: string)
    requires Rows(rows) && CleanRows(sort, rows) && AllSurvive(sort, rows)
    ensures CleanRows(sort, Without(rows, pr)) && AllSurvive(sort, Without(rows, pr))
    ensures OneRowPerPr(rows) ==> OneRowPerPr(Without(rows, pr))
    ensures forall q, h :: Has(sort, Without(rows, pr), q, h) <==> q != pr && Has(sort, rows, q, h)
  {
    hide CellsOf, Survives, CleanCells, Ticked, Pr;
    if rows != [] {
      var l := |rows| - 1;
      WithoutKeeps(sort, rows[..l], pr);
      var front := Without(rows[..l], pr);
      HasSnoc(sort, rows[..l], rows[l]);
      assert rows[..l] + [rows[l]] == rows;
      if Pr(rows[l]) != pr {
        HasSnoc(sort, front, rows[l]);
        if OneRowPerPr(rows) {
          forall a | 0 <= a < |front|
            ensures Pr(front[a]) != Pr(rows[l])
          {
            assert front[a] in rows[..l];
          }
        }
      }
    }
  }

  lemma HasSnoc(sort: Sorter, rows: seq<Row>, r: Row)
    requires Rows(rows) && (r.Parsed? ==> |r.cells| == 4)
    ensures Rows(rows + [r])
    ensures forall q, h ::
              Has(sort, rows + [r], q, h) <==> Has(sort, rows, q, h) || (Pr(r) == q && h in Ticked(CellsOf(sort, r)[2]))
  {
    hide CellsOf, Ticked, Pr;
    var all := rows + [r];
    forall q, h
      ensures Has(sort, all, q, h) <==> Has(sort, rows, q, h) || (Pr(r) == q && h in Ticked(CellsOf(sort, r)[2]))
    {
      if Has(sort, rows, q, h) {
        var k :| 0 <= k < |rows| && Pr(rows[k]) == q && h in Ticked(CellsOf(sort, rows[k])[2]);
        assert all[k] == rows[k];
      }
      assert all[|rows|] == r;
    }
  }

  /** Reading surviving rows back changes nothing that the ledger sees. */
  lemma RereadSame(sort: Sorter, rows: seq<Row>)
    requires Rows(rows) && CleanRows(sort, rows) && AllSurvive(sort, rows)
    ensures var again := Reread(sort, rows);
      && |again| == |rows| && AllSurvive(sort, again) && CleanRows(sort, again) && Owed(sort, again) == Owed(sort, rows)
      && (OneRowPerPr(rows) ==> OneRowPerPr(again))
      && forall q, h :: Has(sort, again, q, h) <==> Has(sort, rows, q, h)
  {
    hide *;
    RereadSurvivors(sort, rows);
    var again := Reread(sort, rows);
    SurvivorCells(sort, rows);
    CellsCarryOver(sort, again, rows);
    SameCells(sort, again, rows);
  }

  lemma SurvivorCells(sort: Sorter, rows: seq<Row>)
    requires Rows(rows) && AllSurvive(sort, rows)
    ensures |Reread(sort, rows)| == |rows|
    ensures forall k :: 0 <= k < |rows| ==> Reread(sort, rows)[k] == Parsed(CellsOf(sort, rows[k]))
    ensures forall k :: 0 <= k < |rows| ==> CellsOf(sort, Reread(sort, rows)[k]) == CellsOf(sort, rows[k])
  {
    hide Survives, Cell, Condense;
    RereadSurvivors(sort, rows);
  }

  /** Rows with the same cells are the same to the ledger. */
  lemma CellsCarryOver(sort: Sorter, a: seq<Row>, b: seq<Row>)
    requires Rows(a) && Rows(b) && |a| == |b|
    requires forall k :: 0 <= k < |a| ==> CellsOf(sort, a[k]) == CellsOf(sort, b[k])
    ensures AllSurvive(sort, b) ==> AllSurvive(sort, a)
    ensures CleanRows(sort, b) ==> CleanRows(sort, a)
    ensures OneRowPerPr(b) ==> OneRowPerPr(a)
    ensures forall q, h :: Has(sort, a, q, h) <==> Has(sort, b, q, h)
  {
    hide Ticked, CellsOf, Heading, Bars, CleanCells, Pr;
    forall k | 0 <= k < |a|
      ensures Pr(a[k]) == Pr(b[k]) && Survives(sort, a[k]) == Survives(sort, b[k])
    {
      FirstCellIsPr(sort, a[k]);
      FirstCellIsPr(sort, b[k]);
    }
  }

  lemma FirstCellIsPr(sort: Sorter, r: Row)
    requires r.Parsed? ==> |r.cells| == 4
    ensures Pr(r) == CellsOf(sort, r)[0]
  {
  }

  /** One merge: the PR's row is replaced or added, every other entry stays. */
  lemma MergeStep(sort: Sorter, body: string, m: Merge)
    requires sort.Lawful() && GoodMerge(sort, m) && TouchesKernels(m) && AllSurvive(sort, Parse(body))
    ensures var before, after := Parse(body), Parse(AfterMerge(sort, body, m));
      && AllSurvive(sort, after)
      && (OneRowPerPr(before) ==> OneRowPerPr(after))
      && (forall q, h :: Has(sort, after, q, h) <==> if q == m.pr then h in OwedBy(m) else Has(sort, before, q, h))
  {
    hide Parse, Rendered, Survives, CellsOf, CleanCells, Ticked, Has, OwedBy, Reached, Reread;
    var before := Parse(body);
    var r := RowFor(m);
    ParsedRowsClean(sort, body);
    WithoutKeeps(sort, before, m.pr);
    FreshRowIff(sort, m);
    var kept := Without(before, m.pr);
    var rows := Upsert(before, r);
    HasSnoc(sort, kept, r);
    ParseRendered(sort, rows);
    RereadSame(sort, rows);
  }

  // --------------------------------------------------------------- whole runs

  ghost function AfterMerges(sort: Sorter, body: string, ms: seq<Merge>): string
  {
    if ms == [] then body else AfterMerge(sort, AfterMerges(sort, body, ms[..|ms| - 1]), ms[|ms| - 1])
  }

  /** No merge from position i on records anything for this PR. */
  ghost predicate Untouched(ms: seq<Merge>, i: nat, pr: string)
  {
    forall j :: i <= j < |ms| && TouchesKernels(ms[j]) ==> ms[j].pr != pr
  }

  /** The PR's latest recorded merge owes h, or h stood in a starting row that no merge replaced. */
  ghost predicate Outstanding(sort: Sorter, start: seq<Row>, ms: seq<Merge>, pr: string, h: string)
    requires Rows(start)
  {
    || (exists i ::
          0 <= i < |ms| && TouchesKernels(ms[i]) && ms[i].pr == pr && h in OwedBy(ms[i]) && Untouched(ms, i + 1, pr))
    || (Has(sort, start, pr, h) && Untouched(ms, 0, pr))
  }

  lemma OutstandingStep(sort: Sorter, start: seq<Row>, ms: seq<Merge>, m: Merge, pr: string, h: string)
    requires Rows(start)
    ensures Outstanding(sort, start, ms + [m], pr, h)
       <==> if TouchesKernels(m) && m.pr == pr then h in OwedBy(m) else Outstanding(sort, start, ms, pr, h)
  {
    hide TouchesKernels, OwedBy, Has;
    var all := ms + [m];
    assert all[|ms|] == m && forall j :: 0 <= j < |ms| ==> all[j] == ms[j];
    assert Untouched(all, |all|, pr);
    forall i | 0 <= i <= |ms|
      ensures Untouched(all, i, pr) <==> Untouched(ms, i, pr) && !(TouchesKernels(m) && m.pr == pr)
    {
    }
    if Outstanding(sort, start, all, pr, h) && !(TouchesKernels(m) && m.pr == pr) {
      if !(Has(sort, start, pr, h) && Untouched(all, 0, pr)) {
        var i :| 0 <= i < |all| && TouchesKernels(all[i]) && all[i].pr == pr && h in OwedBy(all[i])
            && Untouched(all, i + 1, pr);
        assert i < |ms| && ms[i] == all[i];
      }
    }
    if Outstanding(sort, start, ms, pr, h) && !(TouchesKernels(m) && m.pr == pr) {
      if !(Has(sort, start, pr, h) && Untouched(ms, 0, pr)) {
        var i :| 0 <= i < |ms| && TouchesKernels(ms[i]) && ms[i].pr == pr && h in OwedBy(ms[i])
            && Untouched(ms, i + 1, pr);
        assert all[i] == ms[i] && Untouched(all, i + 1, pr);
      }
    }
  }

  /**
   * Over any sequence of merges, from any comment whose rows read back: a PR owes a hardware in the table
   * exactly when its latest recorded merge left it unchecked, and every PR keeps at most one row.
   */
  lemma {:induction false} LedgerIsExact(sort: Sorter, body: string, ms: seq<Merge>)
    requires sort.Lawful() && AllSurvive(sort, Parse(body)) && forall k :: 0 <= k < |ms| ==> GoodMerge(sort, ms[k])
    ensures var end := Parse(AfterMerges(sort, body, ms));
      && AllSurvive(sort, end)
      && (OneRowPerPr(Parse(body)) ==> OneRowPerPr(end))
      && forall pr, h :: Has(sort, end, pr, h) <==> Outstanding(sort, Parse(body), ms, pr, h)
    decreases |ms|
  {
    hide Parse, AfterMerge, GoodMerge, Has, TouchesKernels, OwedBy, Survives;
    var start := Parse(body);
    if ms == [] {
      forall pr, h
        ensures Has(sort, start, pr, h) <==> Outstanding(sort, start, ms, pr, h)
      {
        assert Untouched(ms, 0, pr);
      }
    } else {
      var front, m := ms[..|ms| - 1], ms[|ms| - 1];
      assert front + [m] == ms;
      LedgerIsExact(sort, body, front);
      var mid := AfterMerges(sort, body, front);
      StepOrSkip(sort, mid, m);
      forall pr, h
        ensures Has(sort, Parse(AfterMerges(sort, body, ms)), pr, h) <==> Outstanding(sort, start, ms, pr, h)
      {
        OutstandingStep(sort, start, front, m, pr, h);
      }
    }
  }

  lemma StepOrSkip(sort: Sorter, body: string, m: Merge)
    requires sort.Lawful() && GoodMerge(sort, m) && AllSurvive(sort, Parse(body))
    ensures var before, after := Parse(body), Parse(AfterMerge(sort, body, m));
      && AllSurvive(sort, after)
      && (OneRowPerPr(before) ==> OneRowPerPr(after))
      && (forall q, h :: Has(sort, after, q, h)
           <==> if TouchesKernels(m) && q == m.pr then h in OwedBy(m) else Has(sort, before, q, h))
  {
    hide Parse, GoodMerge, Has, OwedBy, Survives;
    if TouchesKernels(m) { MergeStep(sort, body, m); }
  }

  // ------------------------------------------------------------ a merge's row

  /** The row that a merge leaves in the table. */
  ghost function Recorded(sort: Sorter, m: Merge): (r: Row)
    ensures r.Parsed? && |r.cells| == 4 && Pr(r) == m.pr
  {
    FirstCellIsPr(sort, RowFor(m));
    Parsed(CellsOf(sort, RowFor(m)))
  }

  lemma RenderedAfter(sort: Sorter, body: string, m: Merge)
    requires TouchesKernels(m)
    ensures AfterMerge(sort, body, m) == Rendered(sort, Upsert(Parse(body), RowFor(m)))
  {
  }

  // ------------------------------------------------------------------ what is owed

  lemma {:induction false} OwedIsUnion(sort: Sorter, rows: seq<Row>, h: string)
    requires Rows(rows)
    ensures h in Owed(sort, rows) <==> exists pr :: Has(sort, rows, pr, h)
  {
    hide CellsOf, Ticked, Has, Pr;
    if rows == [] {
      NothingHeld(sort, h);
    } else {
      var l := |rows| - 1;
      OwedIsUnion(sort, rows[..l], h);
      HasSnoc(sort, rows[..l], rows[l]);
      assert rows[..l] + [rows[l]] == rows;
      assert Has(sort, rows, Pr(rows[l]), h) || h !in Ticked(CellsOf(sort, rows[l])[2]);
    }
  }

  lemma NothingHeld(sort: Sorter, h: string)
    ensures forall pr :: !Has(sort, [], pr, h)
  {
  }

  /** After a recorded merge the first row of the table lists exactly the outstanding hardware. */
  lemma OwedRowIsExact(sort: Sorter, body: string, ms: seq<Merge>, h: string)
    requires sort.Lawful() && AllSurvive(sort, Parse(body)) && ms != [] && TouchesKernels(ms[|ms| - 1])
    requires forall k :: 0 <= k < |ms| ==> GoodMerge(sort, ms[k])
    ensures var rows := Upsert(Parse(AfterMerges(sort, body, ms[..|ms| - 1])), RowFor(ms[|ms| - 1]));
      && AfterMerges(sort, body, ms) == Unlines(TableLines(sort, Owed(sort, rows), rows))
      && Ticked(Cell(sort, Owed(sort, rows))) == Owed(sort, rows)
      && (h in Owed(sort, rows) <==> exists pr :: Outstanding(sort, Parse(body), ms, pr, h))
  {
    hide *;
    var front, m := ms[..|ms| - 1], ms[|ms| - 1];
    var mid := AfterMerges(sort, body, front);
    LedgerIsExact(sort, body, front);
    LedgerIsExact(sort, body, ms);
    var rows := Upsert(Parse(mid), RowFor(m));
    LastMerge(sort, body, ms);
    MergedRows(sort, mid, m);
    forall n | n in Owed(sort, rows)
      ensures Plain(n)
    {
      OwedGood(sort, rows, n);
      NameFacts(n);
    }
    CellTicked(sort, Owed(sort, rows));
    ParseRendered(sort, rows);
    RereadSame(sort, rows);
    OwedIsUnion(sort, Parse(AfterMerges(sort, body, ms)), h);
  }

  lemma LastMerge(sort: Sorter, body: string, ms: seq<Merge>)
    requires ms != [] && TouchesKernels(ms[|ms| - 1])
    ensures var rows := Upsert(Parse(AfterMerges(sort, body, ms[..|ms| - 1])), RowFor(ms[|ms| - 1]));
            AfterMerges(sort, body, ms) == Rendered(sort, rows) == Unlines(TableLines(sort, Owed(sort, rows), rows))
  {
    hide Parse, TouchesKernels, Upsert, RowFor, Unlines, TableLines, Owed;
  }

  lemma MergedRows(sort: Sorter, body: string, m: Merge)
    requires sort.Lawful() && GoodMerge(sort, m) && AllSurvive(sort, Parse(body))
    ensures var rows := Upsert(Parse(body), RowFor(m)); CleanRows(sort, rows) && AllSurvive(sort, rows)
  {
    hide Parse, Survives, CellsOf, CleanCells, Ticked, Has, OwedBy, Reached;
    ParsedRowsClean(sort, body);
    WithoutKeeps(sort, Parse(body), m.pr);
    FreshRowIff(sort, m);
  }

  /** The writer never refuses its own output. */
  lemma RenderedHasMarker(sort: Sorter, rows: seq<Row>)
    requires Rows(rows)
    ensures Contains(Rendered(sort, rows), MARKER)
  {
    hide Bars, Cell, Owed;
    var lines := TableLines(sort, Owed(sort, rows), rows);
    var rest := Unlines(lines[1..]);
    MarkerFirst(rest);
    assert Rendered(sort, rows) == MARKER + ("\n" + rest);
  }

  lemma MarkerFirst(rest: string)
    ensures Contains(MARKER + ("\n" + rest), MARKER)
  {
    PrefixContained(MARKER, "\n" + rest);
  }

  lemma PrefixContained(t: string, rest: string)
    ensures Contains(t + rest, t)
  {
    var s := t + rest;
    assert s[0..] == s && s[0..][..|t|] == t;
  }
}
