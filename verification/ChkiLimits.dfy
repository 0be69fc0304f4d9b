// Exactly which rows and which merges survive being printed and read back.
module ChkiLimits {
  import opened Text
  import opened Lines
  import opened ChkiTable
  import opened ChkiLedger

  // ------------------------------------------------------------------ one line

  lemma PadOneLine(c: string)
    requires OneLine(c)
    ensures OneLine(Pad(c))
  {
    OneLineConcat(" ", c);
    OneLineConcat(" " + c, " ");
  }

  lemma {:induction false} JoinedOneLine(cs: seq<string>)
    requires |cs| >= 1 && forall k :: 0 <= k < |cs| ==> OneLine(cs[k])
    ensures OneLine(JoinBars(cs))
  {
    hide OneLine;
    if |cs| > 1 {
      SeparatorIsOneLine();
      JoinedOneLine(cs[1..]);
      OneLineConcat(cs[0], " | ");
      OneLineConcat(cs[0] + " | ", JoinBars(cs[1..]));
    }
  }

  lemma BarsOneLine(cs: seq<string>)
    requires |cs| >= 1 && forall k :: 0 <= k < |cs| ==> OneLine(cs[k])
    ensures OneLine(Bars(cs))
  {
    JoinedOneLine(cs);
    BarsShape(cs);
    assert OneLine("|");
    hide OneLine;
    PadOneLine(JoinBars(cs));
    OneLineConcat("|", Pad(JoinBars(cs)));
    OneLineConcat("|" + Pad(JoinBars(cs)), "|");
  }

  /** Any four cells without line breaks read back as themselves exactly when they are clean and no heading. */
  lemma RowReadsBackIff(cs: seq<string>)
    requires |cs| == 4 && forall k :: 0 <= k < 4 ==> OneLine(cs[k])
    ensures ParseLine(Bars(cs)) == Some(cs) <==>
              CleanCells(cs) && cs != HEADER_CELLS && cs != SEP_CELLS && cs[0] != UNION_LABEL
  {
    BarsOneLine(cs);
    hide ParseLine, Bars, CleanCells, OneLine;
    if ParseLine(Bars(cs)) == Some(cs) { ParsedIsClean(Bars(cs)); }
    if CleanCells(cs) {
      ParseBars(cs);
      HeadingIff(cs);
    }
  }

  lemma HeadingIff(cs: seq<string>)
    requires CleanCells(cs)
    ensures Heading(Bars(cs)) <==> cs == HEADER_CELLS || cs == SEP_CELLS
  {
    HeadingCellsClean();
    hide Bars, CleanCells;
    BarsInjective(cs, HEADER_CELLS);
    BarsInjective(cs, SEP_CELLS);
  }

  // ----------------------------------------------------------------- one merge

  /**
   * Whatever the merge holds: its row is in the table that is read next exactly when its cells are clean and no
   * heading.
   */
  lemma RowKeptIff(sort: Sorter, body: string, m: Merge)
    requires sort.Lawful() && TouchesKernels(m) && AllSurvive(sort, Parse(body))
    ensures var cs := CellsOf(sort, RowFor(m));
            Recorded(sort, m) in Parse(AfterMerge(sort, body, m))
            <==> CleanCells(cs) && cs != HEADER_CELLS && cs != SEP_CELLS && cs[0] != UNION_LABEL
  {
    hide *;
    var r, after := RowFor(m), Parse(AfterMerge(sort, body, m));
    IsParsed(sort, m);
    ParsedRowsClean(sort, AfterMerge(sort, body, m));
    RowsAreClean(sort, after);
    if CleanCells(CellsOf(sort, r)) {
      CleanRowKept(sort, body, m);
      SurvivesIff(sort, r);
    }
  }

  lemma IsParsed(sort: Sorter, m: Merge)
    ensures Recorded(sort, m) == Parsed(CellsOf(sort, RowFor(m)))
            && CellsOf(sort, Recorded(sort, m)) == CellsOf(sort, RowFor(m))
  {
    hide CellsOf, RowFor;
    ParsedCells(sort, CellsOf(sort, RowFor(m)));
  }

  lemma ParsedCells(sort: Sorter, cs: seq<string>)
    requires |cs| == 4
    ensures CellsOf(sort, Parsed(cs)) == cs
  {
  }

  lemma RowsAreClean(sort: Sorter, rows: seq<Row>)
    requires Rows(rows) && CleanRows(sort, rows)
    ensures forall r :: r in rows ==> (r.Parsed? ==> |r.cells| == 4) && CleanCells(CellsOf(sort, r))
  {
  }

  /** With clean cells, only a heading can still be lost. */
  lemma CleanRowKept(sort: Sorter, body: string, m: Merge)
    requires sort.Lawful() && TouchesKernels(m) && AllSurvive(sort, Parse(body)) && CleanCells(CellsOf(sort, RowFor(m)))
    ensures Recorded(sort, m) in Parse(AfterMerge(sort, body, m)) <==> Survives(sort, RowFor(m))
  {
    hide Parse, Rendered, Survives, CellsOf, CleanCells, RowFor, TouchesKernels, Reread, Without, Pr;
    var before, r := Parse(body), RowFor(m);
    var kept, rows := Without(before, m.pr), Upsert(before, r);
    ParsedRowsClean(sort, body);
    WithoutKeeps(sort, before, m.pr);
    assert CleanRows(sort, rows);
    ParseRendered(sort, rows);
    RenderedAfter(sort, body, m);
    assert rows[..|rows| - 1] == kept;
    RereadSnoc(sort, rows);
    RereadSurvivors(sort, kept);
    forall k | 0 <= k < |kept|
      ensures Reread(sort, kept)[k] != Recorded(sort, m)
    {
      var x := kept[k];
      FirstCellIsPr(sort, x);
      ParsedCells(sort, CellsOf(sort, x));
      FirstCellIsPr(sort, Parsed(CellsOf(sort, x)));
    }
    IsParsed(sort, m);
  }

  /** A merge's row is in the table that is read next and says what the merge owes: exactly for good merges. */
  lemma RecordedIff(sort: Sorter, body: string, m: Merge)
    requires sort.Lawful() && TouchesKernels(m) && AllSurvive(sort, Parse(body)) && PrRef(m.pr)
    ensures Recorded(sort, m) in Parse(AfterMerge(sort, body, m)) && Ticked(Recorded(sort, m).cells[2]) == OwedBy(m)
       <==> GoodMerge(sort, m)
  {
    hide *;
    IsParsed(sort, m);
    FreshRowIff(sort, m);
    RowKeptIff(sort, body, m);
    if CleanCells(CellsOf(sort, RowFor(m))) { SurvivesIff(sort, RowFor(m)); }
  }

  // ------------------------------------------------------------ bars in cells

  function BarCount(s: string): nat
  {
    if s == "" then 0 else BarCount(s[..|s| - 1]) + if s[|s| - 1] == '|' then 1 else 0
  }

  lemma {:induction false} BarCountConcat(a: string, b: string)
    ensures BarCount(a + b) == BarCount(a) + BarCount(b)
    decreases |b|
  {
    if b == "" {
      assert a + b == a;
    } else {
      BarCountConcat(a, b[..|b| - 1]);
      assert (a + b)[..|a + b| - 1] == a + b[..|b| - 1];
    }
  }

  lemma {:induction false} NoBarCount(s: string)
    ensures BarCount(s) == 0 <==> NoBar(s)
  {
    if s != "" {
      NoBarCount(s[..|s| - 1]);
      assert s == s[..|s| - 1] + [s[|s| - 1]];
    }
  }

  lemma OneBar()
    ensures BarCount("|") == 1 && BarCount(" ") == 0 && BarCount(" | ") == 1
  {
    assert BarCount("") == 0 && "|"[..0] == "" && " "[..0] == "";
    BarCountConcat(" ", "|");
    BarCountConcat(" " + "|", " ");
    assert " " + "|" + " " == " | ";
  }

  /** Splitting at bars gives one part more than there are bars. */
  lemma {:induction false} SplitBarCount(s: string)
    ensures |SplitBar(s)| == BarCount(s) + 1
    decreases |s|
  {
    var n := BarAt(s);
    NoBarCount(s[..n]);
    if n == |s| {
      assert s[..n] == s;
    } else {
      SplitBarCount(s[n + 1..]);
      OneBar();
      BarCountConcat(s[..n], "|");
      BarCountConcat(s[..n] + "|", s[n + 1..]);
      assert s[..n] + "|" + s[n + 1..] == s;
    }
  }

  lemma {:induction false} JoinedBarCount(cs: seq<string>, k: nat)
    requires k < |cs|
    ensures BarCount(JoinBars(cs)) >= |cs| - 1 + BarCount(cs[k])
    decreases |cs|
  {
    OneBar();
    if |cs| > 1 {
      BarCountConcat(cs[0], " | ");
      BarCountConcat(cs[0] + " | ", JoinBars(cs[1..]));
      JoinedBarCount(cs[1..], if k == 0 then 0 else k - 1);
    }
  }

  /** Why names must be free of bars: any bar in any cell makes a fifth one, and the whole row is not read back. */
  lemma BarInCellLosesRow(cs: seq<string>, k: nat)
    requires |cs| == 4 && k < 4 && !NoBar(cs[k])
    ensures ParseLine(Bars(cs)) == None
  {
    hide Heading, Bars, JoinBars, NoBar, StripBy, SplitBar, BarCount;
    var line, inner := Bars(cs), Pad(JoinBars(cs));
    BarsShape(cs);
    StripKeeps(line, IsSpace);
    StripPadded(inner, '|', IsBar);
    SplitBarCount(inner);
    PadBarCount(JoinBars(cs));
    JoinedBarCount(cs, k);
    NoBarCount(cs[k]);
  }

  lemma PadBarCount(s: string)
    ensures BarCount(Pad(s)) == BarCount(s)
  {
    OneBar();
    BarCountConcat(" ", s);
    BarCountConcat(" " + s, " ");
  }

  // --------------------------------------------------------- merges that are lost

  /** A reference as the source demands, and cells that each print on one line. */
  ghost predicate LineMerge(sort: Sorter, m: Merge)
  {
    PrRef(m.pr) && forall k :: 0 <= k < 4 ==> OneLine(CellsOf(sort, RowFor(m))[k])
  }

  /** The cells of a merge have nothing to strip, so a bar is all that can be wrong with them. */
  lemma LineMergeBar(sort: Sorter, m: Merge)
    requires sort.Lawful() && LineMerge(sort, m)
    ensures CleanCells(CellsOf(sort, RowFor(m))) <==> forall k :: 0 <= k < 4 ==> NoBar(CellsOf(sort, RowFor(m))[k])
  {
    hide Condense, Cell, OneLine, NoBar, Trimmed;
    var r := RowFor(m);
    var cs := CellsOf(sort, r);
    CondenseTrimmed(sort, r.paths);
    CellTrimmed(sort, r.notChecked);
    CellTrimmed(sort, r.checked);
    assert cs == [m.pr, Condense(sort, r.paths), Cell(sort, r.notChecked), Cell(sort, r.checked)];
    assert Trimmed(cs[0]) && Trimmed(cs[1]) && Trimmed(cs[2]) && Trimmed(cs[3]);
    assert CleanCells(cs) <==> forall k :: 0 <= k < 4 ==> CleanCell(cs[k]);
  }

  lemma QuotedEnds(names: seq<string>)
    requires names != []
    ensures var q := Quoted(names); q != "" && q[0] == '`' && q[|q| - 1] == '`'
  {
    if |names| > 1 { QuotedEnds(names[1..]); }
  }

  lemma DashTrimmed()
    ensures Trimmed(DASH)
  {
  }

  lemma CellTrimmed(sort: Sorter, hw: set<string>)
    requires sort.Lawful()
    ensures Trimmed(Cell(sort, hw))
  {
    hide Quoted;
    assert sort.Lists(hw);
    DashTrimmed();
    if hw != {} { QuotedEnds(sort.list(hw)); }
  }

  lemma CondenseTrimmed(sort: Sorter, paths: set<string>)
    requires sort.Lawful()
    ensures Trimmed(Condense(sort, paths))
  {
    hide Quoted, Shown, Directories, Decimal;
    ShownExists(sort, paths);
    DashTrimmed();
    if paths != {} {
      QuotedEnds(Shown(sort, paths));
      var s := Condense(sort, paths);
      assert s[|s| - 1] == ')' && s[0] == Quoted(Shown(sort, paths))[0];
    }
  }

  /** Whatever names it lists, as long as they fit on a line, the owed row is not read as a row. */
  lemma OwedLine(sort: Sorter, union: set<string>)
    requires sort.Lawful() && OneLine(Cell(sort, union))
    ensures var line := Bars([UNION_LABEL, DASH, Cell(sort, union), DASH]); OneLine(line) && ParseLine(line) == None
  {
    hide Bars, ParseLine, Cell, Trimmed, NoBar, OneLine;
    var cs := [UNION_LABEL, DASH, Cell(sort, union), DASH];
    HeadCellsClean();
    CellTrimmed(sort, union);
    BarsOneLine(cs);
    if NoBar(cs[2]) { ParseBars(cs); } else { BarInCellLosesRow(cs, 2); }
  }

  lemma HeadCellsClean()
    ensures CleanCell(UNION_LABEL) && CleanCell(DASH)
  {
  }

  /** What is read out of one-line cells fits on one line. */
  lemma {:induction false} TickedOneLine(s: string, h: string)
    requires OneLine(s) && h in Ticked(s)
    ensures OneLine(h)
    decreases |s|, 0
  {
    hide TickAt, TickedAfter;
    assert OneLine(s[TickAt(s) + 1..]);
    TickedAfterOneLine(s[TickAt(s) + 1..], h);
  }

  lemma {:induction false} TickedAfterOneLine(s: string, h: string)
    requires OneLine(s) && h in TickedAfter(s)
    ensures OneLine(h)
    decreases |s|, 1
  {
    hide TickAt, Ticked;
    var j := TickAt(s);
    if j == 0 {
      TickedOneLine(s, h);
    } else if h != s[..j] {
      assert OneLine(s[j + 1..]);
      TickedOneLine(s[j + 1..], h);
    }
  }

  lemma {:induction false} QuotedOneLine(names: seq<string>)
    requires forall k :: 0 <= k < |names| ==> OneLine(names[k])
    ensures OneLine(Quoted(names))
  {
    if |names| > 1 { QuotedOneLine(names[1..]); }
  }

  lemma CellOneLine(sort: Sorter, hw: set<string>)
    requires sort.Lawful() && forall h :: h in hw ==> OneLine(h)
    ensures OneLine(Cell(sort, hw))
  {
    hide Quoted, OneLine;
    assert sort.Lists(hw);
    HeadCellsClean();
    CleanIsOneLine(DASH);
    if hw != {} {
      var names := sort.list(hw);
      forall k | 0 <= k < |names|
        ensures OneLine(names[k])
      {
        assert names[k] in hw;
      }
      QuotedOneLine(names);
    }
  }

  lemma {:induction false} OwedOneLine(sort: Sorter, rows: seq<Row>, h: string)
    requires Rows(rows) && forall k :: 0 <= k < |rows| ==> OneLine(CellsOf(sort, rows[k])[2])
    requires h in Owed(sort, rows)
    ensures OneLine(h)
  {
    hide OneLine, Ticked, CellsOf;
    var l := |rows| - 1;
    if h in Ticked(CellsOf(sort, rows[l])[2]) {
      TickedOneLine(CellsOf(sort, rows[l])[2], h);
    } else {
      OwedOneLine(sort, rows[..l], h);
    }
  }

  /** The marker, the two headings and the owed row, whatever it lists. */
  lemma HeadReadsEmpty(sort: Sorter, union: set<string>)
    requires sort.Lawful() && OneLine(Cell(sort, union))
    ensures var head := HeadLines(sort, union);
            ParseLines(head) == [] && forall k :: 0 <= k < |head| ==> OneLine(head[k])
  {
    hide ParseLine, ParseLines, Bars, OneLine, Cell;
    MarkerText();
    MarkerLine();
    HeadingLines();
    OwedLine(sort, union);
    FourLines(MARKER, Bars(HEADER_CELLS), Bars(SEP_CELLS), Bars([UNION_LABEL, DASH, Cell(sort, union), DASH]));
  }

  /** Clean rows that survive, and below them one row with a bar in a cell: only the clean ones are read. */
  lemma LastRowLost(sort: Sorter, kept: seq<Row>, r: Row, k: nat)
    requires sort.Lawful() && Rows(kept) && CleanRows(sort, kept) && AllSurvive(sort, kept)
    requires forall j :: 0 <= j < |kept| ==> kept[j].Parsed?
    requires (r.Parsed? ==> |r.cells| == 4) && k < 4 && !NoBar(CellsOf(sort, r)[k])
    requires forall j :: 0 <= j < 4 ==> OneLine(CellsOf(sort, r)[j])
    ensures Parse(Rendered(sort, kept + [r])) == kept
  {
    hide ParseLine, ParseLines, Bars, OneLine, NoBar, CellsOf, RenderRow, Rendered, Owed, Cell, Parse, SplitLines;
    hide Unlines, TableLines, HeadLines, Reread, Survives, CleanCells, ParseRow;
    var rows := kept + [r];
    var union := Owed(sort, rows);
    RowsOfKept(sort, kept, r);
    forall h | h in union
      ensures OneLine(h)
    {
      OwedOneLine(sort, rows, h);
    }
    CellOneLine(sort, union);
    var head := HeadLines(sort, union);
    HeadReadsEmpty(sort, union);
    RowLines(sort, head, kept);
    var front := seq(|kept|, j requires 0 <= j < |kept| => RenderRow(sort, kept[j]));
    RowText(sort, r);
    BarsOneLine(CellsOf(sort, r));
    BarInCellLosesRow(CellsOf(sort, r), k);
    ParseSnoc(head + front, RenderRow(sort, r));
    NoRow(RenderRow(sort, r));
    LinesOf(sort, union, kept, r);
    RereadKept(sort, kept);
    RenderedText(sort, rows);
    SplitUnlines(head + front + [RenderRow(sort, r)]);
    ParsedText(Rendered(sort, rows));
  }

  lemma RowsOfKept(sort: Sorter, kept: seq<Row>, r: Row)
    requires Rows(kept) && CleanRows(sort, kept) && (r.Parsed? ==> |r.cells| == 4) && OneLine(CellsOf(sort, r)[2])
    ensures Rows(kept + [r]) && forall j :: 0 <= j < |kept| + 1 ==> OneLine(CellsOf(sort, (kept + [r])[j])[2])
  {
    hide CellsOf;
    forall j | 0 <= j < |kept|
      ensures OneLine(CellsOf(sort, (kept + [r])[j])[2])
    {
      assert (kept + [r])[j] == kept[j] && CleanCells(CellsOf(sort, kept[j]));
    }
  }

  lemma RowText(sort: Sorter, r: Row)
    requires r.Parsed? ==> |r.cells| == 4
    ensures RenderRow(sort, r) == Bars(CellsOf(sort, r))
  {
  }

  lemma NoRow(line: string)
    requires ParseLine(line) == None
    ensures ParseRow(line) == []
  {
  }

  lemma LinesOf(sort: Sorter, union: set<string>, kept: seq<Row>, r: Row)
    requires Rows(kept) && (r.Parsed? ==> |r.cells| == 4)
    ensures var front := seq(|kept|, j requires 0 <= j < |kept| => RenderRow(sort, kept[j]));
            Rows(kept + [r]) && TableLines(sort, union, kept + [r])
                == HeadLines(sort, union) + front + [RenderRow(sort, r)]
  {
    hide RenderRow, HeadLines;
  }

  lemma RereadKept(sort: Sorter, kept: seq<Row>)
    requires Rows(kept) && AllSurvive(sort, kept) && forall j :: 0 <= j < |kept| ==> kept[j].Parsed?
    ensures Reread(sort, kept) == kept
  {
    hide Survives;
    RereadSurvivors(sort, kept);
  }

  lemma RenderedText(sort: Sorter, rows: seq<Row>)
    requires Rows(rows)
    ensures Rendered(sort, rows) == Unlines(TableLines(sort, Owed(sort, rows), rows))
  {
  }

  lemma ParsedText(body: string)
    ensures Parse(body) == ParseLines(SplitLines(body))
  {
  }

  /** A merge with a bar in some cell drops its PR: neither its own row nor the PR's earlier one is read again. */
  lemma LostMerge(sort: Sorter, body: string, m: Merge)
    requires sort.Lawful() && TouchesKernels(m) && AllSurvive(sort, Parse(body))
    requires LineMerge(sort, m) && !CleanCells(CellsOf(sort, RowFor(m)))
    ensures Parse(AfterMerge(sort, body, m)) == Without(Parse(body), m.pr)
  {
    hide *;
    var kept, r := Without(Parse(body), m.pr), RowFor(m);
    ParsedRowsClean(sort, body);
    WithoutKeeps(sort, Parse(body), m.pr);
    LineMergeBar(sort, m);
    LineMergeCells(sort, m);
    var k :| 0 <= k < 4 && !NoBar(CellsOf(sort, r)[k]);
    LastRowLost(sort, kept, r, k);
    RenderedAfter(sort, body, m);
    UpsertText(Parse(body), r);
  }

  lemma LineMergeCells(sort: Sorter, m: Merge)
    requires LineMerge(sort, m)
    ensures forall k :: 0 <= k < 4 ==> OneLine(CellsOf(sort, RowFor(m))[k])
  {
  }

  lemma UpsertText(rows: seq<Row>, r: Row)
    requires Rows(rows) && r.Fresh?
    ensures Upsert(rows, r) == Without(rows, r.pr) + [r]
  {
  }

  /** A hardware whose name holds a bar. */
  const BARRED: Merge := Merge("#1", [Path("kernels/a.cu", Some("a|b"), [])], {})

  lemma BarredReach()
    ensures KernelPaths(BARRED.paths) == {"kernels/a.cu"} && Reached(BARRED.paths) == {"a|b"}
    ensures TouchesKernels(BARRED) && OwedBy(BARRED) == {"a|b"}
  {
    var p := BARRED.paths[0];
    assert IsKernel(p.path) && HardwareOf(p) == {"a|b"};
    assert BARRED.paths == [p];
    assert p in BARRED.paths && "a|b" in HardwareOf(p);
    assert "kernels/a.cu" in KernelPaths(BARRED.paths) && "a|b" in Reached(BARRED.paths);
  }

  lemma BarredText()
    ensures GoodText("kernels/a.cu") && CleanCell("#1") && !NoBar("a|b") && OneLine("a|b")
  {
    var h := "a|b";
    assert h[0] == 'a' && h[1] == '|' && h[2] == 'b' && |h| == 3;
  }

  lemma BarredCells(sort: Sorter)
    requires sort.Lawful()
    ensures LineMerge(sort, BARRED) && !CleanCells(CellsOf(sort, RowFor(BARRED)))
  {
    hide KernelPaths, Reached, Condense, Cell, Shown;
    BarredReach();
    assert {"a|b"} - {} == {"a|b"} && {"a|b"} * {} == {};
    assert RowFor(BARRED) == Fresh("#1", {"kernels/a.cu"}, {"a|b"}, {});
    var cs := CellsOf(sort, RowFor(BARRED));
    assert cs == ["#1", Condense(sort, {"kernels/a.cu"}), Cell(sort, {"a|b"}), Cell(sort, {})];
    BarredText();
    ShownGood(sort, {"kernels/a.cu"});
    CondenseClean(sort, {"kernels/a.cu"});
    CellOneLine(sort, {"a|b"});
    CellOneLine(sort, {});
    CellClean(sort, {"a|b"});
    assert "a|b" in {"a|b"} && !GoodText("a|b") && !CleanCell(cs[2]);
    assert OneLine(cs[0]) && OneLine(cs[1]) && OneLine(cs[2]) && OneLine(cs[3]);
  }

  /** Recorded into an empty table, it owes a hardware, and the next parse finds no row at all. */
  lemma BarredMergeLost(sort: Sorter)
    requires sort.Lawful()
    ensures TouchesKernels(BARRED) && OwedBy(BARRED) == {"a|b"} && PrRef(BARRED.pr)
    ensures Parse(AfterMerge(sort, "", BARRED)) == []
  {
    hide Parse, CellsOf, RowFor, CleanCells, TouchesKernels, OwedBy, AfterMerge;
    BarredReach();
    BarredCells(sort);
    EmptyTable();
    LostMerge(sort, "", BARRED);
  }

  lemma EmptyTable()
    ensures Parse("") == []
  {
    assert SplitLines("") == [];
  }

  // ------------------------------------------------------------ lawful sorters

  ghost function Listing(s: set<string>): (r: seq<string>)
    ensures |r| == |s| && forall x :: x in r <==> x in s
  {
    if s == {} then []
    else
      var x :| x in s;
      [x] + Listing(s - {x})
  }

  /** Some sorter is lawful, so what is proved of every lawful one is about something. */
  lemma LawfulSorterExists()
    ensures exists sort: Sorter :: sort.Lawful()
  {
    var sort := Sorter(s => Listing(s));
    forall s
      ensures sort.Lists(s)
    {
    }
    assert sort.Lawful();
  }
}
