// The CHKI reach table: one row per merged PR, and a first row that owes every unchecked hardware.
module ChkiTable {
  import opened Text
  import opened Lines

  const MARKER: string := "<!-- chki-reach-table:v1 -->"
  const HEADER_CELLS: seq<string> :=
    ["PR", "relevant kernels", "affected hardware (not checked)", "affected hardware (checked)"]
  const SEP_CELLS: seq<string> := ["---", "---", "---", "---"]
  const UNION_LABEL: string := "**owed a manual check**"
  const DASH: string := "\U{2014}"

  // ------------------------------------------------------------ a merge's row

  /** One changed path of the scan's report. */
  datatype Path = Path(path: string, owner: Option<string>, reachHw: seq<string>)

  datatype Merge = Merge(pr: string, paths: seq<Path>, checked: set<string>)

  predicate IsKernel(p: string) { "kernels/" <= p }

  /** An absent or empty owner adds nothing. */
  function HardwareOf(p: Path): set<string>
  {
    (if p.owner.Some? && p.owner.value != "" then {p.owner.value} else {}) + set h | h in p.reachHw
  }

  ghost function KernelPaths(paths: seq<Path>): set<string>
  {
    set p | p in paths && IsKernel(p.path) :: p.path
  }

  ghost function Reached(paths: seq<Path>): set<string>
  {
    set p, h | p in paths && IsKernel(p.path) && h in HardwareOf(p) :: h
  }

  method ReachOf(paths: seq<Path>) returns (kernels: set<string>, hw: set<string>)
    ensures kernels == KernelPaths(paths) && hw == Reached(paths)
  {
    kernels, hw := {}, {};
    for n := 0 to |paths|
      invariant kernels == KernelPaths(paths[..n]) && hw == Reached(paths[..n])
    {
      assert paths[..n + 1] == paths[..n] + [paths[n]];
      if IsKernel(paths[n].path) {
        kernels := kernels + {paths[n].path};
        hw := hw + HardwareOf(paths[n]);
      }
    }
    assert paths[..|paths|] == paths;
  }

  /** `sorted`, as a function that lists a set's elements. */
  datatype Sorter = Sorter(list: set<string> -> seq<string>) {
    ghost predicate Lawful() { forall s :: Lists(s) }

    ghost predicate Lists(s: set<string>)
    {
      |list(s)| == |s| && forall x :: x in list(s) <==> x in s
    }
  }

  function Quote(h: string): string { "`" + h + "`" }

  function Quoted(names: seq<string>): string
  {
    if names == [] then ""
    else if |names| == 1 then Quote(names[0])
    else Quote(names[0]) + ", " + Quoted(names[1..])
  }

  function Cell(sort: Sorter, hw: set<string>): string
  {
    if hw == {} then DASH else Quoted(sort.list(hw))
  }

  /** The directory of a path: the text before its last slash. */
  function Parent(p: string): string
  {
    if p == "" then "." else if p[|p| - 1] == '/' then p[..|p| - 1] else Parent(p[..|p| - 1])
  }

  function Folders(paths: set<string>): set<string> { set p | p in paths :: Parent(p) }

  function Directories(sort: Sorter, paths: set<string>): seq<string> { sort.list(Folders(paths)) }

  /** The directories that a cell names. */
  function Shown(sort: Sorter, paths: set<string>): seq<string>
  {
    var dirs := Directories(sort, paths);
    if |dirs| > 6 then dirs[..6] else dirs
  }

  function Condense(sort: Sorter, paths: set<string>): string
  {
    if paths == {} then DASH
    else
      var more := |Directories(sort, paths)| - 6;
      var tail := if more > 0 then " +" + Decimal(more) + " more" else "";
      Quoted(Shown(sort, paths)) + tail + " (" + Decimal(|paths|) + " file" + (if |paths| != 1 then "s" else "") + ")"
  }

  // ------------------------------------------------------------------ the table

  /** A row read back from a comment, or one computed for a merge. */
  datatype Row = Parsed(cells: seq<string>)
      | Fresh(pr: string, paths: set<string>, notChecked: set<string>, checked: set<string>)

  function Pr(r: Row): string
    requires r.Parsed? ==> |r.cells| == 4
  {
    if r.Parsed? then r.cells[0] else r.pr
  }

  function CellsOf(sort: Sorter, r: Row): (cs: seq<string>)
    requires r.Parsed? ==> |r.cells| == 4
    ensures |cs| == 4
  {
    match r
    case Parsed(cells) => cells
    case Fresh(pr, paths, notChecked, checked) =>
      [pr, Condense(sort, paths), Cell(sort, notChecked), Cell(sort, checked)]
  }

  function JoinBars(cs: seq<string>): string
    requires |cs| >= 1
  {
    if |cs| == 1 then cs[0] else cs[0] + " | " + JoinBars(cs[1..])
  }

  function Bars(cs: seq<string>): string
    requires |cs| >= 1
  {
    "| " + JoinBars(cs) + " |"
  }

  predicate Rows(rows: seq<Row>) { forall k :: 0 <= k < |rows| && rows[k].Parsed? ==> |rows[k].cells| == 4 }

  function RenderRow(sort: Sorter, r: Row): string
    requires r.Parsed? ==> |r.cells| == 4
  {
    Bars(CellsOf(sort, r))
  }

  function Owed(sort: Sorter, rows: seq<Row>): set<string>
    requires Rows(rows)
  {
    if rows == [] then {}
    else Owed(sort, rows[..|rows| - 1]) + Ticked(CellsOf(sort, rows[|rows| - 1])[2])
  }

  /** Read from the cells, not from a running total. */
  method UnionNotChecked(sort: Sorter, rows: seq<Row>) returns (hw: set<string>)
    requires Rows(rows)
    ensures hw == Owed(sort, rows)
  {
    hide CellsOf, Ticked;
    hw := {};
    for n := 0 to |rows|
      invariant hw == Owed(sort, rows[..n])
    {
      assert rows[..n + 1][..n] == rows[..n];
      hw := hw + Ticked(CellsOf(sort, rows[n])[2]);
    }
    assert rows[..|rows|] == rows;
  }

  function HeadLines(sort: Sorter, union: set<string>): (lines: seq<string>)
    ensures |lines| == 4
  {
    [MARKER, Bars(HEADER_CELLS), Bars(SEP_CELLS), Bars([UNION_LABEL, DASH, Cell(sort, union), DASH])]
  }

  function TableLines(sort: Sorter, union: set<string>, rows: seq<Row>): (lines: seq<string>)
    requires Rows(rows)
    ensures |lines| == 4 + |rows|
  {
    HeadLines(sort, union) + seq(|rows|, k requires 0 <= k < |rows| => RenderRow(sort, rows[k]))
  }

  function Rendered(sort: Sorter, rows: seq<Row>): string
    requires Rows(rows)
  {
    Unlines(TableLines(sort, Owed(sort, rows), rows))
  }

  method RenderTable(sort: Sorter, rows: seq<Row>) returns (body: string)
    requires Rows(rows)
    ensures body == Rendered(sort, rows)
  {
    var union := UnionNotChecked(sort, rows);
    body := Unlines(TableLines(sort, union, rows));
  }

  // ------------------------------------------------------------------- parsing

  function LineCells(line: string): seq<string>
  {
    var parts := SplitBar(StripBy(line, IsBar));
    seq(|parts|, k requires 0 <= k < |parts| => Strip(parts[k]))
  }

  predicate Heading(line: string) { line == Bars(HEADER_CELLS) || line == Bars(SEP_CELLS) }

  /** The stripped cells of a data line; None for any other line. */
  function ParseLine(raw: string): (r: Option<seq<string>>)
    ensures r.Some? ==> |r.value| == 4 && r.value[0] != UNION_LABEL
  {
    var line := Strip(raw);
    if !("|" <= line) || Heading(line) then None
    else
      var cells := LineCells(line);
      if |cells| != 4 || cells[0] == UNION_LABEL then None else Some(cells)
  }

  /** The row of a line, if it is one. */
  function ParseRow(raw: string): (rows: seq<Row>)
    ensures |rows| <= 1 && forall k :: 0 <= k < |rows| ==> rows[k].Parsed? && |rows[k].cells| == 4
  {
    var cells := ParseLine(raw);
    if cells.Some? then [Parsed(cells.value)] else []
  }

  function ParseLines(lines: seq<string>): (rows: seq<Row>)
    ensures Rows(rows) && forall k :: 0 <= k < |rows| ==> rows[k].Parsed?
  {
    if lines == [] then [] else ParseLines(lines[..|lines| - 1]) + ParseRow(lines[|lines| - 1])
  }

  function Parse(body: string): (rows: seq<Row>)
    ensures Rows(rows) && forall k :: 0 <= k < |rows| ==> rows[k].Parsed?
  {
    ParseLines(SplitLines(body))
  }

  method ParseTable(body: string) returns (rows: seq<Row>)
    ensures rows == Parse(body)
  {
    hide SplitLines, Strip, Heading, LineCells;
    rows := [];
    var lines := SplitLines(body);
    for n := 0 to |lines|
      invariant rows == ParseLines(lines[..n])
    {
      assert lines[..n + 1][..n] == lines[..n];
      var line := Strip(lines[n]);
      if !("|" <= line) || Heading(line) { continue; }
      var cells := LineCells(line);
      if |cells| != 4 || cells[0] == UNION_LABEL { continue; }
      rows := rows + [Parsed(cells)];
    }
    assert lines[..|lines|] == lines;
  }

  function Upsert(rows: seq<Row>, new': Row): (r: seq<Row>)
    requires Rows(rows) && new'.Fresh?
    ensures Rows(r)
  {
    Without(rows, new'.pr) + [new']
  }

  function Without(rows: seq<Row>, pr: string): (r: seq<Row>)
    requires Rows(rows)
    ensures Rows(r) && forall k :: 0 <= k < |r| ==> r[k] in rows && Pr(r[k]) != pr
    ensures forall x :: x in rows && (x.Parsed? ==> |x.cells| == 4) && Pr(x) != pr ==> x in r
  {
    if rows == [] then []
    else
      var front, last := Without(rows[..|rows| - 1], pr), rows[|rows| - 1];
      if Pr(last) == pr then front else front + [last]
  }

  // --------------------------------------------------- reading a rendered line

  /** A cell that survives printing and parsing: one line, no bar, nothing to strip. */
  predicate CleanCell(c: string) { OneLine(c) && NoBar(c) && Trimmed(c) }

  predicate CleanCells(cs: seq<string>) { |cs| == 4 && forall k :: 0 <= k < 4 ==> CleanCell(cs[k]) }

  function Pad(c: string): string { " " + c + " " }

  function Pads(cs: seq<string>): (ps: seq<string>)
    ensures |ps| == |cs|
  {
    seq(|cs|, k requires 0 <= k < |cs| => Pad(cs[k]))
  }

  lemma PadClean(c: string)
    requires CleanCell(c)
    ensures NoBar(Pad(c)) && OneLine(Pad(c)) && Strip(Pad(c)) == c
  {
    hide StripBy;
    StripPadded(c, ' ', IsSpace);
    assert Pad(c) == [' '] + c + [' '];
  }

  lemma PadJoin(a: string, rest: string)
    ensures Pad(a + " | " + rest) == Pad(a) + "|" + Pad(rest)
  {
  }

  /** Splitting the padded join at its bars gives the padded cells. */
  lemma {:induction false} SplitJoined(cs: seq<string>)
    requires |cs| >= 1 && forall k :: 0 <= k < |cs| ==> CleanCell(cs[k])
    ensures SplitBar(Pad(JoinBars(cs))) == Pads(cs) && OneLine(JoinBars(cs))
  {
    hide SplitBar, Pad, OneLine, NoBar, Trimmed;
    PadClean(cs[0]);
    CleanIsOneLine(cs[0]);
    if |cs| == 1 {
      SplitBarStep(Pad(cs[0]), "");
    } else {
      SplitJoined(cs[1..]);
      PadJoin(cs[0], JoinBars(cs[1..]));
      SplitBarStep(Pad(cs[0]), Pad(JoinBars(cs[1..])));
      assert Pads(cs) == [Pad(cs[0])] + Pads(cs[1..]);
      SeparatorIsOneLine();
      OneLineConcat(cs[0], " | ");
      OneLineConcat(cs[0] + " | ", JoinBars(cs[1..]));
    }
  }

  lemma CleanIsOneLine(c: string)
    requires CleanCell(c)
    ensures OneLine(c)
  {
  }

  lemma SeparatorIsOneLine()
    ensures OneLine(" | ")
  {
  }

  lemma OneLineConcat(a: string, b: string)
    requires OneLine(a) && OneLine(b)
    ensures OneLine(a + b)
  {
  }

  lemma BarsShape(cs: seq<string>)
    requires |cs| >= 1
    ensures Bars(cs) == "|" + Pad(JoinBars(cs)) + "|"
    ensures var p := Pad(JoinBars(cs)); p[0] == ' ' && p[|p| - 1] == ' '
  {
    hide JoinBars;
  }

  lemma CellsOfBars(cs: seq<string>)
    requires |cs| >= 1 && forall k :: 0 <= k < |cs| ==> CleanCell(cs[k])
    ensures LineCells(Bars(cs)) == cs
  {
    hide Bars, JoinBars, SplitBar, CleanCell, Pad;
    BarsShape(cs);
    StripPadded(Pad(JoinBars(cs)), '|', IsBar);
    SplitJoined(cs);
    forall k | 0 <= k < |cs|
      ensures Strip(Pad(cs[k])) == cs[k]
    {
      PadClean(cs[k]);
    }
  }

  /** A printed line of clean cells parses to those cells, unless it is printed like the header or separator. */
  lemma ParseBars(cs: seq<string>)
    requires CleanCells(cs)
    ensures OneLine(Bars(cs))
    ensures ParseLine(Bars(cs)) == if Heading(Bars(cs)) || cs[0] == UNION_LABEL then None else Some(cs)
  {
    hide JoinBars, SplitBar, LineCells, Heading, CleanCell;
    CellsOfBars(cs);
    SplitJoined(cs);
    BarsShape(cs);
    assert OneLine(Bars(cs));
    StripKeeps(Bars(cs), IsSpace);
    assert "|" <= Bars(cs);
  }

  lemma StripOneLine(s: string, drop: char -> bool)
    ensures OneLine(s) ==> OneLine(StripBy(s, drop))
    ensures NoBar(s) ==> NoBar(StripBy(s, drop))
  {
    StripPiece(s, drop);
  }

  /** Whatever text a line has, its cells are clean. */
  lemma ParsedIsClean(raw: string)
    requires OneLine(raw) && ParseLine(raw).Some?
    ensures CleanCells(ParseLine(raw).value)
  {
    hide StripBy, SplitBar, Heading, OneLine, NoBar;
    var line := Strip(raw);
    StripOneLine(raw, IsSpace);
    StripOneLine(line, IsBar);
    var parts := SplitBar(StripBy(line, IsBar));
    forall k | 0 <= k < |parts|
      ensures CleanCell(Strip(parts[k]))
    {
      StripOneLine(parts[k], IsSpace);
      StripPiece(parts[k], IsSpace);
    }
  }

  ghost predicate CleanRows(sort: Sorter, rows: seq<Row>)
    requires Rows(rows)
  {
    forall k :: 0 <= k < |rows| ==> CleanCells(CellsOf(sort, rows[k]))
  }

  lemma {:induction false} ParseLinesClean(sort: Sorter, lines: seq<string>)
    requires forall k :: 0 <= k < |lines| ==> OneLine(lines[k])
    ensures CleanRows(sort, ParseLines(lines))
  {
    hide ParseLine, CleanCells;
    if lines != [] {
      ParseLinesClean(sort, lines[..|lines| - 1]);
      if ParseLine(lines[|lines| - 1]).Some? { ParsedIsClean(lines[|lines| - 1]); }
    }
  }

  /** Printed like a heading line, a row is not read back. */
  predicate Survives(sort: Sorter, r: Row)
    requires r.Parsed? ==> |r.cells| == 4
  {
    !Heading(RenderRow(sort, r)) && CellsOf(sort, r)[0] != UNION_LABEL
  }

  function Reread(sort: Sorter, rows: seq<Row>): (r: seq<Row>)
    requires Rows(rows)
    ensures Rows(r)
  {
    if rows == [] then []
    else
      var front, last := Reread(sort, rows[..|rows| - 1]), rows[|rows| - 1];
      if Survives(sort, last) then front + [Parsed(CellsOf(sort, last))] else front
  }

  // -------------------------------------------------------------- recording a merge

  ghost function RowFor(m: Merge): (r: Row)
    ensures r.Fresh? && r.pr == m.pr
  {
    var hw := Reached(m.paths);
    Fresh(m.pr, KernelPaths(m.paths), hw - m.checked, hw * m.checked)
  }

  ghost predicate TouchesKernels(m: Merge) { KernelPaths(m.paths) != {} }

  /** The comment after one merge; a merge without kernel paths writes nothing. */
  ghost function AfterMerge(sort: Sorter, body: string, m: Merge): string
  {
    if TouchesKernels(m) then Rendered(sort, Upsert(Parse(body), RowFor(m))) else body
  }

  /** None where the source refuses: the comment does not carry the table's marker. */
  method Record(sort: Sorter, body: string, m: Merge) returns (out: Option<string>)
    ensures out == if TouchesKernels(m) && !Contains(body, MARKER) then None else Some(AfterMerge(sort, body, m))
  {
    hide Contains, Parse, Rendered, Reached, KernelPaths;
    var kernels, hw := ReachOf(m.paths);
    if kernels == {} { return Some(body); }
    if !Contains(body, MARKER) { return None; }
    var rows := ParseTable(body);
    var row := Fresh(m.pr, kernels, hw - m.checked, hw * m.checked);
    var text := RenderTable(sort, Upsert(rows, row));
    out := Some(text);
  }
}
