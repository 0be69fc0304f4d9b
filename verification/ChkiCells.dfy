// What each cell of a recorded row says, whatever was merged before and after.
module ChkiCells {
  import opened Text
  import opened Lines
  import opened ChkiTable
  import opened ChkiLedger
  import opened ChkiLimits
  import opened ChkiRows

  // ------------------------------------------------------- what a merge reaches

  predicate Contributes(p: Path, h: string)
  {
    && |p.path| >= 8 && p.path[..8] == "kernels/"
    && ((p.owner == Some(h) && h != "") || h in p.reachHw)
  }

  /** A changed path under kernels/ reaches its owner, unless that is empty, and every hardware of its scan. */
  lemma ReachedIff(paths: seq<Path>, h: string)
    ensures h in Reached(paths) <==> exists p :: p in paths && Contributes(p, h)
  {
    if p :| p in paths && Contributes(p, h) { assert IsKernel(p.path) && h in HardwareOf(p); }
    if h in Reached(paths) {
      var p :| p in paths && IsKernel(p.path) && h in HardwareOf(p);
      assert p.path[..8] == "kernels/";
    }
  }

  // --------------------------------------------------------- the third and fourth cell

  /** A good merge whose checked names can be quoted as well. */
  ghost predicate Quotable(sort: Sorter, m: Merge)
  {
    GoodMerge(sort, m) && forall h :: h in Reached(m.paths) ==> Plain(h)
  }

  /** What the row of a merge says once it is read back: the PR, what is owed and what was checked. */
  ghost predicate Says(r: Row, m: Merge)
  {
    && r.Parsed? && |r.cells| == 4 && r.cells[0] == m.pr
    && (forall h :: h in Ticked(r.cells[2]) <==> h in Reached(m.paths) && h !in m.checked)
    && (forall h :: h in Ticked(r.cells[3]) <==> h in Reached(m.paths) && h in m.checked)
  }

  lemma RecordedSays(sort: Sorter, m: Merge)
    requires sort.Lawful() && Quotable(sort, m)
    ensures Says(Recorded(sort, m), m)
  {
    hide Cell, Condense, Ticked, Reached, KernelPaths, GoodText, Plain, Shown;
    var r := RowFor(m);
    CellTicked(sort, r.notChecked);
    CellTicked(sort, r.checked);
    IsParsed(sort, m);
  }

  /** Owed and checked are what the merge reaches, with nothing in both. */
  lemma CellsPartition(r: Row, m: Merge)
    requires Says(r, m)
    ensures Ticked(r.cells[2]) + Ticked(r.cells[3]) == Reached(m.paths) && Ticked(r.cells[2]) !! Ticked(r.cells[3])
  {
    hide Ticked, Reached;
  }

  lemma GoodIsLine(sort: Sorter, m: Merge)
    requires sort.Lawful() && GoodMerge(sort, m)
    ensures LineMerge(sort, m) && CleanCells(CellsOf(sort, RowFor(m)))
  {
    FreshRowIff(sort, m);
    hide CellsOf, RowFor, GoodMerge, Survives, Ticked, OwedBy, Trimmed, NoBar, OneLine;
    CleanLines(CellsOf(sort, RowFor(m)));
    PrOfGood(sort, m);
  }

  lemma PrOfGood(sort: Sorter, m: Merge)
    requires GoodMerge(sort, m)
    ensures PrRef(m.pr)
  {
  }

  lemma CleanLines(cs: seq<string>)
    requires CleanCells(cs)
    ensures forall k :: 0 <= k < 4 ==> OneLine(cs[k])
  {
    hide NoBar, Trimmed, OneLine;
    assert CleanCell(cs[0]) && CleanCell(cs[1]) && CleanCell(cs[2]) && CleanCell(cs[3]);
  }

  /**
   * After any sequence of such merges, every row left by them says what the latest merge of its PR owes and
   * what it checked, and every recorded PR has one.
   */
  lemma LatestSays(sort: Sorter, ms: seq<Merge>)
    requires sort.Lawful() && forall k :: 0 <= k < |ms| ==> Quotable(sort, ms[k])
    ensures forall r :: r in Latest(sort, ms) ==>
              exists i :: 0 <= i < |ms| && TouchesKernels(ms[i]) && Untouched(ms, i + 1, ms[i].pr) && Says(r, ms[i])
    ensures forall i :: 0 <= i < |ms| && TouchesKernels(ms[i]) && Untouched(ms, i + 1, ms[i].pr) ==>
              exists r :: r in Latest(sort, ms) && Says(r, ms[i])
  {
    hide Latest, TouchesKernels, Untouched, Says, Quotable;
    forall r | r in Latest(sort, ms)
      ensures exists i :: 0 <= i < |ms| && TouchesKernels(ms[i]) && Untouched(ms, i + 1, ms[i].pr) && Says(r, ms[i])
    {
      LatestIff(sort, ms, r);
      var i :| 0 <= i < |ms| && TouchesKernels(ms[i]) && Untouched(ms, i + 1, ms[i].pr) && r in Readable(sort, ms[i]);
      RecordedSays(sort, ms[i]);
    }
    forall i | 0 <= i < |ms| && TouchesKernels(ms[i]) && Untouched(ms, i + 1, ms[i].pr)
      ensures exists r :: r in Latest(sort, ms) && Says(r, ms[i])
    {
      RecordedSays(sort, ms[i]);
      QuotableReadable(sort, ms[i]);
      LatestIff(sort, ms, Recorded(sort, ms[i]));
    }
  }

  lemma QuotableReadable(sort: Sorter, m: Merge)
    requires sort.Lawful() && Quotable(sort, m)
    ensures Recorded(sort, m) in Readable(sort, m) && LineMerge(sort, m)
  {
    GoodIsLine(sort, m);
  }

  // ------------------------------------------------------------- the second cell

  /** The directory of a path, by the last slash. */
  lemma {:induction false} ParentLaw(d: string, f: string)
    requires '/' !in f
    ensures Parent(d + "/" + f) == d && Parent(f) == "."
    decreases |f|
  {
    var p := d + "/" + f;
    if f == "" {
      assert p[..|p| - 1] == d;
    } else {
      ParentLaw(d, f[..|f| - 1]);
      assert p[..|p| - 1] == d + "/" + f[..|f| - 1];
    }
  }

  lemma NoTicks(names: seq<string>, rest: string)
    requires '`' !in rest && forall k :: 0 <= k < |names| ==> Plain(names[k])
    ensures Ticked(Quoted(names) + rest) == set h | h in names
  {
    hide Ticked, Quoted, Plain;
    TickedQuotedThen("", names, rest);
    assert "" + Quoted(names) + rest == Quoted(names) + rest;
  }

  lemma {:induction false} TickedQuotedThen(a: string, names: seq<string>, rest: string)
    requires '`' !in a && '`' !in rest && forall k :: 0 <= k < |names| ==> Plain(names[k])
    ensures Ticked(a + Quoted(names) + rest) == set h | h in names
    decreases |names|
  {
    hide Ticked;
    if names == [] {
      assert a + Quoted(names) + rest == a + rest;
      TickedStep(a + rest, "x", "");
    } else {
      assert Plain(names[0]);
      var tail := names[1..];
      var more := (if tail == [] then "" else ", " + Quoted(tail)) + rest;
      QuotedCons(a, names);
      assert a + Quoted(names) + rest == a + "`" + names[0] + "`" + more;
      TickedStep(a, names[0], more);
      if tail == [] {
        assert more == rest;
        TickedStep(rest, "x", "");
      } else {
        TickedQuotedThen(", ", tail, rest);
        assert more == ", " + Quoted(tail) + rest;
      }
      SetCons(names);
    }
  }

  /** How many files, and of directories beyond six how many, as the cell ends. */
  function Ending(files: nat, dirs: nat): string
  {
    (if dirs <= 6 then "`" else " +" + Decimal(dirs - 6) + " more") + " (" + Decimal(files)
        + (if files == 1 then " file)" else " files)")
  }

  lemma DecimalNoTick(n: nat)
    ensures '`' !in Decimal(n)
  {
  }

  /** The first six directories in order, quoted; how many more there are; and the number of changed paths. */
  lemma CondenseLaw(sort: Sorter, paths: set<string>)
    requires sort.Lawful() && paths != {} && forall p :: p in paths ==> Plain(Parent(p))
    ensures var s, dirs := Condense(sort, paths), set p | p in paths :: Parent(p);
      && EndsWith(s, Ending(|paths|, |dirs|))
      && Ticked(s) == (set k | 0 <= k < 6 && k < |sort.list(dirs)| :: sort.list(dirs)[k])
      && (|dirs| <= 6 ==> Ticked(s) == dirs)
  {
    hide Ticked, Quoted, Parent, Plain, EndsWith, Ending, Decimal;
    var dirs := set p | p in paths :: Parent(p);
    var list := sort.list(dirs);
    assert sort.Lists(dirs);
    var names, rest := Shown(sort, paths), Rest(|paths|, |dirs|);
    CondenseParts(sort, paths);
    RestNoTick(|paths|, |dirs|);
    NoTicks(names, rest);
    assert (set h | h in names) == set k | 0 <= k < 6 && k < |list| :: list[k];
    QuotedEnds(names);
    Ends(Quoted(names), |paths|, |dirs|);
  }

  /** What follows the quoted directories. */
  function Rest(files: nat, dirs: nat): string
  {
    (if dirs > 6 then " +" + Decimal(dirs - 6) + " more" else "") + " (" + Decimal(files) + " file"
    + (if files != 1 then "s" else "") + ")"
  }

  lemma RestNoTick(files: nat, dirs: nat)
    ensures '`' !in Rest(files, dirs)
  {
    hide Decimal;
    if dirs > 6 { DecimalNoTick(dirs - 6); }
    DecimalNoTick(files);
  }

  lemma CondenseParts(sort: Sorter, paths: set<string>)
    requires sort.Lawful() && paths != {} && forall p :: p in paths ==> Plain(Parent(p))
    ensures var dirs := set p | p in paths :: Parent(p);
      && Directories(sort, paths) == sort.list(dirs) && sort.Lists(dirs)
      && Condense(sort, paths) == Quoted(Shown(sort, paths)) + Rest(|paths|, |dirs|)
    ensures Shown(sort, paths) != [] && forall k :: 0 <= k < |Shown(sort, paths)| ==> Plain(Shown(sort, paths)[k])
  {
    hide Quoted, Parent, Plain, Decimal;
    var dirs := set p | p in paths :: Parent(p);
    var list := sort.list(dirs);
    assert sort.Lists(dirs);
    var p :| p in paths;
    assert Parent(p) in dirs && Parent(p) in list;
    Listed(sort, paths);
    var names := Shown(sort, paths);
    forall k | 0 <= k < |names|
      ensures Plain(names[k])
    {
      assert names[k] == list[k] && list[k] in dirs;
    }
    assert Condense(sort, paths) == Quoted(names) + Rest(|paths|, |dirs|);
  }

  lemma Listed(sort: Sorter, paths: set<string>)
    ensures Directories(sort, paths) == sort.list(set p | p in paths :: Parent(p))
  {
    hide Parent;
    assert Folders(paths) == set p | p in paths :: Parent(p);
  }

  lemma Ends(quoted: string, files: nat, dirs: nat)
    requires quoted != "" && quoted[|quoted| - 1] == '`'
    ensures EndsWith(quoted + Rest(files, dirs), Ending(files, dirs))
  {
    hide Decimal;
    var s, e := quoted + Rest(files, dirs), Ending(files, dirs);
    if dirs > 6 {
      assert e == Rest(files, dirs);
    } else {
      assert e == "`" + Rest(files, dirs);
    }
    assert s[|s| - |e|..] == e;
  }
}
