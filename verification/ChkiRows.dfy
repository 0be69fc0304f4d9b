// What the table holds after any run of merges, row by row and in order.
module ChkiRows {
  import opened Text
  import opened Lines
  import opened ChkiTable
  import opened ChkiLedger
  import opened ChkiLimits

  /**
   * One merge takes the PR's old row out and puts the new one last, if it can be read; the other rows keep
   * place and text.
   */
  lemma MergeRow(sort: Sorter, body: string, m: Merge)
    requires sort.Lawful() && LineMerge(sort, m) && TouchesKernels(m) && AllSurvive(sort, Parse(body))
    ensures Parse(AfterMerge(sort, body, m)) == Without(Parse(body), m.pr) + Readable(sort, m)
    ensures AllSurvive(sort, Parse(AfterMerge(sort, body, m)))
  {
    hide *;
    var kept, r := Without(Parse(body), m.pr), RowFor(m);
    ParsedRowsClean(sort, body);
    WithoutKeeps(sort, Parse(body), m.pr);
    ReadableText(sort, m);
    if CleanCells(CellsOf(sort, r)) {
      CleanRowRead(sort, body, m);
    } else {
      LostMerge(sort, body, m);
      assert kept + [] == kept;
    }
  }

  lemma ReadableText(sort: Sorter, m: Merge)
    ensures Readable(sort, m) == if CleanCells(CellsOf(sort, RowFor(m))) then [Recorded(sort, m)] else []
  {
  }

  lemma CleanRowRead(sort: Sorter, body: string, m: Merge)
    requires sort.Lawful() && LineMerge(sort, m) && TouchesKernels(m) && AllSurvive(sort, Parse(body))
    requires CleanCells(CellsOf(sort, RowFor(m)))
    ensures Parse(AfterMerge(sort, body, m)) == Without(Parse(body), m.pr) + [Recorded(sort, m)]
    ensures AllSurvive(sort, Parse(AfterMerge(sort, body, m)))
  {
    hide Parse, Rendered, Survives, CleanCells, TouchesKernels, RowFor, Without, CellsOf, Reread;
    var kept, r := Without(Parse(body), m.pr), RowFor(m);
    var rows := Upsert(Parse(body), r);
    ParsedRowsClean(sort, body);
    WithoutKeeps(sort, Parse(body), m.pr);
    CleanSurvives(sort, m);
    assert CleanRows(sort, rows) && AllSurvive(sort, rows);
    RenderedAfter(sort, body, m);
    ParseRendered(sort, rows);
    RereadSame(sort, rows);
    SurvivorCells(sort, rows);
    IsParsed(sort, m);
    forall k | 0 <= k < |kept|
      ensures Parsed(CellsOf(sort, rows[k])) == kept[k]
    {
      assert rows[k] == kept[k] && kept[k] in Parse(body);
      ParsedCells(sort, kept[k].cells);
    }
  }

  /** A reference that starts with `#` is no heading. */
  lemma CleanSurvives(sort: Sorter, m: Merge)
    requires PrRef(m.pr) && CleanCells(CellsOf(sort, RowFor(m)))
    ensures Survives(sort, RowFor(m))
  {
    hide Condense, Cell, CleanCell, Reached, KernelPaths, Survives;
    SurvivesIff(sort, RowFor(m));
    var cs := CellsOf(sort, RowFor(m));
    assert cs[0] == m.pr && cs[0][0] == '#' && HEADER_CELLS[0][0] == 'P' && SEP_CELLS[0][0] == '-'
        && UNION_LABEL[0] == '*';
  }

  /** The starting rows whose PR no merge recorded. */
  ghost function Standing(rows: seq<Row>, ms: seq<Merge>): (r: seq<Row>)
    requires Rows(rows)
    ensures Rows(r)
  {
    if rows == [] then []
    else
      var front, last := Standing(rows[..|rows| - 1], ms), rows[|rows| - 1];
      if Untouched(ms, 0, Pr(last)) then front + [last] else front
  }

  /** What a merge leaves to be read: its row, or nothing when a bar in a cell makes it unreadable. */
  ghost function Readable(sort: Sorter, m: Merge): (rows: seq<Row>)
    ensures |rows| <= 1 && Rows(rows)
    ensures forall r :: r in rows ==> r == Recorded(sort, m)
  {
    if CleanCells(CellsOf(sort, RowFor(m))) then [Recorded(sort, m)] else []
  }

  /** What the merges leave that no later merge of the same PR replaced, in the order of the merges. */
  ghost function Latest(sort: Sorter, ms: seq<Merge>): (r: seq<Row>)
    ensures Rows(r)
  {
    if ms == [] then []
    else
      var rest := Latest(sort, ms[1..]);
      if TouchesKernels(ms[0]) && Untouched(ms, 1, ms[0].pr) then Readable(sort, ms[0]) + rest else rest
  }

  lemma UntouchedSnoc(ms: seq<Merge>, m: Merge, i: nat, pr: string)
    requires i <= |ms|
    ensures Untouched(ms + [m], i, pr) <==> Untouched(ms, i, pr) && !(TouchesKernels(m) && m.pr == pr)
  {
    hide TouchesKernels;
    assert (ms + [m])[|ms|] == m && forall j :: 0 <= j < |ms| ==> (ms + [m])[j] == ms[j];
  }

  lemma {:induction false} StandingStep(rows: seq<Row>, ms: seq<Merge>, m: Merge)
    requires Rows(rows)
    ensures Standing(rows, ms + [m]) == if TouchesKernels(m) then Without(Standing(rows, ms), m.pr)
            else Standing(rows, ms)
  {
    hide TouchesKernels, Untouched, Pr;
    if rows != [] {
      var l := |rows| - 1;
      StandingStep(rows[..l], ms, m);
      UntouchedSnoc(ms, m, 0, Pr(rows[l]));
      WithoutSnoc(Standing(rows[..l], ms), rows[l], m.pr);
    }
  }

  lemma WithoutSnoc(rows: seq<Row>, r: Row, pr: string)
    requires Rows(rows) && (r.Parsed? ==> |r.cells| == 4)
    ensures Without(rows + [r], pr) == if Pr(r) == pr then Without(rows, pr) else Without(rows, pr) + [r]
  {
    assert (rows + [r])[..|rows|] == rows;
  }

  lemma {:induction false} WithoutConcat(a: seq<Row>, b: seq<Row>, pr: string)
    requires Rows(a) && Rows(b)
    ensures Without(a + b, pr) == Without(a, pr) + Without(b, pr)
  {
    hide Without, Pr;
    if b == [] {
      NoneTaken(pr);
      assert a + b == a;
    } else {
      var l := |b| - 1;
      WithoutConcat(a, b[..l], pr);
      var front, last := b[..l], b[l];
      assert b == front + [last] && a + (front + [last]) == (a + front) + [last];
      WithoutSnoc(a + front, last, pr);
      WithoutSnoc(front, last, pr);
    }
  }

  lemma WithoutReadable(sort: Sorter, m: Merge, pr: string)
    ensures Without(Readable(sort, m), pr) == if m.pr == pr then [] else Readable(sort, m)
  {
    hide CleanCells, CellsOf, RowFor;
    NoneTaken(pr);
    assert [] + [Recorded(sort, m)] == [Recorded(sort, m)];
    WithoutSnoc([], Recorded(sort, m), pr);
  }

  lemma {:induction false} LatestStep(sort: Sorter, ms: seq<Merge>, m: Merge)
    ensures Latest(sort, ms + [m])
         == if TouchesKernels(m) then Without(Latest(sort, ms), m.pr) + Readable(sort, m) else Latest(sort, ms)
  {
    hide TouchesKernels, Untouched, Readable, Without, Pr;
    var all := ms + [m];
    if ms == [] {
      assert all[1..] == [];
      assert Untouched(all, 1, m.pr) by { NothingLeft(all, m.pr); }
      NoneTaken(m.pr);
    } else {
      assert all[1..] == ms[1..] + [m] && all[0] == ms[0];
      LatestStep(sort, ms[1..], m);
      UntouchedSnoc(ms, m, 1, ms[0].pr);
      WithoutReadable(sort, ms[0], m.pr);
      WithoutConcat(Readable(sort, ms[0]), Latest(sort, ms[1..]), m.pr);
    }
  }

  lemma NothingLeft(ms: seq<Merge>, pr: string)
    ensures Untouched(ms, |ms|, pr)
  {
  }

  lemma NoneTaken(pr: string)
    ensures Without([], pr) == []
  {
  }

  lemma {:induction false} NoMerges(rows: seq<Row>)
    requires Rows(rows)
    ensures Standing(rows, []) == rows
  {
    if rows != [] {
      NoMerges(rows[..|rows| - 1]);
      NothingLeft([], Pr(rows[|rows| - 1]));
    }
  }

  /**
   * Over any sequence of merges, readable or not, the table is the untouched starting rows and then what the
   * latest merge of every other PR left.
   */
  lemma {:induction false} TableIsLatestRows(sort: Sorter, body: string, ms: seq<Merge>)
    requires sort.Lawful() && AllSurvive(sort, Parse(body)) && forall k :: 0 <= k < |ms| ==> LineMerge(sort, ms[k])
    ensures Parse(AfterMerges(sort, body, ms)) == Standing(Parse(body), ms) + Latest(sort, ms)
    ensures AllSurvive(sort, Parse(AfterMerges(sort, body, ms)))
    decreases |ms|
  {
    hide *;
    var start := Parse(body);
    if ms == [] {
      NoMerges(start);
      LatestOfNone(sort);
      NothingMerged(sort, body);
      assert start + [] == start;
    } else {
      var front, m := ms[..|ms| - 1], ms[|ms| - 1];
      assert front + [m] == ms;
      TableIsLatestRows(sort, body, front);
      var mid := AfterMerges(sort, body, front);
      LastMerged(sort, body, ms);
      var standing, latest := Standing(start, front), Latest(sort, front);
      StandingStep(start, front, m);
      LatestStep(sort, front, m);
      if TouchesKernels(m) {
        MergeRow(sort, mid, m);
        WithoutConcat(standing, latest, m.pr);
        Regroup(Without(standing, m.pr), Without(latest, m.pr), Readable(sort, m));
      } else {
        Skipped(sort, mid, m);
      }
    }
  }

  lemma Regroup(a: seq<Row>, b: seq<Row>, c: seq<Row>)
    ensures a + b + c == a + (b + c)
  {
  }

  lemma NothingMerged(sort: Sorter, body: string)
    ensures AfterMerges(sort, body, []) == body
  {
  }

  lemma LastMerged(sort: Sorter, body: string, ms: seq<Merge>)
    requires ms != []
    ensures AfterMerges(sort, body, ms) == AfterMerge(sort, AfterMerges(sort, body, ms[..|ms| - 1]), ms[|ms| - 1])
  {
    hide AfterMerge;
  }

  lemma LatestOfNone(sort: Sorter)
    ensures Latest(sort, []) == []
  {
  }

  lemma Skipped(sort: Sorter, body: string, m: Merge)
    requires !TouchesKernels(m)
    ensures AfterMerge(sort, body, m) == body
  {
  }

  /** A row is left exactly when some merge recorded it readably and no later merge of its PR came. */
  lemma {:induction false} LatestIff(sort: Sorter, ms: seq<Merge>, r: Row)
    ensures r in Latest(sort, ms)
       <==> exists i ::
              0 <= i < |ms| && TouchesKernels(ms[i]) && Untouched(ms, i + 1, ms[i].pr) && r in Readable(sort, ms[i])
  {
    hide TouchesKernels, Readable;
    if ms != [] {
      var rest := ms[1..];
      LatestIff(sort, rest, r);
      forall i | 0 <= i < |rest|
        ensures Untouched(rest, i + 1, rest[i].pr) <==> Untouched(ms, i + 2, ms[i + 1].pr)
      {
        UntouchedTail(ms, i + 1, rest[i].pr);
      }
      if i :|
        0 <= i < |rest| && TouchesKernels(rest[i]) && Untouched(rest, i + 1, rest[i].pr) && r in Readable(sort, rest[i])
      {
        assert ms[i + 1] == rest[i];
      }
      if i :| 1 <= i < |ms| && TouchesKernels(ms[i]) && Untouched(ms, i + 1, ms[i].pr) && r in Readable(sort, ms[i]) {
        assert rest[i - 1] == ms[i];
      }
    }
  }

  lemma UntouchedTail(ms: seq<Merge>, i: nat, pr: string)
    requires ms != []
    ensures Untouched(ms[1..], i, pr) <==> Untouched(ms, i + 1, pr)
  {
    hide TouchesKernels;
    if Untouched(ms[1..], i, pr) {
      forall j | i + 1 <= j < |ms| && TouchesKernels(ms[j])
        ensures ms[j].pr != pr
      {
        assert ms[1..][j - 1] == ms[j];
      }
    }
  }

  /** The last merge of a PR that touched kernels. */
  lemma {:induction false} LastOf(ms: seq<Merge>, i: nat) returns (j: nat)
    requires i < |ms| && TouchesKernels(ms[i])
    ensures i <= j < |ms| && TouchesKernels(ms[j]) && ms[j].pr == ms[i].pr && Untouched(ms, j + 1, ms[j].pr)
    decreases |ms| - i
  {
    hide TouchesKernels;
    if Untouched(ms, i + 1, ms[i].pr) {
      j := i;
    } else {
      var n :| i + 1 <= n < |ms| && TouchesKernels(ms[n]) && ms[n].pr == ms[i].pr;
      j := LastOf(ms, n);
    }
  }

  /** Of readable merges, a recorded PR never leaves the table, even when it owes nothing. */
  lemma RecordedHasRow(sort: Sorter, ms: seq<Merge>, i: nat)
    requires i < |ms| && TouchesKernels(ms[i])
    requires forall k :: 0 <= k < |ms| ==> CleanCells(CellsOf(sort, RowFor(ms[k])))
    ensures exists r :: r in Latest(sort, ms) && r.Parsed? && |r.cells| == 4 && Pr(r) == ms[i].pr
  {
    hide TouchesKernels, CellsOf, CleanCells, RowFor, Latest, Untouched, Pr;
    var j := LastOf(ms, i);
    LatestIff(sort, ms, Recorded(sort, ms[j]));
  }
}
