// The include walk that decides which files a build target consumes.
module IncludeWalk {

  type Path = string

  /** A file and the directory its quoted includes are looked up in. */
  datatype Visit = Visit(file: Path, home: Path)

  /**
   * The file tree as the walk sees it: real paths behind symlinks, each file's quoted includes, the
   * headers staged beside the target, and lookup relative to a directory.
   */
  datatype Tree = Tree(realpath: Path -> Path, includes: Path -> seq<string>, staged: map<string, Path>,
                       join: (Path, string) -> Path, there: Path -> bool, parent: Path -> Path)

  /** The finitely many real files that an include can lead to. */
  ghost predicate Covers(tree: Tree, files: set<Path>)
  {
    && (forall name :: name in tree.staged ==> tree.realpath(tree.staged[name]) in files)
    && (forall p :: tree.there(p) ==> tree.realpath(p) in files)
  }

  /** Where one include leads, if anywhere. */
  function Resolve(tree: Tree, home: Path, inc: string): (v: seq<Visit>)
    ensures |v| <= 1
  {
    if '/' !in inc && inc in tree.staged then [Visit(tree.staged[inc], home)]
    else
      var cand := tree.join(home, inc);
      if tree.there(cand) then [Visit(cand, tree.parent(cand))] else []
  }

  function ResolveAll(tree: Tree, home: Path, incs: seq<string>): seq<Visit>
  {
    if incs == [] then [] else ResolveAll(tree, home, incs[..|incs| - 1]) + Resolve(tree, home, incs[|incs| - 1])
  }

  function Next(tree: Tree, v: Visit): seq<Visit> { ResolveAll(tree, v.home, tree.includes(v.file)) }

  lemma {:induction false} ResolvedCovered(tree: Tree, home: Path, incs: seq<string>, files: set<Path>)
    requires Covers(tree, files)
    ensures forall v :: v in ResolveAll(tree, home, incs) ==> tree.realpath(v.file) in files
  {
    if incs != [] { ResolvedCovered(tree, home, incs[..|incs| - 1], files); }
  }

  ghost predicate StackCovered(tree: Tree, stack: seq<Visit>, files: set<Path>)
  {
    forall v :: v in stack ==> tree.realpath(v.file) in files
  }

  /** The walk from a given stack: the last entry is taken, and its includes pushed unless its file was seen. */
  function Walked(tree: Tree, stack: seq<Visit>, seen: set<Path>, ghost files: set<Path>): (r: set<Path>)
    requires Covers(tree, files) && StackCovered(tree, stack, files) && seen <= files
    ensures seen <= r <= files
    decreases |files - seen|, |stack|
  {
    if stack == [] then seen
    else
      var v, rest := stack[|stack| - 1], stack[..|stack| - 1];
      var rp := tree.realpath(v.file);
      if rp in seen then Walked(tree, rest, seen, files)
      else
        ResolvedCovered(tree, v.home, tree.includes(v.file), files);
        FewerLeft(files, seen, rp);
        Walked(tree, rest + Next(tree, v), seen + {rp}, files)
  }

  lemma FewerLeft(files: set<Path>, seen: set<Path>, rp: Path)
    requires rp in files && rp !in seen
    ensures |files - (seen + {rp})| < |files - seen|
  {
    assert files - (seen + {rp}) < files - seen;
    SubsetSmaller(files - (seen + {rp}), files - seen);
  }

  lemma SubsetSmaller(a: set<Path>, b: set<Path>)
    requires a < b
    ensures |a| < |b|
  {
    assert b == a + (b - a);
    assert b - a != {};
  }

  /** The loop over one file's includes. */
  method PushIncludes(tree: Tree, v: Visit, before: seq<Visit>) returns (stack: seq<Visit>)
    ensures stack == before + Next(tree, v)
  {
    stack := before;
    var incs := tree.includes(v.file);
    assert ResolveAll(tree, v.home, incs[..0]) == [];
    hide ResolveAll;
    for n := 0 to |incs|
      invariant stack == before + ResolveAll(tree, v.home, incs[..n])
    {
      ResolveNext(tree, v.home, incs, n);
      var inc := incs[n];
      if '/' !in inc && inc in tree.staged {
        stack := stack + [Visit(tree.staged[inc], v.home)];
        continue;
      }
      var cand := tree.join(v.home, inc);
      if tree.there(cand) {
        stack := stack + [Visit(cand, tree.parent(cand))];
      }
    }
    assert incs[..|incs|] == incs;
  }

  lemma ResolveNext(tree: Tree, home: Path, incs: seq<string>, n: nat)
    requires n < |incs|
    ensures ResolveAll(tree, home, incs[..n + 1]) == ResolveAll(tree, home, incs[..n]) + Resolve(tree, home, incs[n])
  {
    hide Resolve;
    assert incs[..n + 1][..n] == incs[..n];
  }

  /** The worklist loop; it terminates because files not yet seen, then stack entries, run out. */
  method Walk(tree: Tree, source: Path, home: Path, ghost files: set<Path>) returns (seen: set<Path>)
    requires Covers(tree, files) && tree.realpath(source) in files
    ensures seen == Walked(tree, [Visit(source, home)], {}, files)
  {
    hide Covers, Next;
    var stack := [Visit(source, home)];
    seen := {};
    while stack != []
      invariant seen <= files && StackCovered(tree, stack, files)
      invariant Walked(tree, stack, seen, files) == Walked(tree, [Visit(source, home)], {}, files)
      decreases |files - seen|, |stack|
    {
      var v, rest := stack[|stack| - 1], stack[..|stack| - 1];
      stack := rest;
      var rp := tree.realpath(v.file);
      if rp !in seen {
        FewerLeft(files, seen, rp);
        NextCovered(tree, v, files);
        seen := seen + {rp};
        stack := PushIncludes(tree, v, stack);
      }
    }
  }

  lemma NextCovered(tree: Tree, v: Visit, files: set<Path>)
    requires Covers(tree, files)
    ensures forall w :: w in Next(tree, v) ==> tree.realpath(w.file) in files
  {
    ResolvedCovered(tree, v.home, tree.includes(v.file), files);
  }

  // ------------------------------------------------------------- reachability

  /** A chain of includes, each resolved from its includer. */
  ghost predicate Chain(tree: Tree, c: seq<Visit>)
  {
    c != [] && forall k :: 0 < k < |c| ==> c[k] in Next(tree, c[k - 1])
  }

  ghost predicate Reaches(tree: Tree, from: Visit, to: Visit)
  {
    exists c :: Chain(tree, c) && c[0] == from && c[|c| - 1] == to
  }

  lemma ReachesStep(tree: Tree, from: Visit, mid: Visit, to: Visit)
    requires Reaches(tree, from, mid) && to in Next(tree, mid)
    ensures Reaches(tree, from, to)
  {
    var c :| Chain(tree, c) && c[0] == from && c[|c| - 1] == mid;
    var d := c + [to];
    forall k | 0 < k < |d|
      ensures d[k] in Next(tree, d[k - 1])
    {
      assert k < |c| ==> d[k] == c[k] && d[k - 1] == c[k - 1];
    }
    assert Chain(tree, d);
  }

  /**
   * For every seen file, the visit it was first seen by: reachable from the start, with all its includes
   * seen or still on the stack.
   */
  ghost predicate FirstVisits(tree: Tree, start: Visit, first: map<Path, Visit>, stack: seq<Visit>)
  {
    forall rp :: rp in first ==>
      && tree.realpath(first[rp].file) == rp && Reaches(tree, start, first[rp])
      && forall v :: v in Next(tree, first[rp]) ==> tree.realpath(v.file) in first || v in stack
  }

  /** Taking a new file off the stack and pushing its includes keeps the record of first visits. */
  lemma VisitStep(tree: Tree, start: Visit, first: map<Path, Visit>, rest: seq<Visit>, v: Visit)
    requires FirstVisits(tree, start, first, rest + [v]) && Reaches(tree, start, v) && tree.realpath(v.file) !in first
    ensures FirstVisits(tree, start, first[tree.realpath(v.file) := v], rest + Next(tree, v))
  {
    hide Reaches, Next;
  }

  lemma SkipStep(tree: Tree, start: Visit, first: map<Path, Visit>, rest: seq<Visit>, v: Visit)
    requires FirstVisits(tree, start, first, rest + [v]) && tree.realpath(v.file) in first
    ensures FirstVisits(tree, start, first, rest)
  {
    hide Reaches, Next;
  }

  ghost predicate AllReached(tree: Tree, start: Visit, stack: seq<Visit>)
  {
    forall v :: v in stack ==> Reaches(tree, start, v)
  }

  lemma PushReached(tree: Tree, start: Visit, rest: seq<Visit>, v: Visit)
    requires AllReached(tree, start, rest + [v])
    ensures AllReached(tree, start, rest + Next(tree, v)) && Reaches(tree, start, v) && AllReached(tree, start, rest)
  {
    hide Reaches, Next;
    assert v in rest + [v];
    assert forall w :: w in rest ==> w in rest + [v];
    forall w | w in Next(tree, v)
      ensures Reaches(tree, start, w)
    {
      ReachesStep(tree, start, v, w);
    }
  }

  /** What the walk records: exactly the files of a set of reachable visits that is closed under includes. */
  lemma {:induction false} WalkIsClosed(tree: Tree, start: Visit, stack: seq<Visit>, first: map<Path, Visit>,
                                        files: set<Path>)
    returns (last: map<Path, Visit>)
    requires Covers(tree, files) && StackCovered(tree, stack, files) && first.Keys <= files
    requires FirstVisits(tree, start, first, stack) && AllReached(tree, start, stack)
    ensures last.Keys == Walked(tree, stack, first.Keys, files)
    ensures FirstVisits(tree, start, last, []) && (stack != [] ==> tree.realpath(stack[|stack| - 1].file) in last)
    decreases |files - first.Keys|, |stack|
  {
    hide *;
    if stack == [] {
      last := first;
      WalkedEmpty(tree, first.Keys, files);
      NoStack(tree, start, first, stack);
    } else {
      var v, rest := stack[|stack| - 1], stack[..|stack| - 1];
      assert stack == rest + [v];
      var rp := tree.realpath(v.file);
      PushReached(tree, start, rest, v);
      PushCovered(tree, rest, v, files);
      WalkedPop(tree, rest, v, first.Keys, files);
      if rp in first {
        SkipStep(tree, start, first, rest, v);
        last := WalkIsClosed(tree, start, rest, first, files);
        SeenStays(tree, rest, first.Keys, files);
      } else {
        VisitStep(tree, start, first, rest, v);
        var next := first[rp := v];
        assert next.Keys == first.Keys + {rp};
        FewerLeft(files, first.Keys, rp);
        last := WalkIsClosed(tree, start, rest + Next(tree, v), next, files);
        SeenStays(tree, rest + Next(tree, v), next.Keys, files);
      }
    }
  }

  lemma NoStack(tree: Tree, start: Visit, first: map<Path, Visit>, stack: seq<Visit>)
    requires FirstVisits(tree, start, first, stack) && stack == []
    ensures FirstVisits(tree, start, first, [])
  {
  }

  lemma WalkedEmpty(tree: Tree, seen: set<Path>, files: set<Path>)
    requires Covers(tree, files) && seen <= files && StackCovered(tree, [], files)
    ensures Walked(tree, [], seen, files) == seen
  {
  }

  lemma WalkedPop(tree: Tree, rest: seq<Visit>, v: Visit, seen: set<Path>, files: set<Path>)
    requires Covers(tree, files) && StackCovered(tree, rest + [v], files) && seen <= files
    requires StackCovered(tree, rest, files) && StackCovered(tree, rest + Next(tree, v), files)
             && tree.realpath(v.file) in files
    ensures Walked(tree, rest + [v], seen, files)
         == if tree.realpath(v.file) in seen then Walked(tree, rest, seen, files)
            else Walked(tree, rest + Next(tree, v), seen + {tree.realpath(v.file)}, files)
  {
    hide Next;
    var stack := rest + [v];
    assert stack[..|stack| - 1] == rest && stack[|stack| - 1] == v;
  }

  lemma PushCovered(tree: Tree, rest: seq<Visit>, v: Visit, files: set<Path>)
    requires Covers(tree, files) && StackCovered(tree, rest + [v], files)
    ensures StackCovered(tree, rest, files) && StackCovered(tree, rest + Next(tree, v), files)
            && tree.realpath(v.file) in files
  {
    hide Next, Covers;
    NextCovered(tree, v, files);
    assert v in rest + [v];
    assert forall w :: w in rest ==> w in rest + [v];
  }

  lemma SeenStays(tree: Tree, stack: seq<Visit>, seen: set<Path>, files: set<Path>)
    requires Covers(tree, files) && StackCovered(tree, stack, files) && seen <= files
    ensures seen <= Walked(tree, stack, seen, files)
  {
  }

  /** Only files reachable by resolved includes are recorded, the source among them. */
  lemma WalkSound(tree: Tree, source: Path, home: Path, files: set<Path>, rp: Path)
    requires Covers(tree, files) && tree.realpath(source) in files
    ensures tree.realpath(source) in Walked(tree, [Visit(source, home)], {}, files)
    ensures rp in Walked(tree, [Visit(source, home)], {}, files) ==>
      exists v :: Reaches(tree, Visit(source, home), v) && tree.realpath(v.file) == rp
  {
    hide Walked, Next;
    var start := Visit(source, home);
    var last := WalkFromStart(tree, start, files);
  }

  lemma WalkFromStart(tree: Tree, start: Visit, files: set<Path>) returns (last: map<Path, Visit>)
    requires Covers(tree, files) && tree.realpath(start.file) in files
    ensures last.Keys == Walked(tree, [start], {}, files) && FirstVisits(tree, start, last, [])
    ensures tree.realpath(start.file) in last
  {
    hide Walked, Next;
    var none: map<Path, Visit> := map[];
    assert none.Keys == {};
    assert Chain(tree, [start]) && Reaches(tree, start, start);
    last := WalkIsClosed(tree, start, [start], none, files);
    assert start in [start];
  }

  /** The same file reached from two directories leads to the same files, wherever the walk can get to. */
  ghost predicate HomeIndependent(tree: Tree, start: Visit)
  {
    forall v, w :: Reaches(tree, start, v) && Reaches(tree, start, w) && tree.realpath(v.file) == tree.realpath(w.file)
      ==> forall x :: x in Next(tree, v) ==> LeadsTo(tree, w, tree.realpath(x.file))
  }

  ghost predicate LeadsTo(tree: Tree, w: Visit, rp: Path)
  {
    exists y :: y in Next(tree, w) && tree.realpath(y.file) == rp
  }

  lemma {:induction false} ChainRecorded(tree: Tree, start: Visit, last: map<Path, Visit>, c: seq<Visit>)
    requires HomeIndependent(tree, start) && FirstVisits(tree, start, last, []) && tree.realpath(start.file) in last
    requires Chain(tree, c) && c[0] == start
    ensures tree.realpath(c[|c| - 1].file) in last
    decreases |c|
  {
    hide Next;
    if |c| > 1 {
      var front := c[..|c| - 1];
      assert Chain(tree, front) && front[0] == start;
      ChainRecorded(tree, start, last, front);
      var v, x := front[|front| - 1], c[|c| - 1];
      assert v == c[|c| - 2] && x in Next(tree, v);
      assert Reaches(tree, start, v);
      StepRecorded(tree, start, last, v, x);
    }
  }

  lemma StepRecorded(tree: Tree, start: Visit, last: map<Path, Visit>, v: Visit, x: Visit)
    requires HomeIndependent(tree, start) && FirstVisits(tree, start, last, [])
    requires Reaches(tree, start, v) && tree.realpath(v.file) in last && x in Next(tree, v)
    ensures tree.realpath(x.file) in last
  {
    hide Next, Reaches;
    var w := last[tree.realpath(v.file)];
    assert LeadsTo(tree, w, tree.realpath(x.file));
    var y :| y in Next(tree, w) && tree.realpath(y.file) == tree.realpath(x.file);
  }

  /** When resolution does not depend on the directory of first reach, every reachable file is recorded. */
  lemma WalkComplete(tree: Tree, source: Path, home: Path, files: set<Path>, v: Visit)
    requires Covers(tree, files) && tree.realpath(source) in files && HomeIndependent(tree, Visit(source, home))
    requires Reaches(tree, Visit(source, home), v)
    ensures tree.realpath(v.file) in Walked(tree, [Visit(source, home)], {}, files)
  {
    hide Walked, HomeIndependent, FirstVisits;
    var start := Visit(source, home);
    var last := WalkFromStart(tree, start, files);
    var c :| Chain(tree, c) && c[0] == start && c[|c| - 1] == v;
    ChainRecorded(tree, start, last, c);
  }

  /** Where a visit leads: staged headers by their bare name, without a change of directory, anything else by path. */
  lemma {:induction false} ResolveAllIff(tree: Tree, home: Path, incs: seq<string>, v: Visit)
    ensures v in ResolveAll(tree, home, incs)
       <==> exists k :: 0 <= k < |incs| && Leads(tree, home, incs[k], v)
  {
    if incs != [] {
      var l := |incs| - 1;
      ResolveAllIff(tree, home, incs[..l], v);
      if k :| 0 <= k < l && Leads(tree, home, incs[k], v) { assert Leads(tree, home, incs[..l][k], v); }
    }
  }

  ghost predicate Leads(tree: Tree, home: Path, inc: string, v: Visit)
  {
    if '/' !in inc && inc in tree.staged then v.file == tree.staged[inc] && v.home == home
    else v.file == tree.join(home, inc) && tree.there(v.file) && v.home == tree.parent(v.file)
  }

  /** Paths to one real file have its one content. */
  ghost predicate OneContent(tree: Tree)
  {
    forall p, q :: tree.realpath(p) == tree.realpath(q) ==> tree.includes(p) == tree.includes(q)
  }

  /** Every include a reachable file makes is of a staged header, or of a path that any directory resolves alike. */
  ghost predicate Anchored(tree: Tree, start: Visit)
  {
    forall v, inc :: Reaches(tree, start, v) && inc in tree.includes(v.file) ==>
      ('/' !in inc && inc in tree.staged) || SameEverywhere(tree, inc)
  }

  ghost predicate SameEverywhere(tree: Tree, inc: string)
  {
    forall d, e :: var p, q := tree.join(d, inc), tree.join(e, inc);
      tree.there(p) ==> tree.there(q) && tree.realpath(p) == tree.realpath(q)
  }

  /** Such a tree can be walked in any order: nothing reachable is missed. */
  lemma AnchoredIsComplete(tree: Tree, source: Path, home: Path, files: set<Path>, v: Visit)
    requires Covers(tree, files) && tree.realpath(source) in files
    requires OneContent(tree) && Anchored(tree, Visit(source, home)) && Reaches(tree, Visit(source, home), v)
    ensures tree.realpath(v.file) in Walked(tree, [Visit(source, home)], {}, files)
  {
    hide Walked, Reaches, Covers, Next, SameEverywhere, LeadsTo;
    var start := Visit(source, home);
    forall a, b, x | Reaches(tree, start, a) && Reaches(tree, start, b)
        && tree.realpath(a.file) == tree.realpath(b.file)
                     && x in Next(tree, a)
      ensures LeadsTo(tree, b, tree.realpath(x.file))
    {
      AnchoredLeads(tree, start, a, b, x);
    }
    WalkComplete(tree, source, home, files, v);
  }

  lemma AnchoredLeads(tree: Tree, start: Visit, a: Visit, b: Visit, x: Visit)
    requires OneContent(tree) && Anchored(tree, start) && Reaches(tree, start, a)
    requires tree.realpath(a.file) == tree.realpath(b.file) && x in Next(tree, a)
    ensures LeadsTo(tree, b, tree.realpath(x.file))
  {
    hide Reaches, ResolveAll;
    var incs := tree.includes(a.file);
    assert tree.includes(b.file) == incs;
    ResolveAllIff(tree, a.home, incs, x);
    var k :| 0 <= k < |incs| && Leads(tree, a.home, incs[k], x);
    var inc := incs[k];
    var y := if '/' !in inc && inc in tree.staged then Visit(x.file, b.home)
             else Visit(tree.join(b.home, inc), tree.parent(tree.join(b.home, inc)));
    assert Leads(tree, b.home, inc, y) && tree.realpath(y.file) == tree.realpath(x.file);
    ResolveAllIff(tree, b.home, incs, y);
  }

  // ------------------------------------------- why the directory matters otherwise

  /** The same tree with other include lines in its files. */
  function WithIncludes(tree: Tree, includes: Path -> seq<string>): Tree { tree.(includes := includes) }

  /** The start includes two names, the file they both lead to includes one, and nothing else includes anything. */
  function Includes(tree: Tree, start: Visit, v: Visit, i: string, j: string, inc: string): Path -> seq<string>
  {
    p => if tree.realpath(p) == tree.realpath(start.file) then [i, j]
         else if tree.realpath(p) == tree.realpath(v.file) then [inc] else []
  }

  /**
   * Two names lead from the start to one real file, as v and as w, and from there one include leads to x by
   * the one directory and not by the other.
   */
  ghost predicate Diverge(tree: Tree, start: Visit, v: Visit, w: Visit, x: Visit, i: string, j: string, inc: string)
  {
    && Resolve(tree, start.home, i) == [v] && Resolve(tree, start.home, j) == [w]
    && tree.realpath(v.file) == tree.realpath(w.file) != tree.realpath(start.file)
    && Resolve(tree, v.home, inc) == [x] && tree.realpath(x.file) !in {tree.realpath(start.file), tree.realpath(v.file)}
    && forall y :: y in Resolve(tree, w.home, inc) ==> tree.realpath(y.file) != tree.realpath(x.file)
  }

  lemma SameResolve(tree: Tree, includes: Path -> seq<string>, home: Path, inc: string)
    ensures Resolve(WithIncludes(tree, includes), home, inc) == Resolve(tree, home, inc)
  {
  }

  lemma NextInDiverging(tree: Tree, start: Visit, v: Visit, w: Visit, x: Visit, i: string, j: string, inc: string)
    requires Diverge(tree, start, v, w, x, i, j, inc)
    ensures var t := WithIncludes(tree, Includes(tree, start, v, i, j, inc));
      && Next(t, start) == [v, w] && Next(t, v) == [x] && Next(t, w) == Resolve(tree, w.home, inc)
      && forall y: Visit :: tree.realpath(y.file) !in {tree.realpath(start.file), tree.realpath(v.file)}
           ==> Next(t, y) == []
  {
    hide Resolve;
    var includes := Includes(tree, start, v, i, j, inc);
    var t := WithIncludes(tree, includes);
    NextOfTwo(t, start.home, i, j);
    NextOfOne(t, v.home, inc);
    NextOfOne(t, w.home, inc);
    SameResolve(tree, includes, start.home, i);
    SameResolve(tree, includes, start.home, j);
    SameResolve(tree, includes, v.home, inc);
    SameResolve(tree, includes, w.home, inc);
  }

  lemma WalkStarts(t: Tree, start: Visit, v: Visit, w: Visit, files: set<Path>)
    requires Covers(t, files) && t.realpath(start.file) in files && Next(t, start) == [v, w]
    ensures StackCovered(t, [v, w], files)
    ensures Walked(t, [start], {}, files) == Walked(t, [v, w], {t.realpath(start.file)}, files)
  {
    hide Covers, Next, Walked;
    NextCovered(t, start, files);
    assert [] + [start] == [start] && [] + [v, w] == [v, w];
    WalkedPop(t, [], start, {}, files);
    assert {} + {t.realpath(start.file)} == {t.realpath(start.file)};
  }

  /** From the start on, both visits are pushed, and the later one is taken. */
  lemma WalkTakesLast(t: Tree, start: Visit, v: Visit, w: Visit, ys: seq<Visit>, files: set<Path>)
    requires Covers(t, files) && t.realpath(start.file) in files
    requires t.realpath(v.file) == t.realpath(w.file) != t.realpath(start.file)
    requires Next(t, start) == [v, w] && Next(t, w) == ys
    ensures var seen := {t.realpath(start.file), t.realpath(w.file)};
            && StackCovered(t, [v] + ys, files) && seen <= files
            && Walked(t, [start], {}, files) == Walked(t, [v] + ys, seen, files)
  {
    hide Covers, Next, Walked;
    var rs, rw := t.realpath(start.file), t.realpath(w.file);
    WalkStarts(t, start, v, w, files);
    NextCovered(t, w, files);
    assert v in [v, w] && w in [v, w] && [v] + [w] == [v, w];
    WalkedPop(t, [v], w, {rs}, files);
    assert {rs} + {rw} == {rs, rw} && rw !in {rs};
  }

  /** A visit of a seen file alone on the stack ends the walk. */
  lemma WalkEnds(t: Tree, v: Visit, seen: set<Path>, files: set<Path>)
    requires Covers(t, files) && seen <= files && t.realpath(v.file) in seen
    ensures Walked(t, [v], seen, files) == seen
  {
    hide Covers, Next, Walked;
    NextCovered(t, v, files);
    assert [] + [v] == [v];
    WalkedPop(t, [], v, seen, files);
    WalkedEmpty(t, seen, files);
  }

  /** So does a file without includes above it. */
  lemma WalkOneMore(t: Tree, v: Visit, y: Visit, seen: set<Path>, files: set<Path>)
    requires Covers(t, files) && seen <= files && t.realpath(v.file) in seen && t.realpath(y.file) in files
    requires t.realpath(y.file) !in seen ==> Next(t, y) == []
    ensures StackCovered(t, [v, y], files) && Walked(t, [v, y], seen, files) == seen + {t.realpath(y.file)}
  {
    hide Covers, Next, Walked;
    var ry := t.realpath(y.file);
    NextCovered(t, y, files);
    assert [v] + [y] == [v, y] && [v] + [] == [v];
    WalkedPop(t, [v], y, seen, files);
    if ry in seen {
      assert seen + {ry} == seen;
      WalkEnds(t, v, seen, files);
    } else {
      WalkEnds(t, v, seen + {ry}, files);
    }
  }

  /** The walk takes w first, so what v includes is looked up in w's directory alone. */
  lemma WalkMisses(t: Tree, start: Visit, v: Visit, w: Visit, ys: seq<Visit>, files: set<Path>)
    requires Covers(t, files) && t.realpath(start.file) in files
    requires t.realpath(v.file) == t.realpath(w.file) != t.realpath(start.file)
    requires Next(t, start) == [v, w] && Next(t, w) == ys && |ys| <= 1
    requires forall y ::
               y in ys && t.realpath(y.file) !in {t.realpath(start.file), t.realpath(w.file)} ==> Next(t, y) == []
    ensures Walked(t, [start], {}, files)
         == {t.realpath(start.file), t.realpath(w.file)} + set y | y in ys :: t.realpath(y.file)
  {
    hide Covers, Next, Walked;
    var seen := {t.realpath(start.file), t.realpath(w.file)};
    WalkTakesLast(t, start, v, w, ys, files);
    if ys == [] {
      assert [v] + ys == [v];
      WalkEnds(t, v, seen, files);
    } else {
      var y := ys[0];
      assert ys == [y] && y in ys && [v] + ys == [v, y];
      NextCovered(t, w, files);
      WalkOneMore(t, v, y, seen, files);
    }
  }

  /** Wherever resolution depends on the directory, some contents of the files make the walk miss a reachable one. */
  lemma DivergenceLosesFile(tree: Tree, start: Visit, v: Visit, w: Visit, x: Visit, i: string, j: string, inc: string,
                            files: set<Path>)
    requires Covers(tree, files) && tree.realpath(start.file) in files && Diverge(tree, start, v, w, x, i, j, inc)
    ensures var t := WithIncludes(tree, Includes(tree, start, v, i, j, inc));
      && Covers(t, files) && Reaches(t, start, x)
      && tree.realpath(x.file) !in Walked(t, [start], {}, files)
  {
    hide Next, Walked, Resolve;
    var t := WithIncludes(tree, Includes(tree, start, v, i, j, inc));
    NextInDiverging(tree, start, v, w, x, i, j, inc);
    var c := [start, v, x];
    assert Chain(t, c) && c[0] == start && c[|c| - 1] == x;
    WalkMisses(t, start, v, w, Resolve(tree, w.home, inc), files);
  }


  /**
   * a.cu in d includes h.h of directories p and q; both are links to one header, which includes x.h, and
   * x.h stands beside only one of them: q's is taken first, so p's x.h is never recorded.
   */
  const SPLIT: Tree := Tree(
    p => if p == "p/h.h" || p == "q/h.h" then "h.h" else p,
    f => if f == "a.cu" then ["p/h.h", "q/h.h"] else if f == "p/h.h" || f == "q/h.h" then ["x.h"] else [],
    map[],
    (d, inc) => if d == "d" then inc else d + "/" + inc,
    p => p == "p/h.h" || p == "q/h.h" || p == "p/x.h",
    p => if p == "q/h.h" then "q" else "p")

  const SPLIT_FILES: set<Path> := {"a.cu", "h.h", "p/x.h"}

  lemma SplitNext()
    ensures Next(SPLIT, Visit("a.cu", "d")) == [Visit("p/h.h", "p"), Visit("q/h.h", "q")]
    ensures Next(SPLIT, Visit("p/h.h", "p")) == [Visit("p/x.h", "p")]
    ensures Next(SPLIT, Visit("q/h.h", "q")) == []
  {
    SplitResolves();
    hide Resolve;
    NextOfTwo(SPLIT, "d", "p/h.h", "q/h.h");
    NextOfOne(SPLIT, "p", "x.h");
    NextOfOne(SPLIT, "q", "x.h");
  }

  lemma SplitResolves()
    ensures Resolve(SPLIT, "d", "p/h.h") == [Visit("p/h.h", "p")]
            && Resolve(SPLIT, "d", "q/h.h") == [Visit("q/h.h", "q")]
    ensures Resolve(SPLIT, "p", "x.h") == [Visit("p/x.h", "p")]
    ensures Resolve(SPLIT, "q", "x.h") == []
  {
    assert "q" + "/" + "x.h" == "q/x.h" && "p" + "/" + "x.h" == "p/x.h";
    assert "q/x.h"[0] == 'q' && "p/h.h"[0] == 'p' && "q/x.h"[2] != "q/h.h"[2];
  }

  lemma NextOfOne(tree: Tree, home: Path, inc: string)
    ensures ResolveAll(tree, home, [inc]) == Resolve(tree, home, inc)
  {
    assert [inc][..0] == [];
    assert ResolveAll(tree, home, []) == [];
  }

  lemma NextOfTwo(tree: Tree, home: Path, a: string, b: string)
    ensures ResolveAll(tree, home, [a, b]) == Resolve(tree, home, a) + Resolve(tree, home, b)
  {
    assert [a, b][..1] == [a];
    NextOfOne(tree, home, a);
  }

  lemma DirectoryMatters()
    ensures Covers(SPLIT, SPLIT_FILES)
    ensures Reaches(SPLIT, Visit("a.cu", "d"), Visit("p/x.h", "p"))
    ensures "p/x.h" !in Walked(SPLIT, [Visit("a.cu", "d")], {}, SPLIT_FILES)
  {
    SplitNext();
    hide Next;
    var a, p, q := Visit("a.cu", "d"), Visit("p/h.h", "p"), Visit("q/h.h", "q");
    var c := [a, p, Visit("p/x.h", "p")];
    assert Chain(SPLIT, c);
    assert SPLIT.realpath("a.cu") == "a.cu" && SPLIT.realpath("p/h.h") == SPLIT.realpath("q/h.h") == "h.h";
    assert SPLIT.realpath("p/x.h") == "p/x.h";
    WalkMisses(SPLIT, a, p, q, [], SPLIT_FILES);
  }
}
