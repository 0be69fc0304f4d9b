// What a finished request reports, read off the lines of its stream.
module SseCounts {
  import opened Text
  import opened Lines
  import opened SseLoop

  // ------------------------------------------------------------------ raw lines

  /** A data line: its payload is what follows the tag, less the white space around the line. */
  lemma DataLaw(parse: string -> Event, a: string, payload: string, c: string)
    requires Spaces(a) && Spaces(c) && payload != "" && !IsSpace(payload[|payload| - 1])
    ensures Classify(parse, a + "data: " + payload + c)
         == if payload == "[DONE]" then DoneMark else Data(parse(payload))
  {
    hide StripBy;
    var line := "data: " + payload;
    assert line[0] == 'd' && line[|line| - 1] == payload[|payload| - 1];
    assert a + line + c == a + "data: " + payload + c && line[6..] == payload;
    StripAround(a, line, c, IsSpace);
  }

  lemma OtherLaw(parse: string -> Event, a: string, text: string, c: string)
    requires Spaces(a) && Spaces(c) && Trimmed(text) && !("data: " <= text)
    ensures Classify(parse, a + text + c) == Skip
  {
    hide StripBy;
    StripAround(a, text, c, IsSpace);
  }

  /** The complete lines of a text are those that a line feed ends. */
  lemma {:induction false} CutAtFeeds(lines: seq<string>, rest: string)
    requires '\n' !in rest && forall k :: 0 <= k < |lines| ==> '\n' !in lines[k]
    ensures CompleteLines(Unlines(lines) + rest) == lines
  {
    hide FeedAt;
    if lines == [] {
      assert Unlines(lines) + rest == rest;
      NoFeed(rest);
    } else {
      var more := Unlines(lines[1..]) + rest;
      CutAtFeeds(lines[1..], rest);
      NoFeed(lines[0]);
      FeedOfLine(lines[0], more);
      var s := Fed(lines[0]) + more;
      assert Unlines(lines) + rest == s && s[..|lines[0]|] == lines[0] && s[|lines[0]| + 1..] == more;
    }
  }

  // ---------------------------------------------------------------- what is given

  /** All choices of the frames, in order. */
  function Choices(parse: string -> Event, lines: seq<string>): seq<Choice>
  {
    if lines == [] then []
    else
      Choices(parse, lines[..|lines| - 1])
      + match Classify(parse, lines[|lines| - 1])
        case Data(Frame(_, choices, _)) => choices
        case _ => []
  }

  /** All usages of the frames, in order. */
  function Usages(parse: string -> Event, lines: seq<string>): seq<Usage>
  {
    if lines == [] then []
    else
      Usages(parse, lines[..|lines| - 1])
      + match Classify(parse, lines[|lines| - 1])
        case Data(Frame(_, _, Some(usage))) => [usage]
        case _ => []
  }

  ghost function WithContent(cs: seq<Choice>): set<int> { set k | 0 <= k < |cs| && cs[k].content }

  function Finishes(cs: seq<Choice>): (r: seq<Option<string>>)
    ensures |r| == |cs|
  {
    seq(|cs|, k requires 0 <= k < |cs| => cs[k].finish)
  }

  function Completions(us: seq<Usage>): (r: seq<Option<nat>>)
    ensures |r| == |us|
  {
    seq(|us|, k requires 0 <= k < |us| => us[k].completion)
  }

  function Prompts(us: seq<Usage>): (r: seq<Option<nat>>)
    ensures |r| == |us|
  {
    seq(|us|, k requires 0 <= k < |us| => us[k].prompt)
  }

  function LastGiven<T>(xs: seq<Option<T>>): (r: Option<T>)
    ensures r.None? ==> forall k :: 0 <= k < |xs| ==> xs[k].None?
    ensures r.Some? ==> exists k :: 0 <= k < |xs| && xs[k] == r && forall j :: k < j < |xs| ==> xs[j].None?
  {
    if xs == [] then None
    else if xs[|xs| - 1].Some? then xs[|xs| - 1]
    else
      var front := xs[..|xs| - 1];
      assert forall k :: 0 <= k < |front| ==> front[k] == xs[k];
      LastGiven(front)
  }

  lemma {:induction false} LastOfBoth<T>(a: seq<Option<T>>, b: seq<Option<T>>)
    ensures LastGiven(a + b) == if LastGiven(b).Some? then LastGiven(b) else LastGiven(a)
    decreases |b|
  {
    var all := a + b;
    if b == [] {
      assert all == a;
    } else {
      LastOfBoth(a, b[..|b| - 1]);
      assert all[..|all| - 1] == a + b[..|b| - 1];
    }
  }

  lemma {:induction false} ContentOfBoth(a: seq<Choice>, b: seq<Choice>)
    ensures |WithContent(a + b)| == |WithContent(a)| + |WithContent(b)|
    decreases |b|
  {
    if b == [] {
      assert a + b == a && WithContent(b) == {};
    } else {
      var front, c := b[..|b| - 1], b[|b| - 1];
      ContentOfBoth(a, front);
      ContentSnoc(front, c);
      ContentSnoc(a + front, c);
      assert a + front + [c] == a + b && front + [c] == b;
    }
  }

  lemma ContentSnoc(front: seq<Choice>, c: Choice)
    ensures |WithContent(front + [c])| == |WithContent(front)| + if c.content then 1 else 0
  {
    var all := front + [c];
    if c.content {
      assert WithContent(all) == WithContent(front) + {|front|};
    } else {
      assert WithContent(all) == WithContent(front);
    }
  }

  lemma {:induction false} ChoicesTaken(st: State, cs: seq<Choice>)
    ensures TakeChoices(st, cs)
         == st.(deltas := st.deltas + |WithContent(cs)|,
             finish := if LastGiven(Finishes(cs)).Some? then LastGiven(Finishes(cs)) else st.finish)
  {
    hide LastGiven, WithContent;
    if cs == [] {
      NoneWith();
      assert Finishes(cs) == [];
    } else {
      var front, c := cs[..|cs| - 1], cs[|cs| - 1];
      ChoicesTaken(st, front);
      ContentSnoc(front, c);
      assert front + [c] == cs && Finishes(cs) == Finishes(front) + [c.finish];
      LastOfBoth(Finishes(front), [c.finish]);
      LastOfOne(c.finish);
    }
  }

  lemma NoneWith()
    ensures WithContent([]) == {} && LastGiven<string>([]) == None && LastGiven<nat>([]) == None
  {
  }

  lemma LastOfOne<T>(x: Option<T>)
    ensures LastGiven([x]) == x
  {
    assert [x][..0] == [];
  }

  // ----------------------------------------------------------- what is reported

  /** The state after lines: the choices with content are counted, and each number is the last one given. */
  ghost predicate Tells(parse: string -> Event, lines: seq<string>, st: State)
  {
    var cs, us := Choices(parse, lines), Usages(parse, lines);
    && st.deltas == |WithContent(cs)| && st.finish == LastGiven(Finishes(cs))
    && st.completion == LastGiven(Completions(us)).GetOr(0) && st.prompt == LastGiven(Prompts(us)).GetOr(0)
    && (st.sawDone <==> exists k :: 0 <= k < |lines| && Classify(parse, lines[k]) == DoneMark)
  }

  lemma ChoicesAt(parse: string -> Event, lines: seq<string>, line: string)
    ensures var kind, all := Classify(parse, line), lines + [line];
      && (kind.Data? && kind.ev.Frame? ==>
           && Choices(parse, all) == Choices(parse, lines) + kind.ev.choices
           && Usages(parse, all)
           == Usages(parse, lines) + if kind.ev.usage.Some? then [kind.ev.usage.value] else [])
      && (!(kind.Data? && kind.ev.Frame?) ==>
           Choices(parse, all) == Choices(parse, lines) && Usages(parse, all) == Usages(parse, lines))
  {
    hide Classify;
    assert (lines + [line])[..|lines|] == lines;
  }

  lemma TellsMore(parse: string -> Event, lines: seq<string>, st: State, line: string)
    requires Tells(parse, lines, st) && StepLine(parse, st, line).Go?
    ensures Tells(parse, lines + [line], StepLine(parse, st, line).st)
  {
    hide Classify, Choices, Usages, TakeChoices, LastGiven, WithContent, Finishes, Completions, Prompts;
    var all := lines + [line];
    ChoicesAt(parse, lines, line);
    DoneAmong(parse, lines, line);
    var kind := Classify(parse, line);
    if kind.Data? && kind.ev.Frame? {
      var cs, more := Choices(parse, lines), kind.ev.choices;
      ChoicesTaken(st, more);
      ContentOfBoth(cs, more);
      FinishesOfBoth(cs, more);
      LastOfBoth(Finishes(cs), Finishes(more));
      if kind.ev.usage.Some? { UsageTaken(Usages(parse, lines), kind.ev.usage.value); }
      assert Usages(parse, lines) + [] == Usages(parse, lines);
    }
  }

  lemma DoneAmong(parse: string -> Event, lines: seq<string>, line: string)
    ensures var all := lines + [line];
      (exists k :: 0 <= k < |all| && Classify(parse, all[k]) == DoneMark)
      <==> (exists k :: 0 <= k < |lines| && Classify(parse, lines[k]) == DoneMark) || Classify(parse, line) == DoneMark
  {
    hide Classify;
    var all := lines + [line];
    assert all[|lines|] == line && forall k :: 0 <= k < |lines| ==> all[k] == lines[k];
  }

  lemma FinishesOfBoth(a: seq<Choice>, b: seq<Choice>)
    ensures Finishes(a + b) == Finishes(a) + Finishes(b)
  {
  }

  lemma UsageTaken(us: seq<Usage>, u: Usage)
    ensures LastGiven(Completions(us + [u])).GetOr(0) == u.completion.GetOr(LastGiven(Completions(us)).GetOr(0))
    ensures LastGiven(Prompts(us + [u])).GetOr(0) == u.prompt.GetOr(LastGiven(Prompts(us)).GetOr(0))
  {
    hide LastGiven;
    assert Completions(us + [u]) == Completions(us) + [u.completion];
    assert Prompts(us + [u]) == Prompts(us) + [u.prompt];
    LastOfBoth(Completions(us), [u.completion]);
    LastOfBoth(Prompts(us), [u.prompt]);
    LastOfOne(u.completion);
    LastOfOne(u.prompt);
  }

  lemma {:induction false} FoldTells(parse: string -> Event, lines: seq<string>)
    ensures var p := FoldLines(parse, INITIAL, lines); p.Go? ==> Tells(parse, lines, p.st)
  {
    hide StepLine, Classify, Tells;
    if lines == [] {
      NothingTold(parse);
    } else {
      var front, line := lines[..|lines| - 1], lines[|lines| - 1];
      FoldTells(parse, front);
      assert front + [line] == lines;
      FoldAppend(parse, INITIAL, front, [line]);
      var p := FoldLines(parse, INITIAL, front);
      if p.Go? {
        FoldOne(parse, p.st, line);
        if StepLine(parse, p.st, line).Go? { TellsMore(parse, front, p.st, line); }
      }
    }
  }

  lemma NothingTold(parse: string -> Event)
    ensures Tells(parse, [], INITIAL)
  {
    assert Finishes([]) == [] && Completions([]) == [] && Prompts([]) == [] && WithContent([]) == {};
  }

  lemma FoldOne(parse: string -> Event, st: State, line: string)
    ensures FoldLines(parse, st, [line]) == StepLine(parse, st, line)
  {
    hide StepLine;
    assert [line][1..] == [];
    match StepLine(parse, st, line)
    case Stop(o) =>
    case Go(next) => assert FoldLines(parse, next, []) == Go(next);
  }

  /** What lines amount to when no error ends them. */
  ghost predicate Reports(parse: string -> Event, lines: seq<string>, out: Outcome)
  {
    var cs, us := Choices(parse, lines), Usages(parse, lines);
    && (out.Finished? ==>
         && out.deltas == |WithContent(cs)| && out.finish == LastGiven(Finishes(cs))
         && out.completion == LastGiven(Completions(us)).GetOr(0) && out.prompt == LastGiven(Prompts(us)).GetOr(0))
    && (out.Truncated? ==>
         && out.deltas == |WithContent(cs)| && (forall k :: 0 <= k < |cs| ==> cs[k].finish.None?)
         && forall k :: 0 <= k < |lines| ==> Classify(parse, lines[k]) != DoneMark)
  }

  lemma FoldReports(parse: string -> Event, lines: seq<string>)
    ensures Reports(parse, lines, Conclude(FoldLines(parse, INITIAL, lines)))
  {
    hide StepLine, Classify, Choices, Usages, WithContent, FoldLines;
    FoldTells(parse, lines);
    StopsEarly(parse, INITIAL, lines);
    var cs := Choices(parse, lines);
    assert forall k :: 0 <= k < |cs| ==> Finishes(cs)[k] == cs[k].finish;
  }

  lemma {:induction false} StopsEarly(parse: string -> Event, st: State, lines: seq<string>)
    ensures var p := FoldLines(parse, st, lines); p.Stop? ==> p.outcome.Raised? || p.outcome.ServerError?
    decreases |lines|
  {
    hide Classify, TakeChoices, TakeUsage;
    if lines != [] {
      var step := StepLine(parse, st, lines[0]);
      if step.Go? { StopsEarly(parse, step.st, lines[1..]); }
    }
  }

  /** However the text was cut, a request reports the counts of the lines it read: all, or up to some [DONE]. */
  lemma RequestReports(parse: string -> Event, chunks: seq<string>) returns (k: nat)
    ensures var lines := CompleteLines(Concat(chunks));
      && k <= |lines| && (k == |lines| || (k > 0 && Classify(parse, lines[k - 1]) == DoneMark))
      && Reports(parse, lines[..k], RunChunks(parse, INITIAL, "", chunks))
  {
    hide Reports, FoldLines, CompleteLines, Classify, RunChunks;
    k := ChunksConsumePrefix(parse, INITIAL, "", chunks);
    assert "" + Concat(chunks) == Concat(chunks);
    var lines := CompleteLines(Concat(chunks));
    if chunks == [] { EmptyText(Concat(chunks), chunks); }
    FoldReports(parse, lines[..k]);
  }

  /** And those of all lines, when every [DONE] settles the outcome. */
  lemma SettledReports(parse: string -> Event, chunks: seq<string>)
    requires DoneSettles(parse, Concat(chunks))
    ensures Reports(parse, CompleteLines(Concat(chunks)), RunChunks(parse, INITIAL, "", chunks))
  {
    hide Reports, FoldLines, CompleteLines, RunChunks, DoneSettles;
    ChunkingIrrelevantIff(parse, Concat(chunks));
    FoldReports(parse, CompleteLines(Concat(chunks)));
  }
}
