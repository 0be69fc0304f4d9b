// The load harness's reader of a server-sent event stream that arrives in arbitrary network chunks.
module SseLoop {
  import opened Text
  import opened Lines

  // --------------------------------------------------------------- one line

  /** One element of `choices`: whether it carries content, and its finish reason if it has one. */
  datatype Choice = Choice(content: bool, finish: Option<string>)

  datatype Usage = Usage(completion: Option<nat>, prompt: Option<nat>)

  /** A data payload: not JSON, JSON that the handler chokes on, or a frame. */
  datatype Event = NotJson | Raises | Frame(error: Option<string>, choices: seq<Choice>, usage: Option<Usage>)

  datatype State = State(completion: nat, prompt: nat, deltas: nat, finish: Option<string>, sawDone: bool)

  datatype Outcome = ServerError(msg: string) | Raised | Truncated(deltas: nat)
                   | Finished(completion: nat, prompt: nat, deltas: nat, finish: Option<string>)

  const INITIAL: State := State(0, 0, 0, None, false)

  datatype Kind = Skip | DoneMark | Data(ev: Event)

  function Classify(parse: string -> Event, raw: string): Kind
  {
    var line := Strip(raw);
    if !("data: " <= line) then Skip
    else if line[6..] == "[DONE]" then DoneMark
    else Data(parse(line[6..]))
  }

  function TakeChoices(st: State, choices: seq<Choice>): State
  {
    if choices == [] then st
    else
      var s, c := TakeChoices(st, choices[..|choices| - 1]), choices[|choices| - 1];
      s.(deltas := if c.content then s.deltas + 1 else s.deltas,
         finish := if c.finish.Some? then c.finish else s.finish)
  }

  function TakeUsage(st: State, usage: Option<Usage>): State
  {
    if usage.None? then st
    else st.(completion := usage.value.completion.GetOr(st.completion), prompt := usage.value.prompt.GetOr(st.prompt))
  }

  /** Either the loop goes on, or the request returns. */
  datatype Progress = Go(st: State) | Stop(outcome: Outcome)

  function StepLine(parse: string -> Event, st: State, raw: string): Progress
  {
    match Classify(parse, raw)
    case Skip => Go(st)
    case DoneMark => Go(st.(sawDone := true))
    case Data(NotJson) => Go(st)
    case Data(Raises) => Stop(Raised)
    case Data(Frame(error, choices, usage)) =>
      if error.Some? then Stop(ServerError(error.value)) else Go(TakeUsage(TakeChoices(st, choices), usage))
  }

  /** After the stream: without a terminal frame it was cut off. */
  function Conclude(p: Progress): Outcome
  {
    match p
    case Stop(o) => o
    case Go(st) =>
      if !st.sawDone && st.finish.None? then Truncated(st.deltas)
      else Finished(st.completion, st.prompt, st.deltas, st.finish)
  }

  // ------------------------------------------------------------ the chunk loop

  function FeedAt(s: string): (n: nat)
    ensures n <= |s| && (forall k :: 0 <= k < n ==> s[k] != '\n') && (n < |s| ==> s[n] == '\n')
  {
    if s == "" || s[0] == '\n' then 0 else 1 + FeedAt(s[1..])
  }

  /** What the inner loop leaves: a returned outcome, or a state and the rest of the buffer. */
  datatype Drained = More(st: State, buf: string) | Returned(outcome: Outcome)

  /** The inner loop: it stops at the end of the complete lines, or right after a [DONE]. */
  function Drain(parse: string -> Event, st: State, buf: string): Drained
    decreases |buf|
  {
    var n := FeedAt(buf);
    if n == |buf| then More(st, buf)
    else
      match StepLine(parse, st, buf[..n])
      case Stop(o) => Returned(o)
      case Go(next) =>
        if Classify(parse, buf[..n]) == DoneMark then More(next, buf[n + 1..]) else Drain(parse, next, buf[n + 1..])
  }

  function RunChunks(parse: string -> Event, st: State, buf: string, chunks: seq<string>): Outcome
    decreases |chunks|
  {
    if chunks == [] then Conclude(Go(st))
    else
      match Drain(parse, st, buf + chunks[0])
      case Returned(o) => o
      case More(next, rest) => RunChunks(parse, next, rest, chunks[1..])
  }

  method OneRequest(parse: string -> Event, chunks: seq<string>) returns (out: Outcome)
    ensures out == RunChunks(parse, INITIAL, "", chunks)
  {
    hide Drain;
    var st, buf := INITIAL, "";
    for c := 0 to |chunks|
      invariant RunChunks(parse, st, buf, chunks[c..]) == RunChunks(parse, INITIAL, "", chunks)
    {
      assert chunks[c..][1..] == chunks[c + 1..];
      var d := DrainBuffer(parse, st, buf + chunks[c]);
      if d.Returned? { return d.outcome; }
      st, buf := d.st, d.buf;
    }
    out := Conclude(Go(st));
  }

  method DrainBuffer(parse: string -> Event, before: State, input: string) returns (d: Drained)
    ensures d == Drain(parse, before, input)
  {
    hide StepLine, Classify, FeedAt;
    var st, buf := before, input;
    while FeedAt(buf) < |buf|
      invariant Drain(parse, st, buf) == Drain(parse, before, input)
      decreases |buf|
    {
      var n := FeedAt(buf);
      var raw := buf[..n];
      buf := buf[n + 1..];
      var step, done := ReadLine(parse, st, raw);
      if step.Stop? { return Returned(step.outcome); }
      st := step.st;
      if done { return More(st, buf); }
    }
    d := More(st, buf);
  }

  /** The body of the inner loop; done says that the line was [DONE]. */
  method ReadLine(parse: string -> Event, before: State, raw: string) returns (p: Progress, done: bool)
    ensures p == StepLine(parse, before, raw) && (done <==> Classify(parse, raw) == DoneMark)
  {
    hide TakeUsage, TakeChoices;
    var st := before;
    var line := Strip(raw);
    hide Strip;
    if !("data: " <= line) { return Go(st), false; }
    var data := line[6..];
    if data == "[DONE]" { return Go(st.(sawDone := true)), true; }
    var ev := parse(data);
    match ev
    case NotJson => return Go(st), false;
    case Raises => return Stop(Raised), false;
    case Frame(error, choices, usage) =>
      if error.Some? { return Stop(ServerError(error.value)), false; }
      st := ReadChoices(st, choices);
      st := TakeUsage(st, usage);
      return Go(st), false;
  }

  method ReadChoices(before: State, choices: seq<Choice>) returns (st: State)
    ensures st == TakeChoices(before, choices)
  {
    st := before;
    for n := 0 to |choices|
      invariant st == TakeChoices(before, choices[..n])
    {
      assert choices[..n + 1][..n] == choices[..n];
      if choices[n].content { st := st.(deltas := st.deltas + 1); }
      if choices[n].finish.Some? { st := st.(finish := choices[n].finish); }
    }
    assert choices[..|choices|] == choices;
  }

  // ------------------------------------------------------------- whole texts

  /** The complete lines of a text. */
  function CompleteLines(s: string): seq<string>
    decreases |s|
  {
    var n := FeedAt(s);
    if n == |s| then [] else [s[..n]] + CompleteLines(s[n + 1..])
  }

  function FoldLines(parse: string -> Event, st: State, lines: seq<string>): Progress
    decreases |lines|
  {
    if lines == [] then Go(st)
    else
      match StepLine(parse, st, lines[0])
      case Stop(o) => Stop(o)
      case Go(next) => FoldLines(parse, next, lines[1..])
  }

  function Concat(chunks: seq<string>): string
  {
    if chunks == [] then "" else chunks[0] + Concat(chunks[1..])
  }

  lemma {:induction false} FoldAppend(parse: string -> Event, st: State, a: seq<string>, b: seq<string>)
    ensures FoldLines(parse, st, a + b)
         == match FoldLines(parse, st, a) case Stop(o) => Stop(o) case Go(mid) => FoldLines(parse, mid, b)
    decreases |a|
  {
    hide StepLine;
    if a == [] {
      assert a + b == b;
    } else {
      assert (a + b)[1..] == a[1..] + b;
      match StepLine(parse, st, a[0])
      case Stop(o) =>
      case Go(next) => FoldAppend(parse, next, a[1..], b);
    }
  }

  lemma {:induction false} FeedInFirst(a: string, b: string)
    requires FeedAt(a) < |a|
    ensures FeedAt(a + b) == FeedAt(a)
  {
    if a[0] != '\n' {
      assert (a + b)[1..] == a[1..] + b;
      FeedInFirst(a[1..], b);
    }
  }

  /** What j lines of a text do, when draining its first part leaves d. */
  ghost predicate Consumed(parse: string -> Event, st: State, lines: seq<string>, j: nat, d: Drained, more: string)
  {
    j <= |lines| &&
    match d
    case Returned(o) => FoldLines(parse, st, lines[..j]) == Stop(o)
    case More(next, buf) =>
      && FoldLines(parse, st, lines[..j]) == Go(next)
      && lines[j..] == CompleteLines(buf + more)
      && (CompleteLines(buf) == [] || (j > 0 && Classify(parse, lines[j - 1]) == DoneMark))
  }

  lemma ConsumeOne(parse: string -> Event, st: State, lines: seq<string>, d: Drained, more: string)
    requires lines != [] && (Classify(parse, lines[0]) == DoneMark || StepLine(parse, st, lines[0]).Stop?)
    requires d == match StepLine(parse, st, lines[0])
                  case Stop(o) => Returned(o)
                  case Go(next) => More(next, if d.More? then d.buf else "")
    requires d.More? ==> lines[1..] == CompleteLines(d.buf + more)
    ensures Consumed(parse, st, lines, 1, d, more)
  {
    hide StepLine, Classify, CompleteLines;
    var one := lines[..1];
    assert one[0] == lines[0] && one[1..] == [];
    match StepLine(parse, st, lines[0])
    case Stop(o) => assert FoldLines(parse, st, one) == Stop(o);
    case Go(next) =>
      assert FoldLines(parse, next, []) == Go(next);
      assert FoldLines(parse, st, one) == Go(next);
  }

  lemma ConsumeMore(parse: string -> Event, st: State, next: State, lines: seq<string>, j: nat, d: Drained,
                    more: string)
    requires lines != [] && StepLine(parse, st, lines[0]) == Go(next) && Consumed(parse, next, lines[1..], j, d, more)
    ensures Consumed(parse, st, lines, j + 1, d, more)
  {
    hide StepLine, Classify, CompleteLines;
    assert lines[..j + 1][0] == lines[0] && lines[..j + 1][1..] == lines[1..][..j];
    assert lines[j + 1..] == lines[1..][j..];
    if d.More? && j > 0 { assert lines[1..][j - 1] == lines[j]; }
  }

  lemma FirstLineOf(buf: string, more: string)
    requires FeedAt(buf) < |buf|
    ensures var n, lines := FeedAt(buf), CompleteLines(buf + more);
            lines != [] && lines[0] == buf[..n] && lines[1..] == CompleteLines(buf[n + 1..] + more)
  {
    var n := FeedAt(buf);
    FeedInFirst(buf, more);
    assert (buf + more)[..n] == buf[..n] && (buf + more)[n + 1..] == buf[n + 1..] + more;
  }

  /** Draining a buffer consumes lines of it: all of them, or up to and including a [DONE]. */
  lemma {:induction false} DrainConsumes(parse: string -> Event, st: State, buf: string, more: string) returns (j: nat)
    ensures Consumed(parse, st, CompleteLines(buf + more), j, Drain(parse, st, buf), more)
    decreases |buf|
  {
    hide Consumed, StepLine, Classify, CompleteLines;
    var n := FeedAt(buf);
    var lines := CompleteLines(buf + more);
    if n == |buf| {
      j := 0;
      ConsumeNone(parse, st, buf, more);
    } else {
      var line, rest := buf[..n], buf[n + 1..];
      FirstLineOf(buf, more);
      var step := StepLine(parse, st, line);
      if step.Stop? || Classify(parse, line) == DoneMark {
        j := 1;
        ConsumeOne(parse, st, lines, Drain(parse, st, buf), more);
      } else {
        var i := DrainConsumes(parse, step.st, rest, more);
        j := i + 1;
        ConsumeMore(parse, st, step.st, lines, i, Drain(parse, st, buf), more);
      }
    }
  }

  lemma ConsumeNone(parse: string -> Event, st: State, buf: string, more: string)
    requires FeedAt(buf) == |buf|
    ensures Consumed(parse, st, CompleteLines(buf + more), 0, More(st, buf), more)
  {
    var lines := CompleteLines(buf + more);
    assert lines[..0] == [] && lines[0..] == lines;
  }

  /** However a text is cut, the outcome is that of all its lines, or of its lines up to some [DONE]. */
  lemma {:induction false} ChunksConsumePrefix(parse: string -> Event, st: State, buf: string, chunks: seq<string>)
      returns (k: nat)
    ensures var lines := CompleteLines(buf + Concat(chunks));
      && k <= |lines| && RunChunks(parse, st, buf, chunks) == Conclude(FoldLines(parse, st, lines[..k]))
      && (k == |lines| || (k > 0 && Classify(parse, lines[k - 1]) == DoneMark) || (k == 0 && chunks == []))
    decreases |chunks|
  {
    hide StepLine, Classify, Drain, CompleteLines;
    var lines := CompleteLines(buf + Concat(chunks));
    if chunks == [] {
      k := 0;
      assert FoldLines(parse, st, lines[..0]) == Go(st);
    } else {
      var c, rest := chunks[0], chunks[1..];
      assert buf + Concat(chunks) == buf + c + Concat(rest);
      var j := DrainConsumes(parse, st, buf + c, Concat(rest));
      var d := Drain(parse, st, buf + c);
      if d.Returned? {
        k := |lines|;
        assert lines == lines[..j] + lines[j..];
        FoldAppend(parse, st, lines[..j], lines[j..]);
        assert lines[..k] == lines;
      } else {
        var i := ChunksConsumePrefix(parse, d.st, d.buf, rest);
        var tail := CompleteLines(d.buf + Concat(rest));
        k := j + i;
        assert lines == lines[..j] + tail;
        assert lines[..k] == lines[..j] + tail[..i];
        FoldAppend(parse, st, lines[..j], tail[..i]);
        if i == 0 && rest == [] {
          assert d.buf + Concat(rest) == d.buf;
        }
      }
    }
  }

  // ----------------------------------------------------- when chunking matters

  function Fed(line: string): string { line + "\n" }

  function OnePerLine(lines: seq<string>): (chunks: seq<string>)
    ensures |chunks| == |lines|
  {
    seq(|lines|, k requires 0 <= k < |lines| => Fed(lines[k]))
  }

  /** What is left of a text after its first k complete lines. */
  function After(s: string, k: nat): string
    requires k <= |CompleteLines(s)|
    decreases k
  {
    if k == 0 then s else After(s[FeedAt(s) + 1..], k - 1)
  }

  lemma {:induction false} TextOfLines(s: string, k: nat)
    requires k <= |CompleteLines(s)|
    ensures Concat(OnePerLine(CompleteLines(s)[..k])) + After(s, k) == s
    ensures CompleteLines(After(s, k)) == CompleteLines(s)[k..]
    decreases k
  {
    hide CompleteLines, FeedAt, After;
    var lines := CompleteLines(s);
    if k == 0 {
      AfterNone(s);
      assert OnePerLine(lines[..0]) == [] && lines[0..] == lines;
      assert Concat([]) + s == s;
    } else {
      var line, rest := FirstLine(s, k);
      TextOfLines(rest, k - 1);
      var tail := CompleteLines(rest)[..k - 1];
      assert lines[..k] == [line] + tail && lines[k..] == CompleteLines(rest)[k - 1..];
      ConcatCons(line, tail);
      Associate(Fed(line), Concat(OnePerLine(tail)), After(s, k));
    }
  }

  lemma Associate(a: string, b: string, c: string)
    ensures a + b + c == a + (b + c)
  {
  }

  lemma AfterNone(s: string)
    ensures After(s, 0) == s
  {
  }

  lemma FirstLine(s: string, k: nat) returns (line: string, rest: string)
    requires 0 < k <= |CompleteLines(s)|
    ensures s == Fed(line) + rest && CompleteLines(s) == [line] + CompleteLines(rest) && |rest| < |s|
    ensures After(s, k) == After(rest, k - 1)
  {
    var n := FeedAt(s);
    line, rest := s[..n], s[n + 1..];
  }

  lemma ConcatCons(line: string, tail: seq<string>)
    ensures Concat(OnePerLine([line] + tail)) == Fed(line) + Concat(OnePerLine(tail))
  {
    assert OnePerLine([line] + tail) == [Fed(line)] + OnePerLine(tail);
    assert ([Fed(line)] + OnePerLine(tail))[1..] == OnePerLine(tail);
  }

  lemma FeedOfLine(line: string, rest: string)
    requires FeedAt(line) == |line|
    ensures FeedAt(Fed(line) + rest) == |line|
    decreases |line|
  {
    if line != "" {
      FeedOfLine(line[1..], rest);
      assert (Fed(line) + rest)[1..] == Fed(line[1..]) + rest;
    }
  }

  ghost predicate LineBroken(lines: seq<string>)
  {
    forall k :: 0 <= k < |lines| ==> FeedAt(lines[k]) == |lines[k]|
  }

  lemma {:induction false} CompleteLinesBroken(s: string)
    ensures LineBroken(CompleteLines(s))
    decreases |s|
  {
    var n := FeedAt(s);
    if n < |s| {
      CompleteLinesBroken(s[n + 1..]);
      WholeLine(s, n);
    }
  }

  lemma WholeLine(s: string, n: nat)
    requires n <= FeedAt(s)
    ensures FeedAt(s[..n]) == n
  {
    var line := s[..n];
    assert forall k :: 0 <= k < n ==> line[k] == s[k];
  }

  lemma DrainOneLine(parse: string -> Event, st: State, line: string)
    requires FeedAt(line) == |line|
    ensures Drain(parse, st, Fed(line))
         == match StepLine(parse, st, line) case Stop(o) => Returned(o) case Go(next) => More(next, "")
  {
    hide StepLine, Classify;
    FeedOfLine(line, "");
    assert Fed(line) + "" == Fed(line) && Fed(line)[..|line|] == line && Fed(line)[|line| + 1..] == "";
  }

  /** One chunk per line processes every line, whatever follows. */
  lemma {:induction false} OnePerLineRuns(parse: string -> Event, st: State, lines: seq<string>, more: seq<string>)
    requires LineBroken(lines)
    ensures RunChunks(parse, st, "", OnePerLine(lines) + more)
         == match FoldLines(parse, st, lines) case Stop(o) => o case Go(next) => RunChunks(parse, next, "", more)
    decreases |lines|
  {
    hide StepLine, Drain, FeedAt;
    var chunks := OnePerLine(lines) + more;
    if lines == [] {
      assert chunks == more;
    } else {
      assert FeedAt(lines[0]) == |lines[0]|;
      DrainOneLine(parse, st, lines[0]);
      assert chunks[0] == Fed(lines[0]) && "" + Fed(lines[0]) == Fed(lines[0]);
      assert chunks[1..] == OnePerLine(lines[1..]) + more;
      match StepLine(parse, st, lines[0])
      case Stop(o) =>
      case Go(next) => OnePerLineRuns(parse, next, lines[1..], more);
    }
  }

  /** All lines: cut after every line, and the unfinished rest as a last chunk. */
  lemma AllLinesReachable(parse: string -> Event, text: string)
    ensures var lines := CompleteLines(text);
      exists chunks ::
        Concat(chunks) == text && RunChunks(parse, INITIAL, "", chunks) == Conclude(FoldLines(parse, INITIAL, lines))
  {
    hide StepLine, CompleteLines, After;
    var lines := CompleteLines(text);
    var n := |lines|;
    TextOfLines(text, n);
    assert lines[..n] == lines && lines[n..] == [];
    var rest := After(text, n);
    var chunks := OnePerLine(lines) + [rest];
    ConcatSnoc(OnePerLine(lines), rest);
    CompleteLinesBroken(text);
    OnePerLineRuns(parse, INITIAL, lines, [rest]);
    match FoldLines(parse, INITIAL, lines) {
      case Stop(o) =>
      case Go(st) =>
        RestOnly(parse, st, rest);
    }
    assert Concat(chunks) == text;
  }

  lemma RestOnly(parse: string -> Event, st: State, rest: string)
    requires CompleteLines(rest) == []
    ensures RunChunks(parse, st, "", [rest]) == Conclude(Go(st))
  {
    assert "" + rest == rest && FeedAt(rest) == |rest|;
    assert Drain(parse, st, rest) == More(st, rest);
    assert [rest][1..] == [] && RunChunks(parse, st, rest, []) == Conclude(Go(st));
  }

  lemma {:induction false} ConcatSnoc(chunks: seq<string>, last: string)
    ensures Concat(chunks + [last]) == Concat(chunks) + last
  {
    if chunks == [] {
      assert chunks + [last] == [last] && [last][1..] == [];
      assert Concat([last]) == last + Concat([]);
    } else {
      assert (chunks + [last])[1..] == chunks[1..] + [last];
      ConcatSnoc(chunks[1..], last);
    }
  }

  /** Up to a [DONE]: cut after every line before it, and send it together with everything after it. */
  lemma DonePrefixReachable(parse: string -> Event, text: string, k: nat)
    requires k < |CompleteLines(text)| && Classify(parse, CompleteLines(text)[k]) == DoneMark
    ensures var lines := CompleteLines(text);
      exists chunks ::
        && Concat(chunks) == text
        && RunChunks(parse, INITIAL, "", chunks) == Conclude(FoldLines(parse, INITIAL, lines[..k + 1]))
  {
    hide StepLine, CompleteLines, After, Classify;
    var lines := CompleteLines(text);
    TextOfLines(text, k);
    var rest := After(text, k);
    var chunks := OnePerLine(lines[..k]) + [rest];
    ConcatSnoc(OnePerLine(lines[..k]), rest);
    CompleteLinesBroken(text);
    OnePerLineRuns(parse, INITIAL, lines[..k], [rest]);
    assert lines[..k + 1] == lines[..k] + [lines[k]];
    FoldAppend(parse, INITIAL, lines[..k], [lines[k]]);
    match FoldLines(parse, INITIAL, lines[..k]) {
      case Stop(o) =>
      case Go(st) =>
        assert CompleteLines(rest)[0] == lines[k];
        DoneFirst(parse, st, rest);
        DoneAlone(parse, st, lines[k]);
    }
    assert Concat(chunks) == text;
  }

  lemma DoneAlone(parse: string -> Event, st: State, line: string)
    requires Classify(parse, line) == DoneMark
    ensures FoldLines(parse, st, [line]) == Go(st.(sawDone := true))
  {
    hide Classify;
    assert [line][1..] == [];
    assert FoldLines(parse, st.(sawDone := true), []) == Go(st.(sawDone := true));
  }

  lemma DoneFirst(parse: string -> Event, st: State, rest: string)
    requires CompleteLines(rest) != [] && Classify(parse, CompleteLines(rest)[0]) == DoneMark
    ensures RunChunks(parse, st, "", [rest]) == Conclude(Go(st.(sawDone := true)))
  {
    hide Classify;
    var n := FeedAt(rest);
    assert "" + rest == rest && CompleteLines(rest)[0] == rest[..n];
    assert Drain(parse, st, rest) == More(st.(sawDone := true), rest[n + 1..]);
    assert [rest][1..] == [];
  }

  /** Every [DONE] line leads to the outcome of the whole text, whether or not the lines after it are read. */
  ghost predicate DoneSettles(parse: string -> Event, text: string)
  {
    var lines := CompleteLines(text);
    forall k :: 0 <= k < |lines| && Classify(parse, lines[k]) == DoneMark ==>
      Conclude(FoldLines(parse, INITIAL, lines[..k + 1])) == Conclude(FoldLines(parse, INITIAL, lines))
  }

  /** The outcome is the same for every way of cutting the text exactly when every [DONE] settles it. */
  lemma ChunkingIrrelevantIff(parse: string -> Event, text: string)
    ensures (forall chunks :: Concat(chunks) == text ==>
              RunChunks(parse, INITIAL, "", chunks) == Conclude(FoldLines(parse, INITIAL, CompleteLines(text))))
       <==> DoneSettles(parse, text)
  {
    hide StepLine, CompleteLines, Classify, FoldLines, RunChunks, Conclude;
    var lines := CompleteLines(text);
    if DoneSettles(parse, text) {
      forall chunks | Concat(chunks) == text
        ensures RunChunks(parse, INITIAL, "", chunks) == Conclude(FoldLines(parse, INITIAL, lines))
      {
        var k := ChunksConsumePrefix(parse, INITIAL, "", chunks);
        assert "" + text == text;
        if chunks == [] { EmptyText(text, chunks); }
        assert lines[..|lines|] == lines;
        if k > 0 { assert lines[..k - 1 + 1] == lines[..k]; }
      }
    } else {
      var k :| 0 <= k < |lines| && Classify(parse, lines[k]) == DoneMark
        && Conclude(FoldLines(parse, INITIAL, lines[..k + 1])) != Conclude(FoldLines(parse, INITIAL, lines));
      DonePrefixReachable(parse, text, k);
    }
  }

  lemma EmptyText(text: string, chunks: seq<string>)
    requires Concat(chunks) == text && chunks == []
    ensures CompleteLines(text) == []
  {
  }

  /** After the first [DONE] nothing but more [DONE]s, skipped lines and payloads that are not JSON. */
  ghost predicate QuietAfterDone(parse: string -> Event, lines: seq<string>)
  {
    forall i, j :: 0 <= i < j < |lines| && Classify(parse, lines[i]) == DoneMark ==> Quiet(parse, lines[j])
  }

  predicate Quiet(parse: string -> Event, line: string)
  {
    var kind := Classify(parse, line);
    kind == Skip || kind == DoneMark || kind == Data(NotJson)
  }

  lemma {:induction false} QuietTail(parse: string -> Event, st: State, lines: seq<string>)
    requires st.sawDone && forall j :: 0 <= j < |lines| ==> Quiet(parse, lines[j])
    ensures FoldLines(parse, st, lines) == Go(st)
    decreases |lines|
  {
    hide Classify;
    if lines != [] {
      assert Quiet(parse, lines[0]) && StepLine(parse, st, lines[0]) == Go(st);
      QuietTail(parse, st, lines[1..]);
    }
  }

  /** In particular a stream whose only [DONE] is its last data line, or that has none, is safe. */
  lemma QuietStreamsAreSafe(parse: string -> Event, text: string)
    requires QuietAfterDone(parse, CompleteLines(text))
    ensures DoneSettles(parse, text)
  {
    hide CompleteLines, Classify, StepLine, Quiet;
    var lines := CompleteLines(text);
    forall k | 0 <= k < |lines| && Classify(parse, lines[k]) == DoneMark
      ensures Conclude(FoldLines(parse, INITIAL, lines[..k + 1])) == Conclude(FoldLines(parse, INITIAL, lines))
    {
      var tail := lines[k + 1..];
      assert lines == lines[..k + 1] + tail && lines[..k + 1] == lines[..k] + [lines[k]];
      FoldAppend(parse, INITIAL, lines[..k + 1], tail);
      FoldAppend(parse, INITIAL, lines[..k], [lines[k]]);
      match FoldLines(parse, INITIAL, lines[..k]) {
        case Stop(o) =>
        case Go(st) =>
          DoneAlone(parse, st, lines[k]);
          assert forall j :: 0 <= j < |tail| ==> tail[j] == lines[k + 1 + j];
          QuietTail(parse, st.(sawDone := true), tail);
      }
    }
  }

  /** A line after [DONE] that returns an error. */
  ghost predicate FailsAfterDone(parse: string -> Event, done: string, bad: string, error: string)
  {
    && FeedAt(done) == |done| && Classify(parse, done) == DoneMark
    && FeedAt(bad) == |bad| && StepLine(parse, INITIAL.(sawDone := true), bad) == Stop(ServerError(error))
  }

  /** Such a line is never read when it arrives together with the [DONE]. */
  lemma ReadTogether(parse: string -> Event, done: string, bad: string, rest: string, error: string)
    requires FailsAfterDone(parse, done, bad, error)
    ensures RunChunks(parse, INITIAL, "", [Fed(done) + (Fed(bad) + rest)]) == Finished(0, 0, 0, None)
  {
    hide StepLine, Classify, Drain;
    var text := Fed(done) + (Fed(bad) + rest);
    DoneStep(parse, INITIAL, done);
    DrainFirst(parse, INITIAL, done, Fed(bad) + rest);
    assert "" + text == text && [text][1..] == [];
  }

  /** It is read, and ends the request, when the chunks are cut between the two. */
  lemma ReadApart(parse: string -> Event, done: string, bad: string, rest: string, error: string)
    requires FailsAfterDone(parse, done, bad, error)
    ensures RunChunks(parse, INITIAL, "", [Fed(done), Fed(bad) + rest]) == ServerError(error)
  {
    hide StepLine, Classify, Drain, Fed;
    var tail := Fed(bad) + rest;
    DoneStep(parse, INITIAL, done);
    DrainFirst(parse, INITIAL, done, "");
    DrainFirst(parse, INITIAL.(sawDone := true), bad, rest);
    assert Fed(done) + "" == Fed(done) && "" + Fed(done) == Fed(done) && "" + tail == tail;
    assert [Fed(done), tail][1..] == [tail];
  }

  /** So the outcome of the text hangs on how it is cut. */
  lemma ErrorAfterDone(parse: string -> Event, done: string, bad: string, rest: string, error: string)
    requires FailsAfterDone(parse, done, bad, error)
    ensures !DoneSettles(parse, Fed(done) + (Fed(bad) + rest))
  {
    hide StepLine, CompleteLines, FoldLines, Classify, Fed;
    var after, tail := INITIAL.(sawDone := true), Fed(bad) + rest;
    DoneStep(parse, INITIAL, done);
    FoldFirst(parse, INITIAL, done, tail);
    FoldFirst(parse, after, bad, rest);
    DoneAlone(parse, INITIAL, done);
    var lines := CompleteLines(Fed(done) + tail);
    assert lines[0] == done && lines[..0 + 1] == [done];
    assert Conclude(FoldLines(parse, INITIAL, lines)) == ServerError(error);
    assert Conclude(FoldLines(parse, INITIAL, lines[..0 + 1])) != Conclude(FoldLines(parse, INITIAL, lines));
  }

  lemma DoneStep(parse: string -> Event, st: State, line: string)
    requires Classify(parse, line) == DoneMark
    ensures StepLine(parse, st, line) == Go(st.(sawDone := true))
  {
    hide Classify;
  }

  lemma DrainFirst(parse: string -> Event, st: State, line: string, rest: string)
    requires FeedAt(line) == |line|
    ensures var step, drained := StepLine(parse, st, line), Drain(parse, st, Fed(line) + rest);
      && (step.Stop? ==> drained == Returned(step.outcome))
      && (step.Go? ==> drained == if Classify(parse, line) == DoneMark then More(step.st, rest)
           else Drain(parse, step.st, rest))
  {
    hide StepLine, Classify;
    FeedOfLine(line, rest);
    var buf := Fed(line) + rest;
    assert buf[..|line|] == line && buf[|line| + 1..] == rest;
  }

  lemma FoldFirst(parse: string -> Event, st: State, line: string, rest: string)
    requires FeedAt(line) == |line|
    ensures CompleteLines(Fed(line) + rest) == [line] + CompleteLines(rest)
    ensures var step, folded := StepLine(parse, st, line), FoldLines(parse, st, [line] + CompleteLines(rest));
      && (step.Stop? ==> folded == step)
      && (step.Go? ==> folded == FoldLines(parse, step.st, CompleteLines(rest)))
  {
    hide StepLine;
    FeedOfLine(line, rest);
    var buf := Fed(line) + rest;
    assert buf[..|line|] == line && buf[|line| + 1..] == rest;
    assert ([line] + CompleteLines(rest))[1..] == CompleteLines(rest);
  }

  const DONE_LINE: string := "data: [DONE]"
  const X_LINE: string := "data: x"

  lemma DoneText(parse: string -> Event)
    ensures FeedAt(DONE_LINE) == |DONE_LINE| && Classify(parse, DONE_LINE) == DoneMark
  {
    hide StripBy, FeedAt;
    StripKeeps(DONE_LINE, IsSpace);
    NoFeed(DONE_LINE);
    assert DONE_LINE[..6] == "data: " && DONE_LINE[6..] == "[DONE]";
  }

  lemma XText(parse: string -> Event)
    ensures FeedAt(X_LINE) == |X_LINE| && Classify(parse, X_LINE) == Data(parse("x"))
  {
    hide StripBy, FeedAt;
    StripKeeps(X_LINE, IsSpace);
    NoFeed(X_LINE);
    assert X_LINE[..6] == "data: " && X_LINE[6..] == "x" && |X_LINE[6..]| != |"[DONE]"|;
  }

  lemma NoFeed(s: string)
    requires '\n' !in s
    ensures FeedAt(s) == |s|
  {
  }

  /** Texts, among them one whose last data line is [DONE], that two cuts read as success and as a server error. */
  lemma ChunkingMatters(parse: string -> Event, rest: string)
    requires parse("x") == Frame(Some("e"), [], None)
    ensures var text := Fed(DONE_LINE) + (Fed(X_LINE) + rest);
      && !DoneSettles(parse, text)
      && RunChunks(parse, INITIAL, "", [text]) == Finished(0, 0, 0, None)
      && RunChunks(parse, INITIAL, "", [Fed(DONE_LINE), Fed(X_LINE) + rest]) == ServerError("e")
  {
    hide Classify, DoneSettles, RunChunks, FeedAt, Fed;
    DoneText(parse);
    XText(parse);
    ReadTogether(parse, DONE_LINE, X_LINE, rest, "e");
    ReadApart(parse, DONE_LINE, X_LINE, rest, "e");
    ErrorAfterDone(parse, DONE_LINE, X_LINE, rest, "e");
  }

  // -------------------------------------------------------- what counts as good

  predicate EndsBadly(parse: string -> Event, line: string)
  {
    match Classify(parse, line)
    case Data(Raises) => true
    case Data(Frame(error, _, _)) => error.Some?
    case _ => false
  }

  predicate Terminal(parse: string -> Event, line: string)
  {
    match Classify(parse, line)
    case DoneMark => true
    case Data(Frame(None, choices, _)) => exists k :: 0 <= k < |choices| && choices[k].finish.Some?
    case _ => false
  }

  lemma {:induction false} ChoicesFinish(st: State, choices: seq<Choice>)
    ensures var s := TakeChoices(st, choices);
      && s.sawDone == st.sawDone
      && (s.finish.Some? <==> st.finish.Some? || exists k :: 0 <= k < |choices| && choices[k].finish.Some?)
  {
    if choices != [] { ChoicesFinish(st, choices[..|choices| - 1]); }
  }

  /** A request is good exactly when no line carries an error and some line is terminal. */
  lemma {:induction false} GoodIff(parse: string -> Event, st: State, lines: seq<string>)
    ensures Conclude(FoldLines(parse, st, lines)).Finished?
       <==> && (forall k :: 0 <= k < |lines| ==> !EndsBadly(parse, lines[k]))
            && (st.sawDone || st.finish.Some? || exists k :: 0 <= k < |lines| && Terminal(parse, lines[k]))
    decreases |lines|
  {
    hide Classify, TakeChoices;
    if lines != [] {
      var step, rest := StepLine(parse, st, lines[0]), lines[1..];
      assert lines == [lines[0]] + rest;
      if step.Go? {
        GoodIff(parse, step.st, rest);
        match Classify(parse, lines[0]) {
          case Data(Frame(error, choices, usage)) => ChoicesFinish(st, choices);
          case _ =>
        }
        assert (exists k :: 0 <= k < |lines| && Terminal(parse, lines[k]))
          <==> Terminal(parse, lines[0]) || exists k :: 0 <= k < |rest| && Terminal(parse, rest[k]);
      }
    }
  }
}
