// The replay tool's two stream decoders.
module ReplayDecode {
  import opened Text
  import opened Lines

  datatype Call = Call(name: string, arguments: string)

  /** A part of a tool call; an empty name or empty arguments are as good as absent. */
  datatype ToolDelta = ToolDelta(index: nat, name: string, arguments: string)

  /** Token counts by name; an empty one is as good as absent. */
  type Usage = map<string, int>

  /** An OpenAI chunk's first choice; None when `choices` is missing or empty. An empty finish counts as none. */
  datatype Chunk = Chunk(choice: Option<Choice>, usage: Usage)
  datatype Choice = Choice(content: string, tools: seq<ToolDelta>, finish: string)

  datatype Summary = Summary(content: string, calls: seq<Call>, finish: Option<string>, usage: Option<Usage>,
                             numChunks: nat)

  const EMPTY: Summary := Summary("", [], None, None, 0)

  // ---------------------------------------------------------------- data lines

  /** A payload: nothing to decode, JSON that the decoder raises on, such as a number, or what it decodes. */
  datatype Read<+T> = Nothing | Raises | Object(value: T)

  /** What a line carries; nothing for other lines, empty payloads, payloads to skip and what is not JSON. */
  function Payload<T>(json: string -> Read<T>, skip: set<string>, raw: string): Read<T>
  {
    var line := Strip(raw);
    if !("data:" <= line) then Nothing
    else
      var payload := Strip(line[5..]);
      if payload == "" || payload in skip then Nothing else json(payload)
  }

  /** All that the lines carry; None when a line raises. */
  function Payloads<T>(json: string -> Read<T>, skip: set<string>, lines: seq<string>): Option<seq<T>>
  {
    if lines == [] then Some([])
    else
      match (Payloads(json, skip, lines[..|lines| - 1]), Payload(json, skip, lines[|lines| - 1]))
      case (None, _) => None
      case (Some(_), Raises) => None
      case (Some(front), Nothing) => Some(front)
      case (Some(front), Object(value)) => Some(front + [value])
  }

  lemma PayloadsNext<T>(json: string -> Read<T>, skip: set<string>, lines: seq<string>, n: nat)
    requires n < |lines| && Payloads(json, skip, lines[..n]).Some?
    ensures var front, obj := Payloads(json, skip, lines[..n]).value, Payload(json, skip, lines[n]);
            var next := Payloads(json, skip, lines[..n + 1]);
      && (obj.Raises? ==> next == None)
      && (obj.Nothing? ==> next == Some(front))
      && (obj.Object? ==> next == Some(front + [obj.value]))
  {
    hide Payload;
    assert lines[..n + 1][..n] == lines[..n];
  }

  lemma {:induction false} RaisesStay<T>(json: string -> Read<T>, skip: set<string>, lines: seq<string>, n: nat)
    requires n <= |lines| && Payloads(json, skip, lines[..n]) == None
    ensures Payloads(json, skip, lines) == None
    decreases |lines| - n
  {
    hide Payload;
    if n < |lines| {
      assert lines[..n + 1][..n] == lines[..n];
      RaisesStay(json, skip, lines, n + 1);
    } else {
      assert lines[..n] == lines;
    }
  }

  /** The decoder raises exactly when some line does. */
  lemma {:induction false} RaisesIff<T>(json: string -> Read<T>, skip: set<string>, lines: seq<string>)
    ensures Payloads(json, skip, lines) == None
         <==> exists k :: 0 <= k < |lines| && Payload(json, skip, lines[k]).Raises?
  {
    hide Payload;
    if lines != [] {
      var l := |lines| - 1;
      RaisesIff(json, skip, lines[..l]);
      if k :| 0 <= k < l && Payload(json, skip, lines[k]).Raises? { assert lines[..l][k] == lines[k]; }
    }
  }

  const DONE: set<string> := {"[DONE]"}

  // ------------------------------------------------------------ OpenAI streams

  function Padded(calls: seq<Call>, n: nat): (r: seq<Call>)
    ensures |r| == (if |calls| < n then n else |calls|) && calls <= r
    ensures forall k :: |calls| <= k < |r| ==> r[k] == Call("", "")
  {
    if |calls| < n then calls + seq(n - |calls|, _ => Call("", "")) else calls
  }

  function ApplyDelta(calls: seq<Call>, d: ToolDelta): seq<Call>
  {
    var r := Padded(calls, d.index + 1);
    var old' := r[d.index];
    r[d.index := Call(if d.name != "" then d.name else old'.name, old'.arguments + d.arguments)]
  }

  function ApplyAll(calls: seq<Call>, ds: seq<ToolDelta>): seq<Call>
  {
    if ds == [] then calls else ApplyDelta(ApplyAll(calls, ds[..|ds| - 1]), ds[|ds| - 1])
  }

  function Absorb(s: Summary, c: Chunk): Summary
  {
    var t := s.(usage := if c.usage != map[] then Some(c.usage) else s.usage, numChunks := s.numChunks + 1);
    match c.choice
    case None => t
    case Some(x) =>
      t.(content := s.content + x.content, calls := ApplyAll(s.calls, x.tools),
          finish := if x.finish != "" then Some(x.finish) else s.finish)
  }

  function Absorbed(chunks: seq<Chunk>): Summary
  {
    if chunks == [] then EMPTY else Absorb(Absorbed(chunks[..|chunks| - 1]), chunks[|chunks| - 1])
  }

  lemma AbsorbedNext(chunks: seq<Chunk>, c: Chunk)
    ensures Absorbed(chunks + [c]) == Absorb(Absorbed(chunks), c)
  {
    assert (chunks + [c])[..|chunks|] == chunks;
  }

  function FromRaw(json: string -> Read<Chunk>, raw: string): Option<Summary>
  {
    var chunks := Payloads(json, DONE, SplitLines(raw));
    if chunks.Some? then Some(Absorbed(chunks.value)) else None
  }

  /** The whole text of a stream; json decodes one payload. None where a payload raises. */
  method ParseSse(json: string -> Read<Chunk>, raw: string) returns (s: Option<Summary>)
    ensures s == FromRaw(json, raw)
  {
    hide Payload, SplitLines, Payloads, Absorbed, ApplyAll, ApplyDelta, Strip;
    var lines := SplitLines(raw);
    NothingYet(json, DONE, lines);
    var content, calls, numChunks := "", [], 0;
    var finish: Option<string>, usage: Option<Usage> := None, None;
    for n := 0 to |lines|
      invariant var chunks := Payloads(json, DONE, lines[..n]);
                chunks.Some? && Absorbed(chunks.value) == Summary(content, calls, finish, usage, numChunks)
    {
      PayloadsNext(json, DONE, lines, n);
      var obj := ReadPayload(json, DONE, lines[n]);
      if obj.Nothing? { continue; }
      if obj.Raises? {
        RaisesStay(json, DONE, lines, n + 1);
        return None;
      }
      AbsorbedNext(Payloads(json, DONE, lines[..n]).value, obj.value);
      numChunks := numChunks + 1;
      if obj.value.usage != map[] { usage := Some(obj.value.usage); }
      if obj.value.choice.None? { continue; }
      var c0 := obj.value.choice.value;
      content := content + c0.content;
      calls := MergeTools(calls, c0.tools);
      if c0.finish != "" { finish := Some(c0.finish); }
    }
    assert lines[..|lines|] == lines;
    s := Some(Summary(content, calls, finish, usage, numChunks));
  }

  method ReadPayload<T>(json: string -> Read<T>, skip: set<string>, raw: string) returns (obj: Read<T>)
    ensures obj == Payload(json, skip, raw)
  {
    var line := Strip(raw);
    if !("data:" <= line) { return Nothing; }
    var payload := Strip(line[5..]);
    if payload == "" || payload in skip { return Nothing; }
    obj := json(payload);
  }

  /** The list grows with blank entries until the index exists; then the entry is filled in. */
  method MergeTools(before: seq<Call>, tools: seq<ToolDelta>) returns (calls: seq<Call>)
    ensures calls == ApplyAll(before, tools)
  {
    hide Padded;
    calls := before;
    for n := 0 to |tools|
      invariant calls == ApplyAll(before, tools[..n])
    {
      assert tools[..n + 1][..n] == tools[..n];
      var idx := tools[n].index;
      calls := GrowTo(calls, idx);
      if tools[n].name != "" { calls := calls[idx := calls[idx].(name := tools[n].name)]; }
      calls := calls[idx := calls[idx].(arguments := calls[idx].arguments + tools[n].arguments)];
    }
    assert tools[..|tools|] == tools;
  }

  method GrowTo(before: seq<Call>, idx: nat) returns (calls: seq<Call>)
    ensures calls == Padded(before, idx + 1)
  {
    calls := before;
    while |calls| <= idx
      invariant before <= calls && (|calls| <= idx + 1 || calls == before)
      invariant forall k :: |before| <= k < |calls| ==> calls[k] == Call("", "")
      decreases idx + 1 - |calls|
    {
      calls := calls + [Call("", "")];
    }
  }

  // ------------------------------------------- reassembly is per-index concatenation

  /** How many calls the deltas open: one more than their largest index. */
  function Opened(ds: seq<ToolDelta>): nat
  {
    if ds == [] then 0
    else
      var n, m := Opened(ds[..|ds| - 1]), ds[|ds| - 1].index + 1;
      if n < m then m else n
  }

  function ArgumentsOf(ds: seq<ToolDelta>, i: nat): string
  {
    if ds == [] then ""
    else ArgumentsOf(ds[..|ds| - 1], i) + if ds[|ds| - 1].index == i then ds[|ds| - 1].arguments else ""
  }

  /** The last name given for index i. */
  function NameOf(ds: seq<ToolDelta>, i: nat): string
  {
    if ds == [] then ""
    else if ds[|ds| - 1].index == i && ds[|ds| - 1].name != "" then ds[|ds| - 1].name
    else NameOf(ds[..|ds| - 1], i)
  }

  /** Whatever the interleaving, each call is its index's last name and concatenated arguments. */
  lemma {:induction false} CallsPerIndex(ds: seq<ToolDelta>)
    ensures |ApplyAll([], ds)| == Opened(ds)
    ensures forall i :: 0 <= i < Opened(ds) ==> ApplyAll([], ds)[i] == Call(NameOf(ds, i), ArgumentsOf(ds, i))
  {
    if ds != [] {
      var front, d := ds[..|ds| - 1], ds[|ds| - 1];
      CallsPerIndex(front);
      var calls := ApplyAll([], front);
      var r := Padded(calls, d.index + 1);
      forall i | 0 <= i < |r|
        ensures r[i] == Call(NameOf(front, i), ArgumentsOf(front, i))
      {
        if i >= |calls| { NothingBeyond(front, i); }
      }
    }
  }

  lemma {:induction false} NothingBeyond(ds: seq<ToolDelta>, i: nat)
    requires i >= Opened(ds)
    ensures NameOf(ds, i) == "" && ArgumentsOf(ds, i) == ""
  {
    if ds != [] { NothingBeyond(ds[..|ds| - 1], i); }
  }

  /** Two delta sequences that agree index by index reassemble to the same calls. */
  lemma SameCalls(a: seq<ToolDelta>, b: seq<ToolDelta>)
    requires Opened(a) == Opened(b)
    requires forall i :: 0 <= i < Opened(a) ==> NameOf(a, i) == NameOf(b, i) && ArgumentsOf(a, i) == ArgumentsOf(b, i)
    ensures ApplyAll([], a) == ApplyAll([], b)
  {
    CallsPerIndex(a);
    CallsPerIndex(b);
  }

  lemma ViewsSnoc(front: seq<ToolDelta>, d: ToolDelta, i: nat)
    ensures ArgumentsOf(front + [d], i) == ArgumentsOf(front, i) + if d.index == i then d.arguments else ""
    ensures NameOf(front + [d], i) == if d.index == i && d.name != "" then d.name else NameOf(front, i)
    ensures Opened(front + [d]) == if Opened(front) < d.index + 1 then d.index + 1 else Opened(front)
  {
    assert (front + [d])[..|front|] == front;
  }

  lemma NoViews(i: nat)
    ensures ArgumentsOf([], i) == "" && NameOf([], i) == "" && Opened([]) == 0
  {
  }

  lemma {:induction false} AppendViews(a: seq<ToolDelta>, b: seq<ToolDelta>, i: nat)
    ensures ArgumentsOf(a + b, i) == ArgumentsOf(a, i) + ArgumentsOf(b, i)
    ensures NameOf(a + b, i) == if NameOf(b, i) != "" then NameOf(b, i) else NameOf(a, i)
    ensures Opened(a + b) == if Opened(a) < Opened(b) then Opened(b) else Opened(a)
    decreases |b|
  {
    hide ArgumentsOf, NameOf, Opened;
    if b == [] {
      NoViews(i);
      assert a + b == a;
      assert ArgumentsOf(a, i) + "" == ArgumentsOf(a, i);
    } else {
      var front, d := b[..|b| - 1], b[|b| - 1];
      AppendViews(a, front, i);
      ViewsSnoc(front, d, i);
      ViewsSnoc(a + front, d, i);
      assert front + [d] == b && a + front + [d] == a + b;
      var more := if d.index == i then d.arguments else "";
      assert ArgumentsOf(a, i) + ArgumentsOf(front, i) + more == ArgumentsOf(a, i) + (ArgumentsOf(front, i) + more);
    }
  }

  lemma OneView(d: ToolDelta, i: nat)
    ensures ArgumentsOf([d], i) == (if d.index == i then d.arguments else "")
    ensures NameOf([d], i) == (if d.index == i then d.name else "") && Opened([d]) == d.index + 1
  {
    assert [d][..0] == [];
    assert ArgumentsOf([], i) == "" && NameOf([], i) == "" && Opened([]) == 0;
  }

  lemma TwoViews(d: ToolDelta, e: ToolDelta, i: nat)
    ensures ArgumentsOf([d, e], i) == (if d.index == i then d.arguments else "")
            + (if e.index == i then e.arguments else "")
    ensures NameOf([d, e], i) == if e.index == i && e.name != "" then e.name else if d.index == i then d.name else ""
    ensures Opened([d, e]) == if d.index < e.index then e.index + 1 else d.index + 1
    ensures ArgumentsOf([d], i) == (if d.index == i then d.arguments else "")
    ensures NameOf([d], i) == (if d.index == i then d.name else "") && Opened([d]) == d.index + 1
  {
    OneView(d, i);
    OneView(e, i);
    AppendViews([d], [e], i);
    assert [d] + [e] == [d, e];
  }

  /** Splitting a delta anywhere in a stream changes no call. */
  lemma SplitDelta(before: seq<ToolDelta>, d: ToolDelta, cut: nat, after: seq<ToolDelta>)
    requires cut <= |d.arguments|
    ensures ApplyAll([], before + [d] + after)
         == ApplyAll([], before + [d.(arguments := d.arguments[..cut]), ToolDelta(d.index, "", d.arguments[cut..])]
             + after)
  {
    var x, y := d.(arguments := d.arguments[..cut]), ToolDelta(d.index, "", d.arguments[cut..]);
    assert x.arguments + y.arguments == d.arguments;
    forall i: nat
      ensures ArgumentsOf([d], i) == ArgumentsOf([x, y], i) && NameOf([d], i) == NameOf([x, y], i)
              && Opened([d]) == Opened([x, y])
    {
      TwoViews(x, y, i);
      TwoViews(d, d, i);
    }
    Replace(before, [d], [x, y], after);
  }

  /** Swapping neighbouring deltas of different calls changes no call. */
  lemma SwapDeltas(before: seq<ToolDelta>, d: ToolDelta, e: ToolDelta, after: seq<ToolDelta>)
    requires d.index != e.index
    ensures ApplyAll([], before + [d, e] + after) == ApplyAll([], before + [e, d] + after)
  {
    forall i: nat
      ensures ArgumentsOf([d, e], i) == ArgumentsOf([e, d], i) && NameOf([d, e], i) == NameOf([e, d], i)
      ensures Opened([d, e]) == Opened([e, d])
    {
      TwoViews(d, e, i);
      TwoViews(e, d, i);
    }
    Replace(before, [d, e], [e, d], after);
  }

  /** A piece of the stream can be replaced by any piece that agrees with it index by index. */
  lemma Replace(before: seq<ToolDelta>, a: seq<ToolDelta>, b: seq<ToolDelta>, after: seq<ToolDelta>)
    requires Opened(a) == Opened(b)
    requires forall i: nat :: ArgumentsOf(a, i) == ArgumentsOf(b, i) && NameOf(a, i) == NameOf(b, i)
    ensures ApplyAll([], before + a + after) == ApplyAll([], before + b + after)
  {
    hide ArgumentsOf, NameOf, Opened, ApplyAll;
    forall i: nat
      ensures ArgumentsOf(before + a + after, i) == ArgumentsOf(before + b + after, i)
      ensures NameOf(before + a + after, i) == NameOf(before + b + after, i)
      ensures Opened(before + a + after) == Opened(before + b + after)
    {
      AppendViews(before, a, i);
      AppendViews(before, b, i);
      AppendViews(before + a, after, i);
      AppendViews(before + b, after, i);
    }
    assert ArgumentsOf(before + a + after, 0) == ArgumentsOf(before + b + after, 0);
    SameCalls(before + a + after, before + b + after);
  }

  // -------------------------------------------------- what a whole stream depends on

  function AllText(chunks: seq<Chunk>): string
  {
    if chunks == [] then ""
    else AllText(chunks[..|chunks| - 1]) + (match chunks[|chunks| - 1].choice case Some(x) => x.content case None => "")
  }

  function AllTools(chunks: seq<Chunk>): seq<ToolDelta>
  {
    if chunks == [] then []
    else AllTools(chunks[..|chunks| - 1]) + (match chunks[|chunks| - 1].choice case Some(x) => x.tools case None => [])
  }

  function LastFinish(chunks: seq<Chunk>): Option<string>
  {
    if chunks == [] then None
    else
      match chunks[|chunks| - 1].choice
      case Some(x) => if x.finish != "" then Some(x.finish) else LastFinish(chunks[..|chunks| - 1])
      case None => LastFinish(chunks[..|chunks| - 1])
  }

  function LastUsage(chunks: seq<Chunk>): Option<Usage>
  {
    if chunks == [] then None
    else if chunks[|chunks| - 1].usage != map[] then Some(chunks[|chunks| - 1].usage)
    else LastUsage(chunks[..|chunks| - 1])
  }

  lemma {:induction false} ApplyAppend(calls: seq<Call>, a: seq<ToolDelta>, b: seq<ToolDelta>)
    ensures ApplyAll(calls, a + b) == ApplyAll(ApplyAll(calls, a), b)
    decreases |b|
  {
    hide ApplyDelta;
    var all := a + b;
    if b == [] {
      assert all == a;
    } else {
      var front := b[..|b| - 1];
      ApplyAppend(calls, a, front);
      assert all[..|all| - 1] == a + front && all[|all| - 1] == b[|b| - 1];
    }
  }

  /** The summary sees only the joined text, the joined deltas, the last finish reason and the last usage. */
  lemma {:induction false} AbsorbedViews(chunks: seq<Chunk>)
    ensures Absorbed(chunks)
         == Summary(AllText(chunks), ApplyAll([], AllTools(chunks)), LastFinish(chunks), LastUsage(chunks), |chunks|)
  {
    hide ApplyDelta;
    if chunks != [] {
      var front, c := chunks[..|chunks| - 1], chunks[|chunks| - 1];
      AbsorbedViews(front);
      match c.choice {
        case Some(x) => ApplyAppend([], AllTools(front), x.tools);
        case None =>
          assert AllTools(front) + [] == AllTools(front);
          assert AllText(front) + "" == AllText(front);
      }
    }
  }

  // --------------------------------------------------------- Anthropic streams

  /** A typed event; an empty stop reason counts as none. */
  datatype Event = MessageStart(usage: Usage) | BlockStart(index: nat, isTool: bool, name: string)
      | TextDelta(text: string)
                 | JsonDelta(index: nat, partial: string) | MessageDelta(stop: string, usage: Usage) | Other

  function MapStop(stop: string): string
  {
    if stop == "tool_use" then "tool_calls"
    else if stop == "end_turn" then "stop"
    else if stop == "max_tokens" then "length" else stop
  }

  /** The decoder's variables; blocks maps a content block to the call it fills. */
  datatype Decoding = Decoding(content: string, calls: seq<Call>, blocks: map<nat, nat>, stop: Option<string>,
                               usage: Option<Usage>, numChunks: nat)

  /** message_delta adds to the counts or replaces those of the same name. */
  function Merged(usage: Option<Usage>, more: Usage): Option<Usage>
  {
    if more != map[] then Some(usage.GetOr(map[]) + more) else usage
  }

  function Decode(d: Decoding, ev: Event): Decoding
    requires forall b :: b in d.blocks ==> d.blocks[b] < |d.calls|
  {
    var e := d.(numChunks := d.numChunks + 1);
    match ev
    case MessageStart(usage) => e.(usage := if usage != map[] then Some(usage) else d.usage)
    case BlockStart(index, isTool, name) =>
      if isTool then e.(calls := d.calls + [Call(name, "")], blocks := d.blocks[index := |d.calls|]) else e
    case TextDelta(text) => e.(content := d.content + text)
    case JsonDelta(index, partial) =>
      if index in d.blocks then
        var k := d.blocks[index];
        e.(calls := d.calls[k := d.calls[k].(arguments := d.calls[k].arguments + partial)])
      else e
    case MessageDelta(stop, usage) =>
      e.(stop := if stop != "" then Some(stop) else d.stop, usage := Merged(d.usage, usage))
    case Other => e
  }

  function Decoded(events: seq<Event>): (d: Decoding)
    ensures forall b :: b in d.blocks ==> d.blocks[b] < |d.calls|
  {
    if events == [] then Decoding("", [], map[], None, None, 0)
    else Decode(Decoded(events[..|events| - 1]), events[|events| - 1])
  }

  function Summarize(d: Decoding): Summary
  {
    Summary(d.content, d.calls, if d.stop.Some? then Some(MapStop(d.stop.value)) else None, d.usage, d.numChunks)
  }

  lemma DecodedNext(events: seq<Event>, ev: Event)
    ensures Decoded(events + [ev]) == Decode(Decoded(events), ev)
  {
    assert (events + [ev])[..|events|] == events;
  }

  lemma NothingYet<T>(json: string -> Read<T>, skip: set<string>, lines: seq<string>)
    ensures Payloads(json, skip, lines[..0]) == Some([]) && Absorbed([]) == EMPTY
            && Decoded([]) == Decoding("", [], map[], None, None, 0)
  {
  }

  function FromAnthropicRaw(json: string -> Read<Event>, raw: string): Option<Summary>
  {
    var events := Payloads(json, {}, SplitLines(raw));
    if events.Some? then Some(Summarize(Decoded(events.value))) else None
  }

  /** No payload is skipped by name here; `[DONE]` is not JSON. None where a payload raises. */
  method ParseAnthropicSse(json: string -> Read<Event>, raw: string) returns (s: Option<Summary>)
    ensures s == FromAnthropicRaw(json, raw)
  {
    hide Payload, SplitLines, Payloads, Decoded, Strip;
    var lines := SplitLines(raw);
    NothingYet(json, {}, lines);
    var content, numChunks := "", 0;
    var calls: seq<Call> := [];
    var finish: Option<string>, usage: Option<Usage> := None, None;
    var blocks: map<nat, nat> := map[];
    for n := 0 to |lines|
      invariant var events := Payloads(json, {}, lines[..n]);
                events.Some? && Decoded(events.value) == Decoding(content, calls, blocks, finish, usage, numChunks)
    {
      PayloadsNext(json, {}, lines, n);
      var obj := ReadPayload(json, {}, lines[n]);
      if obj.Nothing? { continue; }
      if obj.Raises? {
        RaisesStay(json, {}, lines, n + 1);
        return None;
      }
      DecodedNext(Payloads(json, {}, lines[..n]).value, obj.value);
      numChunks := numChunks + 1;
      match obj.value
      case MessageStart(start) => if start != map[] { usage := Some(start); }
      case BlockStart(index, isTool, name) =>
        if isTool {
          var at := |calls|;
          calls := calls + [Call(name, "")];
          blocks := blocks[index := at];
        }
      case TextDelta(text) => content := content + text;
      case JsonDelta(index, partial) =>
        if index in blocks {
          var at := blocks[index];
          calls := calls[at := calls[at].(arguments := calls[at].arguments + partial)];
        }
      case MessageDelta(stop, more) =>
        if stop != "" { finish := Some(stop); }
        if more != map[] { usage := Some(usage.GetOr(map[]) + more); }
      case Other =>
    }
    assert lines[..|lines|] == lines;
    if finish == Some("tool_use") {
      finish := Some("tool_calls");
    } else if finish == Some("end_turn") {
      finish := Some("stop");
    } else if finish == Some("max_tokens") {
      finish := Some("length");
    }
    s := Some(Summary(content, calls, finish, usage, numChunks));
  }

  /** The words that the last stop reason becomes; one that has no such word is kept. */
  lemma StopWords(events: seq<Event>, stop: string, usage: Usage)
    requires stop != ""
    ensures var finish := Summarize(Decoded(events + [MessageDelta(stop, usage)])).finish;
      && (stop == "tool_use" ==> finish == Some("tool_calls"))
      && (stop == "end_turn" ==> finish == Some("stop"))
      && (stop == "max_tokens" ==> finish == Some("length"))
      && (stop !in {"tool_use", "end_turn", "max_tokens"} ==> finish == Some(stop))
  {
    DecodedNext(events, MessageDelta(stop, usage));
  }

  // -------------------------------------------------- one message, two wire formats

  /** The OpenAI chunk that says what an Anthropic event says, given the blocks opened so far. */
  function Translate(d: Decoding, ev: Event): Chunk
  {
    match ev
    case MessageStart(usage) => Chunk(None, usage)
    case BlockStart(_, isTool, name) => if isTool then Tools([ToolDelta(|d.calls|, name, "")]) else Chunk(None, map[])
    case TextDelta(text) => Chunk(Some(Choice(text, [], "")), map[])
    case JsonDelta(index, partial) =>
      if index in d.blocks then Tools([ToolDelta(d.blocks[index], "", partial)]) else Chunk(None, map[])
    case MessageDelta(stop, usage) =>
      Chunk(Some(Choice("", [], if stop != "" then MapStop(stop) else "")),
          if usage != map[] then d.usage.GetOr(map[]) + usage else map[])
    case Other => Chunk(None, map[])
  }

  function Tools(ds: seq<ToolDelta>): Chunk { Chunk(Some(Choice("", ds, "")), map[]) }

  function Translated(events: seq<Event>): (chunks: seq<Chunk>)
    ensures |chunks| == |events|
  {
    if events == [] then []
    else
      var front := events[..|events| - 1];
      Translated(front) + [Translate(Decoded(front), events[|events| - 1])]
  }

  lemma ApplyOne(calls: seq<Call>, d: ToolDelta)
    ensures ApplyAll(calls, [d]) == ApplyDelta(calls, d)
    ensures ApplyAll(calls, []) == calls
  {
    assert [d][..0] == [];
  }

  /** Every Anthropic stream decodes to what the OpenAI stream of the same message decodes to. */
  lemma {:induction false} FormatsAgree(events: seq<Event>)
    ensures Absorbed(Translated(events)) == Summarize(Decoded(events))
  {
    if events != [] {
      var front, ev := events[..|events| - 1], events[|events| - 1];
      var d := Decoded(front);
      FormatsAgree(front);
      var chunks := Translated(events);
      assert chunks[..|chunks| - 1] == Translated(front);
      TranslateStep(d, ev);
    }
  }

  lemma MergedNonempty(a: Usage, b: Usage)
    ensures b != map[] ==> a + b != map[]
  {
    if b != map[] {
      assert b.Keys != {};
      assert (a + b).Keys == a.Keys + b.Keys;
    }
  }

  lemma TranslateStep(d: Decoding, ev: Event)
    requires forall b :: b in d.blocks ==> d.blocks[b] < |d.calls|
    ensures Absorb(Summarize(d), Translate(d, ev)) == Summarize(Decode(d, ev))
  {
    match ev
    case MessageStart(usage) =>
    case BlockStart(_, isTool, name) =>
      ApplyOne(d.calls, ToolDelta(|d.calls|, name, ""));
      assert Padded(d.calls, |d.calls| + 1) == d.calls + [Call("", "")];
      assert "" + "" == "";
      assert (d.calls + [Call("", "")])[|d.calls| := Call(name, "")] == d.calls + [Call(name, "")];
      assert ApplyDelta(d.calls, ToolDelta(|d.calls|, name, "")) == d.calls + [Call(name, "")];
      assert d.content + "" == d.content;
    case TextDelta(text) => ApplyOne(d.calls, ToolDelta(0, "", ""));
    case JsonDelta(index, partial) =>
      if index in d.blocks { ApplyOne(d.calls, ToolDelta(d.blocks[index], "", partial)); }
    case MessageDelta(stop, usage) =>
      ApplyOne(d.calls, ToolDelta(0, "", ""));
      MergedNonempty(d.usage.GetOr(map[]), usage);
    case Other =>
  }

  /** However each is chunked: streams that carry the same text, calls and finish reason decode alike. */
  lemma SameMessageSameSummary(chunks: seq<Chunk>, events: seq<Event>)
    requires var t := Translated(events);
      && AllText(chunks) == AllText(t) && LastFinish(chunks) == LastFinish(t) && LastUsage(chunks) == LastUsage(t)
      && Opened(AllTools(chunks)) == Opened(AllTools(t))
      && forall i :: 0 <= i < Opened(AllTools(t)) ==>
           && NameOf(AllTools(chunks), i) == NameOf(AllTools(t), i)
           && ArgumentsOf(AllTools(chunks), i) == ArgumentsOf(AllTools(t), i)
    ensures Absorbed(chunks).(numChunks := |events|) == Summarize(Decoded(events))
  {
    hide AllText, AllTools, LastFinish, LastUsage, ApplyAll, Absorbed, Decoded;
    FormatsAgree(events);
    AbsorbedViews(chunks);
    AbsorbedViews(Translated(events));
    SameCalls(AllTools(chunks), AllTools(Translated(events)));
  }
}
