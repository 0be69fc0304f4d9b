// One message encoded in either wire format, and what the two stream decoders make of it.
module ReplayMessages {
  import opened Text
  import opened Sequences
  import opened ReplayDecode

  /** A call sent as its name and then its arguments in pieces. */
  datatype Sent = Sent(name: string, pieces: seq<string>)

  /** A message in pieces: OpenAI finish reason, and the usage known at its start and at its end. */
  datatype Message = Message(texts: seq<string>, calls: seq<Sent>, finish: string, start: Usage, end: Usage)

  function CallsSent(calls: seq<Sent>): (r: seq<Call>)
    ensures |r| == |calls|
  {
    if calls == [] then []
    else CallsSent(calls[..|calls| - 1]) + [Call(calls[|calls| - 1].name, Flat(calls[|calls| - 1].pieces))]
  }

  /** What a message says, however it is cut into pieces. */
  function Said(m: Message, numChunks: nat): Summary
  {
    var used := m.start + m.end;
    Summary(Flat(m.texts), CallsSent(m.calls), if m.finish != "" then Some(m.finish) else None,
            if used != map[] then Some(used) else None, numChunks)
  }

  function TextChunks(texts: seq<string>): seq<Chunk>
  {
    if texts == [] then []
    else TextChunks(texts[..|texts| - 1]) + [Chunk(Some(Choice(texts[|texts| - 1], [], "")), map[])]
  }

  function ArgumentChunks(index: nat, pieces: seq<string>): seq<Chunk>
  {
    if pieces == [] then []
    else ArgumentChunks(index, pieces[..|pieces| - 1]) + [Tools([ToolDelta(index, "", pieces[|pieces| - 1])])]
  }

  /** Each call under its number: its name, then its pieces. */
  function CallChunks(calls: seq<Sent>): seq<Chunk>
  {
    if calls == [] then []
    else
      var l := |calls| - 1;
      CallChunks(calls[..l]) + ([Tools([ToolDelta(l, calls[l].name, "")])] + ArgumentChunks(l, calls[l].pieces))
  }

  /** Text, calls, a chunk with the finish reason, and one without choices that carries the usage. */
  function OpenAiStream(m: Message): seq<Chunk>
  {
    TextChunks(m.texts) + CallChunks(m.calls)
    + [Chunk(Some(Choice("", [], m.finish)), map[]), Chunk(None, m.start + m.end)]
  }

  function TextEvents(texts: seq<string>): seq<Event>
  {
    if texts == [] then [] else TextEvents(texts[..|texts| - 1]) + [TextDelta(texts[|texts| - 1])]
  }

  function JsonEvents(block: nat, pieces: seq<string>): seq<Event>
  {
    if pieces == [] then [] else JsonEvents(block, pieces[..|pieces| - 1]) + [JsonDelta(block, pieces[|pieces| - 1])]
  }

  /** Each call in a content block of its own, after the text's block 0. */
  function CallEvents(calls: seq<Sent>): seq<Event>
  {
    if calls == [] then []
    else
      var l := |calls| - 1;
      CallEvents(calls[..l]) + ([BlockStart(l + 1, true, calls[l].name)] + JsonEvents(l + 1, calls[l].pieces) + [Other])
  }

  function StopReason(finish: string): string
  {
    if finish == "tool_calls" then "tool_use"
    else if finish == "stop" then "end_turn"
    else if finish == "length" then "max_tokens" else finish
  }

  /** message_start, the text's block, the calls' blocks, message_delta and message_stop. */
  function AnthropicStream(m: Message): seq<Event>
  {
    [MessageStart(m.start), BlockStart(0, false, "")] + TextEvents(m.texts) + [Other] + CallEvents(m.calls)
    + [MessageDelta(StopReason(m.finish), m.end), Other]
  }

  function AbsorbAll(s: Summary, chunks: seq<Chunk>): Summary
  {
    if chunks == [] then s else Absorb(AbsorbAll(s, chunks[..|chunks| - 1]), chunks[|chunks| - 1])
  }

  lemma {:induction false} AbsorbAppend(s: Summary, a: seq<Chunk>, b: seq<Chunk>)
    ensures AbsorbAll(s, a + b) == AbsorbAll(AbsorbAll(s, a), b)
    decreases |b|
  {
    hide Absorb;
    var all := a + b;
    if b == [] {
      assert all == a;
    } else {
      AbsorbAppend(s, a, b[..|b| - 1]);
      assert all[..|all| - 1] == a + b[..|b| - 1];
    }
  }

  lemma {:induction false} AbsorbedIsAll(chunks: seq<Chunk>)
    ensures Absorbed(chunks) == AbsorbAll(EMPTY, chunks)
  {
    hide Absorb;
    if chunks != [] { AbsorbedIsAll(chunks[..|chunks| - 1]); }
  }

  lemma AbsorbOne(s: Summary, c: Chunk)
    ensures AbsorbAll(s, [c]) == Absorb(s, c)
  {
    assert [c][..0] == [];
  }

  lemma TextsSnoc(texts: seq<string>)
    ensures texts == [] ==> TextChunks(texts) == [] && Flat(texts) == ""
    ensures texts != [] ==>
      var front, last := texts[..|texts| - 1], texts[|texts| - 1];
      TextChunks(texts) == TextChunks(front) + [Chunk(Some(Choice(last, [], "")), map[])]
          && Flat(texts) == Flat(front) + last
  {
  }

  lemma AbsorbSnoc(s: Summary, front: seq<Chunk>, c: Chunk)
    ensures AbsorbAll(s, []) == s && AbsorbAll(s, front + [c]) == Absorb(AbsorbAll(s, front), c)
  {
    assert (front + [c])[..|front|] == front;
  }

  lemma {:induction false} AbsorbText(s: Summary, texts: seq<string>)
    ensures AbsorbAll(s, TextChunks(texts))
         == s.(content := s.content + Flat(texts), numChunks := s.numChunks + |TextChunks(texts)|)
  {
    hide Absorb, AbsorbAll, TextChunks, Flat;
    TextsSnoc(texts);
    if texts == [] {
      AbsorbSnoc(s, [], Chunk(None, map[]));
      assert s.content + "" == s.content;
    } else {
      var l := |texts| - 1;
      var front := TextChunks(texts[..l]);
      AbsorbText(s, texts[..l]);
      AbsorbSnoc(s, front, Chunk(Some(Choice(texts[l], [], "")), map[]));
      AbsorbOneText(AbsorbAll(s, front), texts[l]);
      assert s.content + Flat(texts[..l]) + texts[l] == s.content + (Flat(texts[..l]) + texts[l]);
    }
  }

  lemma AbsorbOneText(s: Summary, text: string)
    ensures Absorb(s, Chunk(Some(Choice(text, [], "")), map[]))
         == s.(content := s.content + text, numChunks := s.numChunks + 1)
  {
    ApplyOne(s.calls, ToolDelta(0, "", ""));
  }

  /** Pieces for the last call. */
  lemma {:induction false} AbsorbPieces(s: Summary, before: seq<Call>, c: Call, pieces: seq<string>)
    requires s.calls == before + [c]
    ensures AbsorbAll(s, ArgumentChunks(|before|, pieces))
         == s.(calls := before + [Call(c.name, c.arguments + Flat(pieces))],
             numChunks := s.numChunks + |ArgumentChunks(|before|, pieces)|)
  {
    hide Absorb;
    if pieces == [] {
      assert c.arguments + "" == c.arguments;
    } else {
      var n := |pieces| - 1;
      var front, c' := ArgumentChunks(|before|, pieces[..n]), Call(c.name, c.arguments + Flat(pieces[..n]));
      AbsorbPieces(s, before, c, pieces[..n]);
      assert ArgumentChunks(|before|, pieces)[..|front|] == front;
      AbsorbPiece(AbsorbAll(s, front), before, c', pieces[n]);
      assert c'.arguments + pieces[n] == c.arguments + Flat(pieces);
    }
  }

  lemma AbsorbPiece(s: Summary, before: seq<Call>, c: Call, piece: string)
    requires s.calls == before + [c]
    ensures Absorb(s, Tools([ToolDelta(|before|, "", piece)]))
         == s.(calls := before + [Call(c.name, c.arguments + piece)], numChunks := s.numChunks + 1)
  {
    ApplyOne(s.calls, ToolDelta(|before|, "", piece));
    assert Padded(s.calls, |before| + 1) == s.calls;
    assert s.calls[|before| := Call(c.name, c.arguments + piece)] == before + [Call(c.name, c.arguments + piece)];
    assert s.content + "" == s.content;
  }

  lemma AbsorbName(s: Summary, name: string)
    ensures Absorb(s, Tools([ToolDelta(|s.calls|, name, "")]))
         == s.(calls := s.calls + [Call(name, "")], numChunks := s.numChunks + 1)
  {
    ApplyOne(s.calls, ToolDelta(|s.calls|, name, ""));
    assert Padded(s.calls, |s.calls| + 1) == s.calls + [Call("", "")];
    assert "" + "" == "";
    assert (s.calls + [Call("", "")])[|s.calls| := Call(name, "")] == s.calls + [Call(name, "")];
    assert ApplyDelta(s.calls, ToolDelta(|s.calls|, name, "")) == s.calls + [Call(name, "")];
    assert s.content + "" == s.content;
  }

  lemma {:induction false} AbsorbCalls(s: Summary, calls: seq<Sent>)
    requires s.calls == []
    ensures AbsorbAll(s, CallChunks(calls))
         == s.(calls := CallsSent(calls), numChunks := s.numChunks + |CallChunks(calls)|)
  {
    hide Absorb, ArgumentChunks;
    if calls != [] {
      var l := |calls| - 1;
      AbsorbCalls(s, calls[..l]);
      var front, name, pieces := CallChunks(calls[..l]), Tools([ToolDelta(l, calls[l].name, "")]),
          ArgumentChunks(l, calls[l].pieces);
      var before := AbsorbAll(s, front);
      AbsorbAppend(s, front, [name] + pieces);
      AbsorbAppend(before, [name], pieces);
      AbsorbOne(before, name);
      AbsorbName(before, calls[l].name);
      var begun := Absorb(before, name);
      AbsorbPieces(begun, before.calls, Call(calls[l].name, ""), calls[l].pieces);
      assert "" + Flat(calls[l].pieces) == Flat(calls[l].pieces);
    }
  }

  /** The OpenAI decoder reads an encoded message as what it says. */
  lemma OpenAiRoundTrip(m: Message)
    ensures Absorbed(OpenAiStream(m)) == Said(m, |OpenAiStream(m)|)
  {
    hide Absorb, TextChunks, CallChunks, CallsSent, Flat;
    var texts, calls := TextChunks(m.texts), CallChunks(m.calls);
    var end := [Chunk(Some(Choice("", [], m.finish)), map[]), Chunk(None, m.start + m.end)];
    AbsorbedIsAll(OpenAiStream(m));
    AbsorbAppend(EMPTY, texts + calls, end);
    AbsorbAppend(EMPTY, texts, calls);
    AbsorbText(EMPTY, m.texts);
    assert "" + Flat(m.texts) == Flat(m.texts);
    AbsorbCalls(AbsorbAll(EMPTY, texts), m.calls);
    AbsorbEnd(AbsorbAll(EMPTY, texts + calls), m.finish, m.start + m.end);
  }

  lemma AbsorbEnd(s: Summary, finish: string, usage: Usage)
    ensures AbsorbAll(s, [Chunk(Some(Choice("", [], finish)), map[]), Chunk(None, usage)])
         == s.(finish := if finish != "" then Some(finish) else s.finish,
               usage := if usage != map[] then Some(usage) else s.usage, numChunks := s.numChunks + 2)
  {
    var end := [Chunk(Some(Choice("", [], finish)), map[]), Chunk(None, usage)];
    assert end[..1] == [end[0]];
    AbsorbOne(s, end[0]);
    ApplyOne(s.calls, ToolDelta(0, "", ""));
    assert s.content + "" == s.content;
  }

  ghost predicate Sound(d: Decoding) { forall b :: b in d.blocks ==> d.blocks[b] < |d.calls| }

  function DecodeAll(d: Decoding, events: seq<Event>): (r: Decoding)
    requires Sound(d)
    ensures Sound(r)
  {
    if events == [] then d else Decode(DecodeAll(d, events[..|events| - 1]), events[|events| - 1])
  }

  lemma {:induction false} DecodeAppend(d: Decoding, a: seq<Event>, b: seq<Event>)
    requires Sound(d)
    ensures DecodeAll(d, a + b) == DecodeAll(DecodeAll(d, a), b)
    decreases |b|
  {
    hide Decode;
    var all := a + b;
    if b == [] {
      assert all == a;
    } else {
      DecodeAppend(d, a, b[..|b| - 1]);
      assert all[..|all| - 1] == a + b[..|b| - 1];
    }
  }

  lemma {:induction false} DecodedIsAll(events: seq<Event>)
    ensures Decoded(events) == DecodeAll(Decoding("", [], map[], None, None, 0), events)
  {
    hide Decode;
    if events != [] { DecodedIsAll(events[..|events| - 1]); }
  }

  lemma DecodeOne(d: Decoding, ev: Event)
    requires Sound(d)
    ensures DecodeAll(d, [ev]) == Decode(d, ev)
  {
    assert [ev][..0] == [];
  }

  lemma TextEventsSnoc(texts: seq<string>)
    ensures texts == [] ==> TextEvents(texts) == [] && Flat(texts) == ""
    ensures texts != [] ==>
      var front, last := texts[..|texts| - 1], texts[|texts| - 1];
      TextEvents(texts) == TextEvents(front) + [TextDelta(last)] && Flat(texts) == Flat(front) + last
  {
  }

  lemma DecodeSnoc(d: Decoding, front: seq<Event>, ev: Event)
    requires Sound(d)
    ensures DecodeAll(d, []) == d && DecodeAll(d, front + [ev]) == Decode(DecodeAll(d, front), ev)
  {
    assert (front + [ev])[..|front|] == front;
  }

  lemma {:induction false} DecodeText(d: Decoding, texts: seq<string>)
    requires Sound(d)
    ensures DecodeAll(d, TextEvents(texts))
         == d.(content := d.content + Flat(texts), numChunks := d.numChunks + |TextEvents(texts)|)
  {
    hide DecodeAll, TextEvents, Flat;
    TextEventsSnoc(texts);
    if texts == [] {
      DecodeSnoc(d, [], Other);
      assert d.content + "" == d.content;
    } else {
      var l := |texts| - 1;
      var front := TextEvents(texts[..l]);
      DecodeText(d, texts[..l]);
      DecodeSnoc(d, front, TextDelta(texts[l]));
      assert d.content + Flat(texts[..l]) + texts[l] == d.content + (Flat(texts[..l]) + texts[l]);
    }
  }

  /** Pieces for the block of the last call. */
  lemma {:induction false} DecodePieces(d: Decoding, block: nat, before: seq<Call>, c: Call, pieces: seq<string>)
    requires Sound(d) && block in d.blocks && d.blocks[block] == |before| && d.calls == before + [c]
    ensures DecodeAll(d, JsonEvents(block, pieces))
         == d.(calls := before + [Call(c.name, c.arguments + Flat(pieces))],
             numChunks := d.numChunks + |JsonEvents(block, pieces)|)
  {
    hide Decode;
    if pieces == [] {
      assert c.arguments + "" == c.arguments;
    } else {
      var n := |pieces| - 1;
      var front, c' := JsonEvents(block, pieces[..n]), Call(c.name, c.arguments + Flat(pieces[..n]));
      DecodePieces(d, block, before, c, pieces[..n]);
      assert JsonEvents(block, pieces)[..|front|] == front;
      DecodePiece(DecodeAll(d, front), block, before, c', pieces[n]);
      assert c'.arguments + pieces[n] == c.arguments + Flat(pieces);
    }
  }

  lemma DecodePiece(d: Decoding, block: nat, before: seq<Call>, c: Call, piece: string)
    requires Sound(d) && block in d.blocks && d.blocks[block] == |before| && d.calls == before + [c]
    ensures Decode(d, JsonDelta(block, piece))
         == d.(calls := before + [Call(c.name, c.arguments + piece)], numChunks := d.numChunks + 1)
  {
    assert d.calls[|before| := Call(c.name, c.arguments + piece)] == before + [Call(c.name, c.arguments + piece)];
  }

  /** The same as far as the summary goes. */
  ghost predicate Alike(d: Decoding, content: string, calls: seq<Call>, stop: Option<string>, usage: Option<Usage>,
                        numChunks: nat)
  {
    d.content == content && d.calls == calls && d.stop == stop && d.usage == usage && d.numChunks == numChunks
  }

  lemma {:induction false} DecodeCalls(d: Decoding, calls: seq<Sent>)
    requires Sound(d) && d.calls == []
    ensures Alike(DecodeAll(d, CallEvents(calls)), d.content, CallsSent(calls), d.stop, d.usage,
            d.numChunks + |CallEvents(calls)|)
  {
    hide Decode, JsonEvents;
    if calls != [] {
      var l := |calls| - 1;
      DecodeCalls(d, calls[..l]);
      var front, start, pieces := CallEvents(calls[..l]), BlockStart(l + 1, true, calls[l].name),
          JsonEvents(l + 1, calls[l].pieces);
      var before := DecodeAll(d, front);
      DecodeAppend(d, front, [start] + pieces + [Other]);
      DecodeAppend(before, [start] + pieces, [Other]);
      DecodeAppend(before, [start], pieces);
      DecodeOne(before, start);
      DecodeStart(before, l + 1, calls[l].name);
      var begun := Decode(before, start);
      DecodePieces(begun, l + 1, before.calls, Call(calls[l].name, ""), calls[l].pieces);
      DecodeOther(DecodeAll(begun, pieces));
      assert "" + Flat(calls[l].pieces) == Flat(calls[l].pieces);
    }
  }

  lemma DecodeStart(d: Decoding, block: nat, name: string)
    requires Sound(d)
    ensures Decode(d, BlockStart(block, true, name))
         == d.(calls := d.calls + [Call(name, "")], blocks := d.blocks[block := |d.calls|],
             numChunks := d.numChunks + 1)
    ensures Sound(Decode(d, BlockStart(block, true, name)))
  {
  }

  lemma DecodeOther(d: Decoding)
    requires Sound(d)
    ensures DecodeAll(d, [Other]) == d.(numChunks := d.numChunks + 1)
  {
    DecodeOne(d, Other);
  }

  lemma DecodeEnd(d: Decoding, stop: string, usage: Usage)
    requires Sound(d)
    ensures DecodeAll(d, [MessageDelta(stop, usage), Other])
         == d.(stop := if stop != "" then Some(stop) else d.stop, usage := Merged(d.usage, usage),
               numChunks := d.numChunks + 2)
  {
    var end := [MessageDelta(stop, usage), Other];
    assert end[..1] == [end[0]];
    DecodeOne(d, end[0]);
  }

  lemma DecodeHead(d: Decoding, usage: Usage)
    requires Sound(d)
    ensures DecodeAll(d, [MessageStart(usage), BlockStart(0, false, "")])
         == d.(usage := if usage != map[] then Some(usage) else d.usage, numChunks := d.numChunks + 2)
  {
    var head := [MessageStart(usage), BlockStart(0, false, "")];
    assert head[..1] == [head[0]];
    DecodeOne(d, head[0]);
  }

  lemma UsedInParts(a: Usage, b: Usage)
    ensures Merged(if a != map[] then Some(a) else None, b) == if a + b != map[] then Some(a + b) else None
  {
    MergedNonempty(a, b);
    assert a + map[] == a;
  }

  /** The Anthropic decoder reads an encoded message as what it says, with the stop reason mapped back. */
  lemma AnthropicRoundTrip(m: Message)
    ensures Summarize(Decoded(AnthropicStream(m)))
         == Said(m.(finish := MapStop(StopReason(m.finish))), |AnthropicStream(m)|)
  {
    hide Decode, TextEvents, CallEvents, CallsSent, Flat;
    var start := Decoding("", [], map[], None, None, 0);
    var head, texts, calls := [MessageStart(m.start), BlockStart(0, false, "")], TextEvents(m.texts),
        CallEvents(m.calls);
    var end := [MessageDelta(StopReason(m.finish), m.end), Other];
    DecodedIsAll(AnthropicStream(m));
    DecodeAppend(start, head + texts + [Other] + calls, end);
    DecodeAppend(start, head + texts + [Other], calls);
    DecodeAppend(start, head + texts, [Other]);
    DecodeAppend(start, head, texts);
    DecodeHead(start, m.start);
    var d := DecodeAll(start, head);
    DecodeText(d, m.texts);
    assert "" + Flat(m.texts) == Flat(m.texts);
    DecodeOther(DecodeAll(d, texts));
    DecodeCalls(DecodeAll(start, head + texts + [Other]), m.calls);
    DecodeEnd(DecodeAll(start, head + texts + [Other] + calls), StopReason(m.finish), m.end);
    UsedInParts(m.start, m.end);
  }

  /**
   * One message, cut in two ways and sent in either format, decodes to the same text, calls, finish
   * reason and usage, exactly when its finish reason is not one of the three that only the other format uses.
   */
  lemma FormatsRoundTrip(m: Message, n: Message)
    requires Flat(m.texts) == Flat(n.texts) && CallsSent(m.calls) == CallsSent(n.calls) && m.finish == n.finish
    requires m.start + m.end == n.start + n.end
    ensures Absorbed(OpenAiStream(m)).(numChunks := 0) == Summarize(Decoded(AnthropicStream(n))).(numChunks := 0)
       <==> m.finish !in {"tool_use", "end_turn", "max_tokens"}
  {
    hide Absorbed, Decoded, OpenAiStream, AnthropicStream, CallsSent, Flat;
    OpenAiRoundTrip(m);
    AnthropicRoundTrip(n);
  }
}
