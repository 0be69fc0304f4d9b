// Streams as raw text: what each line carries, and messages sent as data lines.
module ReplayFrames {
  import opened Text
  import opened Lines
  import opened ReplayDecode
  import opened ReplayMessages

  // --------------------------------------------------------------- a single line

  /** The text after `data:`, less the white space around it, is what is decoded, unless it is empty or skipped. */
  lemma DataLine<T>(json: string -> Read<T>, skip: set<string>, a: string, b: string, text: string, c: string)
    requires Spaces(a) && Spaces(b) && Spaces(c) && Trimmed(text)
    ensures Payload(json, skip, a + "data:" + b + text + c)
         == if text == "" || text in skip then Nothing else json(text)
  {
    hide StripBy, IsLineBreak;
    var raw := a + "data:" + b + text + c;
    NoSpaceInTag();
    if text == "" {
      assert raw == a + "data:" + (b + c);
      StripAround(a, "data:", b + c, IsSpace);
      StripKeeps("", IsSpace);
      assert "data:"[5..] == "";
    } else {
      var line := "data:" + b + text;
      assert raw == a + line + c && line[|line| - 1] == text[|text| - 1];
      StripAround(a, line, c, IsSpace);
      assert line[5..] == b + text + "";
      StripAround(b, text, "", IsSpace);
    }
  }

  lemma NoSpaceInTag()
    ensures !IsSpace('d') && !IsSpace(':')
  {
  }

  /** Any other line carries nothing. */
  lemma OtherLine<T>(json: string -> Read<T>, skip: set<string>, a: string, text: string, c: string)
    requires Spaces(a) && Spaces(c) && Trimmed(text) && !("data:" <= text)
    ensures Payload(json, skip, a + text + c) == Nothing
  {
    hide StripBy;
    StripAround(a, text, c, IsSpace);
  }

  // -------------------------------------------------------------- framed streams

  /** dump prints x on one line, as text that json reads back. */
  ghost predicate Dumps<T>(json: string -> Read<T>, skip: set<string>, dump: T -> string, x: T)
  {
    var text := dump(x);
    text != "" && OneLine(text) && Trimmed(text) && text !in skip && json(text) == Object(x)
  }

  /** Each value on a data line with an empty line after it. */
  function Framed<T>(dump: T -> string, values: seq<T>): seq<string>
  {
    if values == [] then []
    else Framed(dump, values[..|values| - 1]) + ["data: " + dump(values[|values| - 1]), ""]
  }

  lemma PayloadsSnoc<T>(json: string -> Read<T>, skip: set<string>, lines: seq<string>, line: string)
    requires Payloads(json, skip, lines).Some?
    ensures var obj, next := Payload(json, skip, line), Payloads(json, skip, lines + [line]);
      && (obj.Nothing? ==> next == Payloads(json, skip, lines))
      && (obj.Object? ==> next == Some(Payloads(json, skip, lines).value + [obj.value]))
  {
    hide Payload;
    assert (lines + [line])[..|lines|] == lines;
  }

  lemma {:induction false} FramedPayloads<T>(json: string -> Read<T>, skip: set<string>, dump: T -> string,
                                             values: seq<T>)
    requires forall k :: 0 <= k < |values| ==> Dumps(json, skip, dump, values[k])
    ensures Payloads(json, skip, Framed(dump, values)) == Some(values)
    ensures forall k :: 0 <= k < |Framed(dump, values)| ==> OneLine(Framed(dump, values)[k])
  {
    hide Payload, Payloads, OneLine, Trimmed;
    if values == [] {
      NothingYet(json, skip, [""]);
      assert Framed(dump, values) == [""][..0];
    } else {
      var l := |values| - 1;
      FramedPayloads(json, skip, dump, values[..l]);
      var front, text := Framed(dump, values[..l]), dump(values[l]);
      FrameLine(json, skip, text);
      PayloadsSnoc(json, skip, front, "data: " + text);
      PayloadsSnoc(json, skip, front + ["data: " + text], "");
      assert front + ["data: " + text] + [""] == Framed(dump, values);
      assert values[..l] + [values[l]] == values;
    }
  }

  lemma FrameLine<T>(json: string -> Read<T>, skip: set<string>, text: string)
    requires OneLine(text) && Trimmed(text)
    ensures Payload(json, skip, "data: " + text) == if text == "" || text in skip then Nothing else json(text)
    ensures Payload(json, skip, "") == Nothing
    ensures OneLine("data: " + text) && OneLine("")
  {
    hide Payload;
    DataLine(json, skip, "", " ", text, "");
    OtherLine(json, skip, "", "", "");
    assert "" + "data:" + " " + text + "" == "data: " + text;
    assert "" + "" + "" == "";
  }

  /** An OpenAI stream as it is sent: the chunks, then the done mark. */
  function OpenAiText(dump: Chunk -> string, chunks: seq<Chunk>): string
  {
    Unlines(Framed(dump, chunks) + ["data: [DONE]", ""])
  }

  function AnthropicText(dump: Event -> string, events: seq<Event>): string { Unlines(Framed(dump, events)) }

  /** A message sent as the raw text of OpenAI chunks is decoded as what it says. */
  lemma RawRoundTrip(json: string -> Read<Chunk>, dump: Chunk -> string, m: Message)
    requires forall c :: c in OpenAiStream(m) ==> Dumps(json, DONE, dump, c)
    ensures FromRaw(json, OpenAiText(dump, OpenAiStream(m))) == Some(Said(m, |OpenAiStream(m)|))
  {
    hide Payload, Payloads, OneLine, Absorbed, OpenAiStream, Framed, SplitLines, Said;
    var chunks := OpenAiStream(m);
    var lines := Framed(dump, chunks);
    FramedPayloads(json, DONE, dump, chunks);
    DoneLine(json);
    PayloadsSnoc(json, DONE, lines, "data: [DONE]");
    PayloadsSnoc(json, DONE, lines + ["data: [DONE]"], "");
    assert lines + ["data: [DONE]"] + [""] == lines + ["data: [DONE]", ""];
    SplitUnlines(lines + ["data: [DONE]", ""]);
    OpenAiRoundTrip(m);
  }

  lemma DoneLine(json: string -> Read<Chunk>)
    ensures Payload(json, DONE, "data: [DONE]") == Nothing && Payload(json, DONE, "") == Nothing
    ensures OneLine("data: [DONE]") && OneLine("")
  {
    hide Payload;
    FrameLine(json, DONE, "[DONE]");
    assert "data: " + "[DONE]" == "data: [DONE]";
  }

  /** And so is the raw text of its events, with the stop reason mapped back. */
  lemma AnthropicRawRoundTrip(json: string -> Read<Event>, dump: Event -> string, m: Message)
    requires forall ev :: ev in AnthropicStream(m) ==> Dumps(json, {}, dump, ev)
    ensures FromAnthropicRaw(json, AnthropicText(dump, AnthropicStream(m)))
         == Some(Said(m.(finish := MapStop(StopReason(m.finish))), |AnthropicStream(m)|))
  {
    hide Payload, Payloads, OneLine, Decoded, AnthropicStream, Framed, SplitLines, Said, MapStop, StopReason;
    FramedPayloads(json, {}, dump, AnthropicStream(m));
    SplitUnlines(Framed(dump, AnthropicStream(m)));
    AnthropicRoundTrip(m);
  }
}
