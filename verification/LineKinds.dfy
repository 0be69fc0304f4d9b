// Which text makes a line of a threshold file what it is, and which line gives a bound each of its values.
module LineKinds {
  import opened Text
  import opened Lines
  import opened LineOwner
  import opened BoundTables

  // ------------------------------------------------------------------- one line

  function KeyName(key: KeyKind): (name: string)
    ensures |name| >= 3 && name[0] in {'m', 'n'}
  {
    match key
    case MinKey => "min"
    case MaxKey => "max"
    case NoiseKey => "noise"
  }

  /** The line is a key's name, an equals sign and a number, with any white space between. */
  ghost predicate Sets(number: string -> Option<real>, line: string, key: KeyKind, v: real)
  {
    exists a, b, text :: Setting(line, KeyName(key), a, b, text) && number(text) == Some(v)
  }

  predicate Setting(line: string, name: string, a: string, b: string, text: string)
  {
    Spaces(a) && Spaces(b) && (text != "" ==> !IsSpace(text[0])) && line == name + a + "=" + b + text
  }

  lemma {:induction false} LeftSpaces(s: string) returns (a: string)
    ensures Spaces(a) && s == a + StripLeft(s, IsSpace)
    decreases |s|
  {
    if s != "" && IsSpace(s[0]) {
      var rest := LeftSpaces(s[1..]);
      a := [s[0]] + rest;
    } else {
      a := "";
    }
  }

  lemma KeyValueSet(number: string -> Option<real>, line: string, name: string)
    requires KeyValue(number, line, name).Some?
    ensures exists a, b, text :: Setting(line, name, a, b, text) && number(text) == KeyValue(number, line, name)
  {
    hide StripLeft, IsSpace;
    var after := line[|name|..];
    var a := LeftSpaces(after);
    var rest := StripLeft(after, IsSpace);
    var b := LeftSpaces(rest[1..]);
    var text := StripLeft(rest[1..], IsSpace);
    Joined(line, name, after, a, rest, b, text);
    assert Setting(line, name, a, b, text);
  }

  lemma Joined(line: string, name: string, after: string, a: string, rest: string, b: string, text: string)
    requires name <= line && after == line[|name|..] && after == a + rest && "=" <= rest && rest[1..] == b + text
    ensures line == name + a + "=" + b + text
  {
    assert line == name + after && rest == "=" + rest[1..];
    assert rest == "=" + b + text;
  }

  lemma SettingRead(number: string -> Option<real>, line: string, name: string, a: string, b: string, text: string)
    requires Setting(line, name, a, b, text)
    ensures KeyValue(number, line, name) == number(text)
  {
    hide StripLeft, IsSpace;
    var rest := "=" + b + text;
    assert line[|name|..] == a + rest && rest[1..] == b + text && name <= line;
    EqualsIsNoSpace();
    StripLeftOf(a, rest, IsSpace);
    StripLeftOf(b, text, IsSpace);
  }

  lemma KeyValueIff(number: string -> Option<real>, line: string, key: KeyKind, v: real)
    ensures KeyValue(number, line, KeyName(key)) == Some(v) <==> Sets(number, line, key, v)
  {
    hide KeyValue, KeyName, Setting;
    var name := KeyName(key);
    if KeyValue(number, line, name) == Some(v) { KeyValueSet(number, line, name); }
    if a, b, text :| Setting(line, name, a, b, text) && number(text) == Some(v) {
      SettingRead(number, line, name, a, b, text);
    }
  }

  lemma EqualsIsNoSpace()
    ensures !IsSpace('=')
  {
  }

  /** At most one key's name begins the line. */
  lemma KeyLineIs(number: string -> Option<real>, line: string, key: KeyKind)
    requires KeyValue(number, line, KeyName(key)).Some?
    ensures KeyLine(number, line) == Some((key, KeyValue(number, line, KeyName(key)).value)) && "[" != line[..1]
  {
    hide StripLeft;
    assert KeyName(key) <= line && line[1] == KeyName(key)[1];
  }

  lemma KeyLineSets(number: string -> Option<real>, line: string)
    requires KeyLine(number, line).Some?
    ensures var (key, v) := KeyLine(number, line).value; KeyValue(number, line, KeyName(key)) == Some(v)
  {
    hide KeyValue;
  }

  /** A line is read as a key exactly when it sets that key to that number. */
  lemma KeyIff(number: string -> Option<real>, raw: string, key: KeyKind, v: real)
    ensures KindOf(number, raw) == Key(key, v) <==> Sets(number, Strip(raw), key, v)
  {
    hide KeyValue, Strip, Sets, StripLeft, IsNameChar, KeyLine, KeyName;
    var line := Strip(raw);
    KeyValueIff(number, line, key, v);
    if KeyLine(number, line).Some? { KeyLineSets(number, line); }
    if KeyValue(number, line, KeyName(key)).Some? { KeyLineIs(number, line, key); }
  }

  /** A metric header names its metric; nothing else is one. */
  lemma MetricIff(number: string -> Option<real>, raw: string, name: string)
    ensures KindOf(number, raw) == Metric(name)
       <==> && Strip(raw) == "[benchmarks.metrics." + name + "]" && name != ""
            && forall c :: c in name ==> 'A' <= c <= 'Z' || 'a' <= c <= 'z' || '0' <= c <= '9' || c == '_'
  {
    hide Strip, KeyLine, StripLeft;
    var line := Strip(raw);
    if KindOf(number, raw) == Metric(name) {
      assert name == line[|METRIC|..|line| - 1] && line == METRIC + name + "]";
      assert forall k :: 0 <= k < |name| ==> name[k] == line[|METRIC| + k];
    }
    if line == METRIC + name + "]" && name != "" && forall c :: c in name ==> IsNameChar(c) {
      assert line[|METRIC|..|line| - 1] == name && line[|line| - 1] == ']';
      assert forall k :: |METRIC| <= k < |line| - 1 ==> line[k] == name[k - |METRIC|];
      assert MetricName(line) == Some(name);
      assert line[1] == 'b';
    }
  }

  lemma EntryIff(number: string -> Option<real>, raw: string)
    ensures KindOf(number, raw).Entry? <==> Strip(raw) == "[[benchmarks]]"
  {
    hide Strip, KeyLine, MetricName;
  }

  lemma MarkedLine(number: string -> Option<real>, raw: string)
    requires var line := Strip(raw); line != "" && line[0] == '#'
    ensures KindOf(number, raw) == Comment(Strip(StripLeft(Strip(raw), c => c == '#')))
  {
    hide Strip, StripLeft, KeyLine, KeyValue, MetricName, IsNameChar;
    var line := Strip(raw);
    if KeyLine(number, line).Some? {
      KeyLineSets(number, line);
      KeyBegins(number, line, KeyLine(number, line).value.0);
    }
    NoMetric(line);
  }

  lemma KeyBegins(number: string -> Option<real>, line: string, key: KeyKind)
    requires KeyValue(number, line, KeyName(key)).Some?
    ensures KeyName(key) <= line && line[0] != '#'
  {
    hide StripLeft;
  }

  lemma NoMetric(line: string)
    requires line != "" && line[0] == '#'
    ensures MetricName(line) == None && line != "[[benchmarks]]"
  {
    hide IsNameChar;
  }

  /** The text of a comment, without its marks and the white space around it. */
  lemma CommentLaw(number: string -> Option<real>, raw: string, marks: string, b: string, text: string)
    requires marks != "" && (forall c :: c in marks ==> c == '#') && Spaces(b) && Trimmed(text)
    requires text == "" ==> b == ""
    requires text != "" && b == "" ==> text[0] != '#'
    requires Strip(raw) == marks + b + text
    ensures KindOf(number, raw) == Comment(text)
  {
    hide Strip, StripLeft, IsLineBreak, KindOf;
    var line, mark := Strip(raw), (c: char) => c == '#';
    assert line[0] == marks[0] && marks[0] in marks && line[0] == '#';
    MarkedLine(number, raw);
    NoMarkIn(b, text);
    assert marks + b + text == marks + (b + text);
    StripLeftOf(marks, b + text, mark);
    StripText(b, text);
    assert StripLeft(line, c => c == '#') == StripLeft(line, mark);
  }

  lemma NoMarkIn(b: string, text: string)
    requires Spaces(b) && (text == "" ==> b == "") && (text != "" && b == "" ==> text[0] != '#')
    ensures b + text != "" ==> (b + text)[0] != '#'
  {
    if b != "" { assert b[0] in b && IsSpace(b[0]); }
  }

  lemma StripText(b: string, text: string)
    requires Spaces(b) && Trimmed(text)
    ensures Strip(b + text) == text
  {
    hide StripBy, IsLineBreak;
    assert b + text + "" == b + text && b + "" == b;
    StripAround(b, text, "", IsSpace);
  }

  // ------------------------------------------------------------------ the bounds

  /** Line j gives the key its value in the table of header i: no line ends the table before, none gives another. */
  ghost predicate GivenAt(kinds: seq<Kind>, i: nat, key: KeyKind, v: real, j: int)
  {
    && i <= j < |kinds| && kinds[j] == Key(key, v) && (forall m :: i <= m <= j ==> Inside(kinds[m]))
    && forall h :: j < h < |kinds| && (forall m :: i <= m <= h ==> Inside(kinds[m])) ==>
         !(kinds[h].Key? && kinds[h].key == key)
  }

  ghost predicate Given(kinds: seq<Kind>, i: nat, key: KeyKind, v: real) { exists j :: GivenAt(kinds, i, key, v, j) }

  lemma {:induction false} ValueIff(kinds: seq<Kind>, i: nat, key: KeyKind, v: real)
    requires i <= |kinds|
    ensures ValueIn(kinds, i, key) == Some(v) <==> Given(kinds, i, key, v)
    decreases |kinds| - i
  {
    hide Inside, GivenAt;
    if i == |kinds| || !Inside(kinds[i]) {
      NotGiven(kinds, i, key, v);
    } else {
      ValueIff(kinds, i + 1, key, v);
      LaterGiven(kinds, i, key, v);
      var later := ValueIn(kinds, i + 1, key);
      if later.Some? {
        ValueIff(kinds, i + 1, key, later.value);
        NotBefore(kinds, i, key, v, later.value);
      } else {
        NoLater(kinds, i, key, v);
      }
    }
  }

  /** A line gives the value from i on exactly when line i does, or one gives it from the next line on. */
  lemma LaterGiven(kinds: seq<Kind>, i: nat, key: KeyKind, v: real)
    requires i < |kinds| && Inside(kinds[i])
    ensures Given(kinds, i, key, v) <==> GivenAt(kinds, i, key, v, i) || Given(kinds, i + 1, key, v)
  {
    hide Inside, GivenAt;
    if j :| GivenAt(kinds, i, key, v, j) {
      OneOn(kinds, i, key, v, j);
      assert j == i || GivenAt(kinds, i + 1, key, v, j);
    }
    var n := i + 1;
    if j :| GivenAt(kinds, n, key, v, j) {
      OneOn(kinds, i, key, v, j);
      assert GivenAt(kinds, i, key, v, j);
    }
  }

  lemma NotGiven(kinds: seq<Kind>, i: nat, key: KeyKind, v: real)
    requires i == |kinds| || (i < |kinds| && !Inside(kinds[i]))
    ensures !Given(kinds, i, key, v)
  {
    hide Inside;
  }

  lemma NotBefore(kinds: seq<Kind>, i: nat, key: KeyKind, v: real, later: real)
    requires i < |kinds| && Inside(kinds[i]) && Given(kinds, i + 1, key, later)
    ensures !GivenAt(kinds, i, key, v, i)
  {
    hide Inside;
    var j :| GivenAt(kinds, i + 1, key, later, j);
    assert forall m :: i <= m <= j ==> Inside(kinds[m]);
  }

  lemma OneOn(kinds: seq<Kind>, i: nat, key: KeyKind, v: real, j: int)
    requires i < |kinds| && Inside(kinds[i])
    ensures j > i ==> (GivenAt(kinds, i, key, v, j) <==> GivenAt(kinds, i + 1, key, v, j))
    ensures j <= i ==> !GivenAt(kinds, i + 1, key, v, j)
    ensures j < i ==> !GivenAt(kinds, i, key, v, j)
  {
    hide Inside;
  }

  /** Without a later value, line i gives the value exactly when it is that key. */
  lemma NoLater(kinds: seq<Kind>, i: nat, key: KeyKind, v: real)
    requires i < |kinds| && Inside(kinds[i]) && ValueIn(kinds, i + 1, key) == None
    ensures GivenAt(kinds, i, key, v, i) <==> kinds[i] == Key(key, v)
  {
    hide Inside;
    if kinds[i] == Key(key, v) {
      forall h | i < h < |kinds| && (forall m :: i <= m <= h ==> Inside(kinds[m]))
        ensures !(kinds[h].Key? && kinds[h].key == key)
      {
        NothingGiven(kinds, i + 1, key, h);
      }
    }
  }

  lemma {:induction false} NothingGiven(kinds: seq<Kind>, i: nat, key: KeyKind, h: nat)
    requires i <= h < |kinds| && ValueIn(kinds, i, key) == None && forall m :: i <= m <= h ==> Inside(kinds[m])
    ensures !(kinds[h].Key? && kinds[h].key == key)
    decreases h - i
  {
    if i < h { NothingGiven(kinds, i + 1, key, h); }
  }

  /** Line n, counted from 1, is one of the comments between header and first key of the table of header i. */
  ghost predicate Attached(kinds: seq<Kind>, i: nat, n: nat, text: string)
  {
    exists j :: i < n <= j && IsFirstKey(kinds, i, j) && kinds[n - 1] == Comment(text)
  }

  ghost predicate IsFirstKey(kinds: seq<Kind>, i: nat, j: int)
  {
    i <= j < |kinds| && kinds[j].Key? && forall m :: i <= m < j ==> IsFiller(kinds[m])
  }

  lemma {:induction false} CommentsIff(kinds: seq<Kind>, lo: nat, hi: nat, n: nat, text: string)
    requires lo <= hi <= |kinds|
    ensures (n, text) in CommentsIn(kinds, lo, hi) <==> lo < n <= hi && kinds[n - 1] == Comment(text)
    decreases hi
  {
    if lo < hi { CommentsIff(kinds, lo, hi - 1, n, text); }
  }

  lemma {:induction false} KeyFound(kinds: seq<Kind>, i: nat, j: nat)
    requires IsFirstKey(kinds, i, j)
    ensures FirstKey(kinds, i) == Some(j)
    decreases j - i
  {
    if i < j { KeyFound(kinds, i + 1, j); }
  }

  ghost predicate Ascending(cs: seq<(nat, string)>, most: nat)
  {
    (forall a :: 0 <= a < |cs| ==> cs[a].0 <= most) && forall a, c :: 0 <= a < c < |cs| ==> cs[a].0 < cs[c].0
  }

  lemma {:induction false} InLineOrder(kinds: seq<Kind>, lo: nat, hi: nat)
    requires lo <= hi <= |kinds|
    ensures Ascending(CommentsIn(kinds, lo, hi), hi)
    decreases hi
  {
    hide Ascending;
    if lo == hi {
      NoneAscend(hi);
    } else {
      InLineOrder(kinds, lo, hi - 1);
      AscendingOn(CommentsIn(kinds, lo, hi - 1), hi, kinds[hi - 1]);
    }
  }

  lemma NoneAscend(most: nat)
    ensures Ascending([], most)
  {
  }

  lemma AscendingOn(front: seq<(nat, string)>, hi: nat, k: Kind)
    requires hi > 0 && Ascending(front, hi - 1)
    ensures Ascending(front + (if k.Comment? then [(hi, k.text)] else []), hi)
  {
  }

  /** Each bound: the last minimum, maximum and noise that its table gives, and the comments before its first key. */
  ghost predicate Told(kinds: seq<Kind>, b: Bound)
  {
    && 1 <= b.line <= |kinds| && kinds[b.line - 1] == Metric(b.name)
    && (forall v :: b.min == Some(v) <==> Given(kinds, b.line, MinKey, v))
    && (forall v :: b.max == Some(v) <==> Given(kinds, b.line, MaxKey, v))
    && (forall v :: b.noise == Some(v) <==> Given(kinds, b.line, NoiseKey, v))
    && (forall n: nat, text :: (n, text) in b.comment <==> Attached(kinds, b.line, n, text))
    && Ascending(b.comment, |kinds|)
  }

  lemma BoundTold(kinds: seq<Kind>, b: Bound)
    requires IsBoundAt(kinds, b)
    ensures Told(kinds, b)
  {
    hide ValueIn, CommentsIn, FirstKey, Enclosing, Given, Attached;
    var i := b.line;
    ValuesGiven(kinds, i);
    CommentsAttached(kinds, i);
  }

  lemma ValuesGiven(kinds: seq<Kind>, i: nat)
    requires i <= |kinds|
    ensures forall key, v :: ValueIn(kinds, i, key) == Some(v) <==> Given(kinds, i, key, v)
  {
    hide ValueIn, Given;
    forall key, v
      ensures ValueIn(kinds, i, key) == Some(v) <==> Given(kinds, i, key, v)
    {
      ValueIff(kinds, i, key, v);
    }
  }

  lemma CommentsAttached(kinds: seq<Kind>, i: nat)
    requires i <= |kinds|
    ensures var first := FirstKey(kinds, i);
      var comment := if first.Some? then CommentsIn(kinds, i, first.value) else [];
      && (forall n: nat, text :: (n, text) in comment <==> Attached(kinds, i, n, text))
      && Ascending(comment, |kinds|)
  {
    hide CommentsIn, FirstKey;
    var first := FirstKey(kinds, i);
    if first.Some? {
      assert IsFirstKey(kinds, i, first.value);
      InLineOrder(kinds, i, first.value);
    }
    forall n: nat, text
      ensures Attached(kinds, i, n, text)
         <==> first.Some? && (n, text) in CommentsIn(kinds, i, first.value)
    {
      if first.Some? { CommentsIff(kinds, i, first.value, n, text); }
      if j :| i < n <= j && IsFirstKey(kinds, i, j) && kinds[n - 1] == Comment(text) { KeyFound(kinds, i, j); }
    }
  }

  /** From the text of a file: every bound that the parser returns. */
  lemma ParsedTold(number: string -> Option<real>, lines: seq<string>)
    ensures var kinds := Kinds(number, lines);
      forall b :: b in Parsed(kinds).bounds ==> Told(kinds, b)
  {
    hide Told, Parsed, KindOf, IsBoundAt;
    var kinds := Kinds(number, lines);
    BoundsAreTables(kinds);
    forall b | b in Parsed(kinds).bounds
      ensures Told(kinds, b)
    {
      BoundTold(kinds, b);
    }
  }
}
