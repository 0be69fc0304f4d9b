// Python's string operations on lines and cells: splitlines, strip, split on a bar.
module Lines {

  predicate IsLineBreak(c: char)
  {
    || '\n' <= c <= '\r' || '\U{1C}' <= c <= '\U{1E}' || c == '\U{85}' || '\U{2028}' <= c <= '\U{2029}'
  }

  predicate IsSpace(c: char)
  {
    || IsLineBreak(c) || c == ' ' || c == '\t' || c == '\U{1F}' || c == '\U{A0}' || c == '\U{1680}'
    || '\U{2000}' <= c <= '\U{200A}' || c == '\U{202F}' || c == '\U{205F}' || c == '\U{3000}'
  }

  predicate OneLine(s: string) { forall k :: 0 <= k < |s| ==> !IsLineBreak(s[k]) }

  predicate NoBar(s: string) { forall k :: 0 <= k < |s| ==> s[k] != '|' }

  predicate Spaces(s: string) { forall c :: c in s ==> IsSpace(c) }

  predicate IsBar(c: char) { c == '|' }

  // --------------------------------------------------------------- splitlines

  /** Where the first line break is, or the length. */
  function BreakAt(s: string): (n: nat)
    ensures n <= |s| && OneLine(s[..n]) && (n < |s| ==> IsLineBreak(s[n]))
  {
    if s == "" || IsLineBreak(s[0]) then 0
    else
      var n := BreakAt(s[1..]);
      assert s[..n + 1] == [s[0]] + s[1..][..n];
      n + 1
  }

  function SplitLines(s: string): (lines: seq<string>)
    ensures forall k :: 0 <= k < |lines| ==> OneLine(lines[k])
    decreases |s|
  {
    if s == "" then []
    else
      var n := BreakAt(s);
      if n == |s| then [s]
      else if s[n] == '\r' && n + 1 < |s| && s[n + 1] == '\n' then [s[..n]] + SplitLines(s[n + 2..])
      else [s[..n]] + SplitLines(s[n + 1..])
  }

  /** Every line followed by a line feed. */
  function Unlines(lines: seq<string>): string
  {
    if lines == [] then "" else lines[0] + "\n" + Unlines(lines[1..])
  }

  lemma {:induction false} BreakAfter(a: string, rest: string)
    requires OneLine(a)
    ensures BreakAt(a + "\n" + rest) == |a|
  {
    var s := a + "\n" + rest;
    if a != "" {
      BreakAfter(a[1..], rest);
      assert s[0] == a[0] && s[1..] == a[1..] + "\n" + rest;
    }
  }

  lemma {:induction false} SplitUnlines(lines: seq<string>)
    requires forall k :: 0 <= k < |lines| ==> OneLine(lines[k])
    ensures SplitLines(Unlines(lines)) == lines
  {
    if lines != [] {
      var a, rest := lines[0], Unlines(lines[1..]);
      var s := a + "\n" + rest;
      BreakAfter(a, rest);
      SplitUnlines(lines[1..]);
      assert s[|a|] == '\n' && s[..|a|] == a && s[|a| + 1..] == rest;
    }
  }

  // -------------------------------------------------------------------- strip

  function StripLeft(s: string, drop: char -> bool): (r: string)
    ensures |r| <= |s| && r == s[|s| - |r|..] && (r != "" ==> !drop(r[0]))
  {
    if s != "" && drop(s[0]) then StripLeft(s[1..], drop) else s
  }

  function StripRight(s: string, drop: char -> bool): (r: string)
    ensures |r| <= |s| && r == s[..|r|] && (r != "" ==> !drop(r[|r| - 1]))
  {
    if s != "" && drop(s[|s| - 1]) then StripRight(s[..|s| - 1], drop) else s
  }

  function StripBy(s: string, drop: char -> bool): string { StripRight(StripLeft(s, drop), drop) }

  function Strip(s: string): string { StripBy(s, IsSpace) }

  predicate Trimmed(s: string) { s == "" || (!IsSpace(s[0]) && !IsSpace(s[|s| - 1])) }

  /** A stripped string is a piece of the original that begins and ends with a character to keep. */
  lemma StripPiece(s: string, drop: char -> bool)
    ensures var r := StripBy(s, drop);
            && (exists i, j | 0 <= i <= j <= |s| :: r == s[i..j])
            && (r != "" ==> !drop(r[0]) && !drop(r[|r| - 1]))
  {
    var l := StripLeft(s, drop);
    var r := StripRight(l, drop);
    var i := |s| - |l|;
    hide StripLeft, StripRight;
    assert r == s[i..i + |r|];
  }

  lemma StripKeeps(s: string, drop: char -> bool)
    requires s != "" ==> !drop(s[0]) && !drop(s[|s| - 1])
    ensures StripBy(s, drop) == s
  {
  }

  /** One dropped character on each side of a string that has none at its ends. */
  lemma StripPadded(c: string, pad: char, drop: char -> bool)
    requires drop(pad) && (c != "" ==> !drop(c[0]) && !drop(c[|c| - 1]))
    ensures StripBy([pad] + c + [pad], drop) == c
  {
    var s := [pad] + c + [pad];
    assert s[1..] == c + [pad];
    var t := c + [pad];
    if c == "" {
      assert t == [pad] && t[1..] == "" && StripLeft(t, drop) == StripLeft("", drop);
    } else {
      assert t[0] == c[0] && StripLeft(s, drop) == StripLeft(t, drop) == t;
      assert t[..|t| - 1] == c && t[|t| - 1] == pad;
      assert StripRight(t, drop) == StripRight(c, drop);
    }
  }

  lemma {:induction false} StripLeftOf(a: string, s: string, drop: char -> bool)
    requires (forall x :: x in a ==> drop(x)) && (s != "" ==> !drop(s[0]))
    ensures StripLeft(a + s, drop) == s
  {
    if a == "" {
      assert a + s == s;
    } else {
      assert (a + s)[0] in a && (a + s)[1..] == a[1..] + s;
      StripLeftOf(a[1..], s, drop);
    }
  }

  lemma {:induction false} StripRightOf(s: string, b: string, drop: char -> bool)
    requires (forall x :: x in b ==> drop(x)) && (s != "" ==> !drop(s[|s| - 1]))
    ensures StripRight(s + b, drop) == s
    decreases |b|
  {
    if b == "" {
      assert s + b == s;
    } else {
      var t := s + b;
      assert t[|t| - 1] in b && t[..|t| - 1] == s + b[..|b| - 1];
      StripRightOf(s, b[..|b| - 1], drop);
    }
  }

  /** Characters to drop, on both sides of a string that has none at its ends. */
  lemma StripAround(a: string, c: string, b: string, drop: char -> bool)
    requires (forall x :: x in a + b ==> drop(x)) && (c != "" ==> !drop(c[0]) && !drop(c[|c| - 1]))
    ensures StripBy(a + c + b, drop) == c
  {
    hide StripLeft, StripRight;
    assert forall x :: x in a || x in b ==> x in a + b;
    if c == "" {
      StripLeftOf(a + b, "", drop);
      assert a + c + b == a + b + "" && "" + "" == "";
      StripRightOf("", "", drop);
    } else {
      assert a + c + b == a + (c + b) && (c + b)[0] == c[0];
      StripLeftOf(a, c + b, drop);
      StripRightOf(c, b, drop);
    }
  }

  // ------------------------------------------------------------ split on a bar

  function BarAt(s: string): (n: nat)
    ensures n <= |s| && NoBar(s[..n]) && (n < |s| ==> s[n] == '|')
  {
    if s == "" || s[0] == '|' then 0
    else
      var n := BarAt(s[1..]);
      assert s[..n + 1] == [s[0]] + s[1..][..n];
      n + 1
  }

  function SplitBar(s: string): (parts: seq<string>)
    ensures |parts| >= 1 && forall k :: 0 <= k < |parts| ==> NoBar(parts[k])
    ensures OneLine(s) ==> forall k :: 0 <= k < |parts| ==> OneLine(parts[k])
    decreases |s|
  {
    var n := BarAt(s);
    if n == |s| then
      assert s[..n] == s;
      [s]
    else [s[..n]] + SplitBar(s[n + 1..])
  }

  lemma {:induction false} BarAfter(a: string, rest: string)
    requires NoBar(a)
    ensures BarAt(a + "|" + rest) == |a| && BarAt(a) == |a|
  {
    var s := a + "|" + rest;
    if a != "" {
      BarAfter(a[1..], rest);
      assert s[0] == a[0] && s[1..] == a[1..] + "|" + rest;
    }
  }

  lemma SplitBarStep(a: string, rest: string)
    requires NoBar(a)
    ensures SplitBar(a + "|" + rest) == [a] + SplitBar(rest)
    ensures SplitBar(a) == [a]
  {
    var s := a + "|" + rest;
    BarAfter(a, rest);
    assert s[..|a|] == a && s[|a| + 1..] == rest;
  }

  // ---------------------------------------------------------- backticked names

  function TickAt(s: string): (n: nat)
    ensures n <= |s| && '`' !in s[..n] && (n < |s| ==> s[n] == '`')
  {
    if s == "" || s[0] == '`' then 0
    else
      var n := TickAt(s[1..]);
      assert s[..n + 1] == [s[0]] + s[1..][..n];
      n + 1
  }

  /** re.findall(r"`([^`]+)`", s) as a set. */
  function Ticked(s: string): set<string>
    decreases |s|, 0
  {
    var i := TickAt(s);
    if i == |s| then {} else TickedAfter(s[i + 1..])
  }

  /** The matches in the text after an opening backtick. */
  function TickedAfter(s: string): set<string>
    decreases |s|, 1
  {
    var j := TickAt(s);
    if j == |s| then {}
    else if j == 0 then Ticked(s)
    else {s[..j]} + Ticked(s[j + 1..])
  }

  lemma {:induction false} TickAfter(a: string, rest: string)
    requires '`' !in a
    ensures TickAt(a + "`" + rest) == |a| && TickAt(a) == |a|
  {
    var s := a + "`" + rest;
    if a != "" {
      TickAfter(a[1..], rest);
      assert s[0] == a[0] && s[1..] == a[1..] + "`" + rest;
    }
  }

  /** A backticked name after text without backticks. */
  lemma TickedStep(a: string, name: string, rest: string)
    requires '`' !in a && '`' !in name && name != ""
    ensures Ticked(a + "`" + name + "`" + rest) == {name} + Ticked(rest)
    ensures Ticked(a) == {}
  {
    hide TickAt;
    var after := name + "`" + rest;
    var s := a + "`" + after;
    assert a + "`" + name + "`" + rest == s;
    TickAfter(a, after);
    TickAfter(name, rest);
    assert s[|a| + 1..] == after;
    assert after[..|name|] == name && after[|name| + 1..] == rest;
  }
}
