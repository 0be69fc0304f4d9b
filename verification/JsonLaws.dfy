// The laws that the file models ask of JSON can be met: an encoding of headers by self-delimiting numerals.
module JsonLaws {
  import opened Text
  import opened Safetensors

  function Unary(n: nat): Bytes { if n == 0 then [0] else [1] + Unary(n - 1) }

  function Numerals(ns: seq<nat>): Bytes { if ns == [] then [] else Unary(ns[0]) + Numerals(ns[1..]) }

  lemma {:induction false} UnaryCut(a: nat, r: Bytes, b: nat, s: Bytes)
    requires Unary(a) + r == Unary(b) + s
    ensures a == b && r == s
  {
    assert (Unary(a) + r)[0] == (Unary(b) + s)[0];
    if a == 0 {
      assert r == (Unary(a) + r)[1..] && s == (Unary(b) + s)[1..];
    } else {
      assert Unary(a - 1) + r == (Unary(a) + r)[1..] && Unary(b - 1) + s == (Unary(b) + s)[1..];
      UnaryCut(a - 1, r, b - 1, s);
    }
  }

  /** Numbers can be read off, whatever spaces follow. */
  lemma {:induction false} NumeralsCut(a: seq<nat>, p: nat, b: seq<nat>, q: nat)
    requires Numerals(a) + Spaces(p) == Numerals(b) + Spaces(q)
    ensures a == b
  {
    var x, y := Numerals(a) + Spaces(p), Numerals(b) + Spaces(q);
    FirstByte(a, p);
    FirstByte(b, q);
    if a != [] {
      assert x[0] != SPACE && b != [];
      assert x == Unary(a[0]) + (Numerals(a[1..]) + Spaces(p)) && y == Unary(b[0]) + (Numerals(b[1..]) + Spaces(q));
      UnaryCut(a[0], Numerals(a[1..]) + Spaces(p), b[0], Numerals(b[1..]) + Spaces(q));
      NumeralsCut(a[1..], p, b[1..], q);
      assert a == [a[0]] + a[1..] && b == [b[0]] + b[1..];
    }
  }

  lemma FirstByte(a: seq<nat>, p: nat)
    ensures var x := Numerals(a) + Spaces(p);
            if a == [] then x == Spaces(p) else |x| > 0 && x[0] != SPACE
  {
  }

  // -------------------------------------------------- headers as numbers

  function Counted(ns: seq<nat>): seq<nat> { [|ns|] + ns }

  function Codes(s: string): (ns: seq<nat>)
    ensures |ns| == |s|
  {
    seq(|s|, k requires 0 <= k < |s| => s[k] as int)
  }

  function EntryCodes(name: string, e: Entry): seq<nat>
  {
    Counted(Codes(name)) + (Counted(Codes(e.dtype)) + (Counted(e.shape) + [e.lo, e.hi]))
  }

  ghost function Pick(h: Header): (name: string)
    requires h != map[]
    ensures name in h
  {
    assert exists name :: name in h by { Inhabited(h); }
    var name :| name in h;
    name
  }

  lemma Inhabited(h: Header)
    requires h != map[]
    ensures exists name :: name in h
  {
    assert h.Keys != {};
  }

  ghost function HeaderCodes(h: Header): seq<nat>
    decreases |h|
  {
    if h == map[] then [0]
    else
      var name := Pick(h);
      Smaller(h, name);
      [1] + (EntryCodes(name, h[name]) + HeaderCodes(h - {name}))
  }

  lemma Smaller(h: Header, name: string)
    requires name in h
    ensures |h - {name}| < |h|
  {
    assert h == (h - {name})[name := h[name]];
  }

  lemma CountedCut(a: seq<nat>, r: seq<nat>, b: seq<nat>, s: seq<nat>)
    requires Counted(a) + r == Counted(b) + s
    ensures a == b && r == s
  {
    var x, y := Counted(a) + r, Counted(b) + s;
    assert x[0] == y[0];
    assert a == x[1..1 + |a|] && b == y[1..1 + |b|] && r == x[1 + |a|..] && s == y[1 + |b|..];
  }

  lemma CodesInjective(s: string, t: string)
    requires Codes(s) == Codes(t)
    ensures s == t
  {
    forall k | 0 <= k < |s|
      ensures s[k] == t[k]
    {
      assert Codes(s)[k] == Codes(t)[k];
    }
  }

  lemma EntryCut(n: string, e: Entry, r: seq<nat>, n': string, e': Entry, r': seq<nat>)
    requires EntryCodes(n, e) + r == EntryCodes(n', e') + r'
    ensures n == n' && e == e' && r == r'
  {
    var x2, x3 := Counted(e.shape) + ([e.lo, e.hi] + r), Counted(e'.shape) + ([e'.lo, e'.hi] + r');
    assert EntryCodes(n, e) + r == Counted(Codes(n)) + (Counted(Codes(e.dtype)) + x2);
    assert EntryCodes(n', e') + r' == Counted(Codes(n')) + (Counted(Codes(e'.dtype)) + x3);
    CountedCut(Codes(n), Counted(Codes(e.dtype)) + x2, Codes(n'), Counted(Codes(e'.dtype)) + x3);
    CountedCut(Codes(e.dtype), x2, Codes(e'.dtype), x3);
    CountedCut(e.shape, [e.lo, e.hi] + r, e'.shape, [e'.lo, e'.hi] + r');
    CodesInjective(n, n');
    CodesInjective(e.dtype, e'.dtype);
    Ends([e.lo, e.hi], r, [e'.lo, e'.hi], r');
  }

  lemma Ends(a: seq<nat>, r: seq<nat>, b: seq<nat>, s: seq<nat>)
    requires |a| == |b| && a + r == b + s
    ensures a == b && r == s
  {
    assert a == (a + r)[..|a|] && b == (b + s)[..|b|] && r == (a + r)[|a|..] && s == (b + s)[|b|..];
  }

  lemma {:induction false} HeaderCodesInjective(h: Header, g: Header)
    requires HeaderCodes(h) == HeaderCodes(g)
    ensures h == g
    decreases |h|
  {
    hide EntryCodes;
    assert HeaderCodes(h)[0] == HeaderCodes(g)[0];
    if h != map[] {
      var n, m := Pick(h), Pick(g);
      var x, y := EntryCodes(n, h[n]) + HeaderCodes(h - {n}), EntryCodes(m, g[m]) + HeaderCodes(g - {m});
      Ends([1], x, [1], y);
      EntryCut(n, h[n], HeaderCodes(h - {n}), m, g[m], HeaderCodes(g - {m}));
      Smaller(h, n);
      HeaderCodesInjective(h - {n}, g - {n});
      assert h == (h - {n})[n := h[n]] && g == (g - {n})[n := g[n]];
    }
  }

  ghost predicate Encodes(h: Header, pad: nat, b: Bytes) { b == Numerals(HeaderCodes(h)) + Spaces(pad) }

  ghost function Decoded(b: Bytes): Option<Header>
  {
    if exists h: Header, pad: nat :: Encodes(h, pad, b)
    then
      var h: Header, pad: nat :| Encodes(h, pad, b);
      Some(h)
    else None
  }

  /** Some encoding is lawful, so what is proved of every lawful one is about something. */
  lemma LawfulJsonExists() returns (json: Json)
    ensures json.Lawful()
  {
    json := Json(h => Numerals(HeaderCodes(h)), b => Decoded(b));
    forall h: Header, pad: nat
      ensures json.RoundTrips(h, pad)
    {
      var b := json.encode(h) + Spaces(pad);
      assert Encodes(h, pad, b);
      var g: Header, p: nat :| Encodes(g, p, b) && Decoded(b) == Some(g);
      NumeralsCut(HeaderCodes(h), pad, HeaderCodes(g), p);
      HeaderCodesInjective(h, g);
    }
  }
}
