// Text shared by the models: decimal numerals and splitting at the last dot.
module Text {

  datatype Option<+T> = None | Some(value: T) {
    function GetOr(other: T): T { if Some? then value else other }
  }

  // ---------------------------------------------------------------- numerals

  predicate IsDigit(c: char) { '0' <= c <= '9' }

  function Digit(d: nat): char
    requires d < 10
  {
    '0' + d as char
  }

  function Decimal(n: nat): (s: string)
    ensures s != "" && forall k :: 0 <= k < |s| ==> IsDigit(s[k])
  {
    if n < 10 then [Digit(n)] else Decimal(n / 10) + [Digit(n % 10)]
  }

  lemma {:induction false} DecimalInjective(a: nat, b: nat)
    requires Decimal(a) == Decimal(b)
    ensures a == b
  {
    var s, t := Decimal(a), Decimal(b);
    assert s[|s| - 1] == Digit(a % 10) && t[|t| - 1] == Digit(b % 10);
    if a >= 10 && b >= 10 {
      assert s[..|s| - 1] == Decimal(a / 10) && t[..|t| - 1] == Decimal(b / 10);
      DecimalInjective(a / 10, b / 10);
    }
  }

  /** The number a digit string stands for. */
  function NumberOf(s: string): int
  {
    if s == "" then 0 else 10 * NumberOf(s[..|s| - 1]) + (s[|s| - 1] as int - '0' as int)
  }

  /** The numeral of n: it stands for n, and it has no leading zero unless it is 0 itself. */
  lemma {:induction false} DecimalReads(n: nat)
    ensures NumberOf(Decimal(n)) == n && (Decimal(n)[0] == '0' ==> n == 0)
  {
    var s := Decimal(n);
    if n >= 10 {
      DecimalReads(n / 10);
      assert s[..|s| - 1] == Decimal(n / 10) && s[|s| - 1] == Digit(n % 10) && s[0] == Decimal(n / 10)[0];
    } else {
      assert s[..0] == "" && NumberOf("") == 0;
    }
  }

  // ------------------------------------------------------ splitting at a dot

  /** The text before and after the last dot. */
  function SplitLast(s: string): (r: Option<(string, string)>)
    ensures r.Some? ==> s == r.value.0 + "." + r.value.1 && '.' !in r.value.1
    ensures r.None? ==> '.' !in s
  {
    if s == "" then None
    else
      var front, c := s[..|s| - 1], s[|s| - 1];
      if c == '.' then Some((front, ""))
      else
        match SplitLast(front)
        case None => None
        case Some((a, b)) => Some((a, b + [c]))
  }

  lemma {:induction false} SplitLastOfJoin(a: string, b: string)
    requires '.' !in b
    ensures SplitLast(a + "." + b) == Some((a, b))
    decreases |b|
  {
    var s := a + "." + b;
    if b == "" {
      assert s[..|s| - 1] == a;
    } else {
      var front := b[..|b| - 1];
      SplitLastOfJoin(a, front);
      assert s[..|s| - 1] == a + "." + front;
      assert front + [b[|b| - 1]] == b;
    }
  }

  predicate EndsWith(s: string, t: string)
  {
    |t| <= |s| && s[|s| - |t|..] == t
  }

  predicate Contains(s: string, t: string)
  {
    exists k | 0 <= k <= |s| - |t| :: s[k..][..|t|] == t
  }
}
