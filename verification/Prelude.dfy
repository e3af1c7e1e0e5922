/** Small datatypes and string functions shared by the models. */
module Prelude {

  datatype Option<+T> = None | Some(value: T)

  datatype Result<+T, +E> = Ok(value: T) | Err(error: E)

  /** Python's `max` on two numbers. */
  function Max(a: int, b: int): int { if a >= b then a else b }

  /** The characters Python's `str.strip` removes. */
  predicate IsSpace(c: char) {
    var n := c as int;
    || 9 <= n <= 13 || 28 <= n <= 32 || n == 133 || n == 160 || n == 5760
    || 8192 <= n <= 8202 || n == 8232 || n == 8233 || n == 8239 || n == 8287 || n == 12288
  }

  function StripLeft(s: string): string {
    if s != "" && IsSpace(s[0]) then StripLeft(s[1..]) else s
  }

  function StripRight(s: string): string {
    if s != "" && IsSpace(s[|s| - 1]) then StripRight(s[..|s| - 1]) else s
  }

  function Strip(s: string): string { StripRight(StripLeft(s)) }

  predicate Blank(s: string) { Strip(s) == "" }

  function Truncate(s: string, n: nat): string { if |s| <= n then s else s[..n] }

  function Decimal(n: nat): string {
    (if n < 10 then "" else Decimal(n / 10)) + [Digit(n % 10)]
  }

  function Digit(d: nat): char
    requires d < 10
  {
    '0' + d as char
  }

  lemma {:induction false} DecimalInjective(a: nat, b: nat)
    requires Decimal(a) == Decimal(b)
    ensures a == b
    decreases a
  {
    var s, t := Decimal(a), Decimal(b);
    assert s[|s| - 1] == Digit(a % 10) && t[|t| - 1] == Digit(b % 10);
    assert a % 10 == b % 10;
    if a < 10 {
      assert |t| == 1;
    } else {
      assert |s| >= 2;
      assert s[..|s| - 1] == Decimal(a / 10) && t[..|t| - 1] == Decimal(b / 10);
      DecimalInjective(a / 10, b / 10);
    }
  }

  lemma {:induction false} DecimalHasDigits(n: nat)
    ensures Decimal(n) != "" && forall c | c in Decimal(n) :: '0' <= c <= '9'
  {
    if n >= 10 { DecimalHasDigits(n / 10); }
  }

  // ---------------------------------------------------------------- what the string functions do

  /** The characters Python takes for white space, one by one. */
  const WHITE_SPACE: string :=
    "\t\n\U{0B}\U{0C}\r\U{1C}\U{1D}\U{1E}\U{1F} \U{85}\U{A0}\U{1680}"
    + "\U{2000}\U{2001}\U{2002}\U{2003}\U{2004}\U{2005}\U{2006}\U{2007}\U{2008}\U{2009}\U{200A}"
    + "\U{2028}\U{2029}\U{202F}\U{205F}\U{3000}"

  lemma SpacesAreListed(c: char)
    ensures IsSpace(c) <==> c in WHITE_SPACE
  {
  }

  ghost predicate Spaces(s: string) { forall c | c in s :: c in WHITE_SPACE }

  /** Neither end is white space. */
  ghost predicate Trimmed(s: string) { s != "" ==> s[0] !in WHITE_SPACE && s[|s| - 1] !in WHITE_SPACE }

  lemma {:induction false} StripLeftCuts(a: string, s: string)
    requires Spaces(a) && (s != "" ==> s[0] !in WHITE_SPACE)
    ensures StripLeft(a + s) == s
    decreases |a|
  {
    if a == "" {
      assert a + s == s;
      if s != "" { SpacesAreListed(s[0]); }
    } else {
      SpacesAreListed(a[0]);
      assert (a + s)[0] == a[0] && (a + s)[1..] == a[1..] + s;
      StripLeftCuts(a[1..], s);
    }
  }

  lemma {:induction false} StripRightCuts(s: string, b: string)
    requires Spaces(b) && (s != "" ==> s[|s| - 1] !in WHITE_SPACE)
    ensures StripRight(s + b) == s
    decreases |b|
  {
    if b == "" {
      assert s + b == s;
      if s != "" { SpacesAreListed(s[|s| - 1]); }
    } else {
      var n := |s + b| - 1;
      SpacesAreListed(b[|b| - 1]);
      assert (s + b)[n] == b[|b| - 1] && (s + b)[..n] == s + b[..|b| - 1];
      StripRightCuts(s, b[..|b| - 1]);
    }
  }

  /** Stripping takes off all white space at either end and nothing else. */
  lemma StripTakesOff(a: string, s: string, b: string)
    requires Spaces(a) && Trimmed(s) && Spaces(b)
    ensures Strip(a + s + b) == s
  {
    if s == "" {
      assert a + s + b == (a + b) + "";
      StripLeftCuts(a + b, "");
    } else {
      assert a + s + b == a + (s + b) && (s + b)[0] == s[0];
      StripLeftCuts(a, s + b);
      StripRightCuts(s, b);
    }
  }

  lemma {:induction false} StripLeftParts(s: string) returns (a: string)
    ensures Spaces(a) && s == a + StripLeft(s)
    ensures StripLeft(s) != "" ==> StripLeft(s)[0] !in WHITE_SPACE
  {
    a := "";
    if s != "" {
      SpacesAreListed(s[0]);
      if IsSpace(s[0]) {
        var rest := StripLeftParts(s[1..]);
        a := [s[0]] + rest;
      }
    }
  }

  lemma {:induction false} StripRightParts(s: string) returns (b: string)
    ensures Spaces(b) && s == StripRight(s) + b
    ensures StripRight(s) != "" ==> StripRight(s)[|StripRight(s)| - 1] !in WHITE_SPACE
  {
    b := "";
    if s != "" {
      SpacesAreListed(s[|s| - 1]);
      if IsSpace(s[|s| - 1]) {
        var rest := StripRightParts(s[..|s| - 1]);
        b := rest + [s[|s| - 1]];
      }
    }
  }

  /** Every string is what is left of it between two pieces of white space. */
  lemma {:induction false} StripParts(s: string) returns (a: string, b: string)
    ensures Spaces(a) && Spaces(b) && Trimmed(Strip(s)) && s == a + Strip(s) + b
  {
    a := StripLeftParts(s);
    b := StripRightParts(StripLeft(s));
    if Strip(s) != "" { assert Strip(s)[0] == StripLeft(s)[0]; }
  }

  /** Blank is what consists of white space. */
  lemma BlankIff(s: string)
    ensures Blank(s) <==> Spaces(s)
  {
    var a, b := StripParts(s);
    if Spaces(s) {
      assert s == s + "" + "";
      StripTakesOff(s, "", "");
    }
  }

  lemma TruncateIsPrefix(s: string, n: nat)
    ensures Truncate(s, n) <= s && |Truncate(s, n)| == if |s| < n then |s| else n
  {
  }

  /** The number a text of digits stands for. */
  function Value(s: string): int {
    if s == "" then 0 else 10 * Value(s[..|s| - 1]) + (s[|s| - 1] as int - '0' as int)
  }

  lemma PushedDigit(s: string, d: nat)
    requires d < 10
    ensures Value(s + [Digit(d)]) == 10 * Value(s) + d
  {
    assert (s + [Digit(d)])[..|s|] == s;
  }

  /** A number's text stands for that number, without leading zeros. */
  lemma {:induction false} DecimalStandsForNumber(n: nat)
    ensures Value(Decimal(n)) == n && Decimal(n) != "" && (n > 0 ==> Decimal(n)[0] != '0')
  {
    var q, r := n / 10, n % 10;
    if n < 10 {
      PushedDigit("", n);
      assert Decimal(n) == "" + [Digit(n)] && Value("") == 0;
    } else {
      DecimalStandsForNumber(q);
      PushedDigit(Decimal(q), r);
      assert Decimal(n) == Decimal(q) + [Digit(r)];
      assert Decimal(n)[0] == Decimal(q)[0];
    }
  }
}
