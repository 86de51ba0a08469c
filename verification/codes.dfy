/**
  Pairing codes. The server draws `Math.floor(100000 + Math.random() * 900000)`
  and renders it with `toString()`. The floating-point draw is replaced by
  `draw = Math.floor(100000 + Math.random() * 900000) - 100000`, which lies in
  [0, 900000); the rendering is the decimal
  numeral of a natural number, with `Parse` as its inverse.
 */
module Codes {

  type Code = string

  const CodeBase: nat := 100000
  const CodeSpan: nat := 900000

  predicate IsDigit(ch: char) {
    '0' <= ch <= '9'
  }

  predicate AllDigits(s: string) {
    forall i :: 0 <= i < |s| ==> IsDigit(s[i])
  }

  /** A pairing code as the server hands it out: six decimal digits, no leading zero. */
  predicate IsCode(s: string) {
    |s| == 6 && AllDigits(s) && s[0] != '0'
  }

  function DigitChar(d: nat): (ch: char)
    requires d < 10
    ensures IsDigit(ch)
  {
    ('0' as int + d) as char
  }

  function DigitValue(ch: char): (d: nat)
    requires IsDigit(ch)
    ensures d < 10
  {
    ch as int - '0' as int
  }

  function Pow10(k: nat): (p: nat)
    ensures p >= 1
  {
    if k == 0 then 1 else 10 * Pow10(k - 1)
  }

  /** `n.toString()` for a non-negative integer. */
  function Decimal(n: nat): (s: string)
    ensures |s| >= 1 && AllDigits(s)
  {
    if n < 10 then [DigitChar(n)] else Decimal(n / 10) + [DigitChar(n % 10)]
  }

  /** The value of a string of decimal digits, most significant first. */
  function Parse(s: string): nat
    requires AllDigits(s)
  {
    if s == [] then 0 else Parse(s[..|s| - 1]) * 10 + DigitValue(s[|s| - 1])
  }

  /** `generateCode()` with the random draw supplied by the caller. */
  function GenerateCode(draw: nat): (c: Code)
    requires draw < CodeSpan
    ensures IsCode(c)
    ensures Parse(c) == CodeBase + draw
  {
    assert Pow10(5) == CodeBase && Pow10(6) == CodeBase + CodeSpan;
    DecimalLength(CodeBase + draw, 6);
    DecimalLeading(CodeBase + draw);
    DecimalRoundTrip(CodeBase + draw);
    Decimal(CodeBase + draw)
  }

  lemma {:induction false} DecimalLength(n: nat, k: nat)
    requires 1 <= k && Pow10(k - 1) <= n < Pow10(k)
    ensures |Decimal(n)| == k
    decreases k
  {
    if k == 1 {
      assert n < 10;
    } else {
      assert Pow10(k - 1) == 10 * Pow10(k - 2);
      assert n >= 10;
      assert Pow10(k - 2) <= n / 10 < Pow10(k - 1);
      DecimalLength(n / 10, k - 1);
    }
  }

  lemma {:induction false} DecimalLeading(n: nat)
    requires n >= 1
    ensures Decimal(n)[0] != '0'
    decreases n
  {
    if n >= 10 {
      DecimalLeading(n / 10);
    }
  }

  /** Parsing the rendering gives the number back. */
  lemma {:induction false} DecimalRoundTrip(n: nat)
    ensures Parse(Decimal(n)) == n
    decreases n
  {
    var s := Decimal(n);
    if n < 10 {
      assert s[..|s| - 1] == [];
    } else {
      assert s[..|s| - 1] == Decimal(n / 10);
      DecimalRoundTrip(n / 10);
    }
  }

  lemma {:induction false} ParseBounds(s: string)
    requires AllDigits(s)
    ensures Parse(s) < Pow10(|s|)
    ensures |s| >= 1 && s[0] != '0' ==> Pow10(|s| - 1) <= Parse(s)
    decreases |s|
  {
    if s != [] {
      var p := s[..|s| - 1];
      ParseBounds(p);
      if |p| >= 1 {
        assert p[0] == s[0];
      }
    }
  }

  /** Rendering a parsed numeral without a leading zero gives the numeral back. */
  lemma {:induction false} ParseRoundTrip(s: string)
    requires AllDigits(s) && |s| >= 1
    requires |s| >= 2 ==> s[0] != '0'
    ensures Decimal(Parse(s)) == s
    decreases |s|
  {
    var p := s[..|s| - 1];
    if |s| == 1 {
      assert p == [];
      assert DigitChar(DigitValue(s[0])) == s[0];
    } else {
      assert p[0] == s[0];
      ParseRoundTrip(p);
      ParseBounds(p);
      var n := Parse(s);
      assert n / 10 == Parse(p);
      assert DigitChar(n % 10) == s[|s| - 1];
      assert s == p + [s[|s| - 1]];
    }
  }

  /**
    Every pairing code is produced by exactly one draw, so the generator
    reaches all 900000 codes and no others.
   */
  lemma GenerateCodeBijective(c: Code, draw: nat)
    requires IsCode(c) && draw < CodeSpan
    ensures GenerateCode(draw) == c <==> draw == Parse(c) - CodeBase
    ensures CodeBase <= Parse(c) < CodeBase + CodeSpan
  {
    ParseBounds(c);
    assert Pow10(5) == 100000 && Pow10(6) == 1000000;
    ParseRoundTrip(c);
    if GenerateCode(draw) == c {
      assert Parse(c) == CodeBase + draw;
    }
  }
}
