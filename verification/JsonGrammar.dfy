/**
 The numerals and escapes of JSON from the outside: which texts are float numerals, and that every character
 can be written with `\u` escapes, beyond the Basic Multilingual Plane as a surrogate pair.
 */
module JsonGrammar {
  import opened Text
  import opened Json
  import opened JsonLaws

  // ---------------------------------------------------------------- numerals

  /** An integer part: an optional minus sign, and digits that start with a zero only if that is all. */
  predicate Integer(s: string) {
    var digits := if s != "" && s[0] == '-' then s[1..] else s;
    digits != "" && AllDigits(digits) && (digits[0] == '0' ==> |digits| == 1)
  }

  predicate Fraction(s: string) {
    s == "" || (|s| > 1 && s[0] == '.' && AllDigits(s[1..]))
  }

  predicate Exponent(s: string) {
    s == "" || (|s| > 1 && (s[0] == 'e' || s[0] == 'E')
                && (AllDigits(s[1..]) || (|s| > 2 && (s[1] == '+' || s[1] == '-') && AllDigits(s[2..]))))
  }

  lemma AllAreDigits(s: string)
    requires AllDigits(s)
    ensures DigitsEnd(s) == |s|
  {
    assert forall i | 0 <= i < |s| :: s[i] in s && IsDigit(s[i]);
  }

  lemma IntegerEnds(i: string, rest: string)
    requires Integer(i) && (rest == "" || !IsDigit(rest[0]))
    ensures IntEnd(i + rest) == |i|
  {
    hide DigitsEnd;
    var k := if i[0] == '-' then 1 else 0;
    assert i[k] in i[k..] && IsDigit(i[k]);
    DropInside(i, rest, k);
    AllAreDigits(i[k..]);
    DigitsEndAppend(i[k..], rest);
    if i[0] != '-' {
      assert i[0..] == i;
    }
  }

  lemma FractionEnds(f: string, rest: string)
    requires Fraction(f) && (rest == "" || rest[0] == 'e' || rest[0] == 'E')
    ensures FractionEnd(f + rest) == |f|
  {
    hide DigitsEnd;
    if f == "" {
      assert f + rest == rest;
    } else {
      DropInside(f, rest, 1);
      AllAreDigits(f[1..]);
      DigitsEndAppend(f[1..], rest);
    }
  }

  lemma ExponentEnds(x: string)
    requires Exponent(x)
    ensures ExponentEnd(x) == |x|
  {
    hide DigitsEnd;
    if x != "" {
      if x[1] == '+' || x[1] == '-' {
        assert x[1] == x[1..][0] && x[1] in x[1..];
        AllAreDigits(x[2..]);
      } else {
        AllAreDigits(x[1..]);
      }
    }
  }

  /** A text is a float numeral if it is an integer part with a fraction, an exponent or both behind it. */
  lemma PartsMakeNumeral(i: string, f: string, x: string)
    requires Integer(i) && Fraction(f) && Exponent(x) && (f != "" || x != "")
    ensures FloatNumeral(i + (f + x))
  {
    hide IntEnd, FractionEnd, ExponentEnd, Integer;
    var s := i + (f + x);
    IntegerEnds(i, f + x);
    IntegerIsSomething(i);
    TakeDrop(i, f + x);
    FractionEnds(f, x);
    TakeDrop(f, x);
    assert s[|i| + |f|..] == x;
    ExponentEnds(x);
  }

  lemma IntegerIsSomething(i: string)
    requires Integer(i)
    ensures i != ""
  {}

  /** And only then. */
  lemma NumeralHasParts(s: string) returns (i: string, f: string, x: string)
    requires FloatNumeral(s)
    ensures s == i + (f + x) && Integer(i) && Fraction(f) && Exponent(x) && (f != "" || x != "")
  {
    hide IntEnd, FractionEnd, ExponentEnd, Integer, Fraction, Exponent;
    var n := IntEnd(s);
    var m := n + FractionEnd(s[n..]);
    i, f, x := s[..n], s[n..m], s[m..];
    IntegerPart(s);
    FractionPart(s[n..]);
    ExponentPart(s[m..]);
    assert s[n..][..m - n] == f && x[..ExponentEnd(x)] == x;
  }

  lemma IntegerPart(s: string)
    requires IntEnd(s) > 0
    ensures Integer(s[..IntEnd(s)])
  {
    hide DigitsEnd;
    var n, k := IntEnd(s), if Negative(s) then 1 else 0;
    IntDigits(s);
    assert s[..n][k..] == s[k..n] && s[k..n][0] == s[k];
    if s[0] != '-' {
      assert s[..n][0..] == s[..n];
    }
  }

  lemma FractionPart(s: string)
    ensures Fraction(s[..FractionEnd(s)])
  {
    hide DigitsEnd;
    var n := FractionEnd(s);
    if n > 0 {
      assert s[..n][1..] == s[1..][..n - 1];
    }
  }

  lemma ExponentPart(s: string)
    ensures Exponent(s[..ExponentEnd(s)])
  {
    hide DigitsEnd;
    var n := ExponentEnd(s);
    if n > 0 {
      assert s[..n][1..] == s[1..][..n - 1];
      assert n > 2 ==> s[..n][2..] == s[2..][..n - 2];
    }
  }

  // ---------------------------------------------------------------- escapes

  /** Four hexadecimal digits of a code unit. */
  function Hex4(code: nat): string
    requires code < 0x10000
  {
    [HexDigit(code / 0x1000), HexDigit(code / 0x100 % 0x10), HexDigit(code / 0x10 % 0x10), HexDigit(code % 0x10)]
  }

  lemma ReadsHex4(code: nat)
    requires code < 0x10000
    ensures ReadHex4(Hex4(code)) == Some(code)
  {
    hide HexDigit, HexValue;
    HexRoundTrip(code / 0x1000);
    HexRoundTrip(code / 0x100 % 0x10);
    HexRoundTrip(code / 0x10 % 0x10);
    HexRoundTrip(code % 0x10);
    var tens := code / 0x10;
    assert tens / 0x10 == code / 0x100 && code / 0x100 / 0x10 == code / 0x1000;
    assert code == tens * 0x10 + code % 0x10;
    assert tens == code / 0x100 * 0x10 + tens % 0x10;
  }

  /** The escape of a character by its number, as one code unit or as two. */
  function Escaped(c: char): string {
    var code := c as int;
    if code < 0x10000 then "\\u" + Hex4(code)
    else "\\u" + Hex4(0xD800 + (code - 0x10000) / 0x400) + "\\u" + Hex4(0xDC00 + (code - 0x10000) % 0x400)
  }

  /** Every character is read back from its escape. */
  lemma ReadsEscaped(c: char, rest: string)
    ensures ReadChar(Escaped(c) + rest) == Some((c, rest))
  {
    hide ReadHex4, Hex4;
    var code := c as int;
    var t := Escaped(c) + rest;
    if code < 0x10000 {
      var hex := Hex4(code);
      ReadsHex4(code);
      HexLength(code);
      assert t[2..] == hex + rest && t[2..][..4] == hex && t[2..][4..] == rest;
    } else {
      var high, low := 0xD800 + (code - 0x10000) / 0x400, 0xDC00 + (code - 0x10000) % 0x400;
      ReadsHex4(high);
      ReadsHex4(low);
      HexLength(high);
      HexLength(low);
      var u := t[2..];
      assert u == Hex4(high) + "\\u" + Hex4(low) + rest;
      assert u[..4] == Hex4(high) && u[4..6] == "\\u" && u[6..10] == Hex4(low) && u[10..] == rest;
    }
  }

  lemma HexLength(code: nat)
    requires code < 0x10000
    ensures |Hex4(code)| == 4
  {}
}
