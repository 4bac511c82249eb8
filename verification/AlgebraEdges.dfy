/**
 What the equation scanner makes of texts outside the grammar of signed terms: missing parts, lone points and
 signs, and characters that no term has.
 */
module AlgebraEdges {
  import opened Text
  import opened AlgebraTools
  import opened AlgebraLaws

  // ---------------------------------------------------------------- numerals

  lemma PointJoins(a: string, b: string)
    requires NumberText(a) && NumberText(b)
    ensures NumberText(a + ['.'] + b)
  {}

  lemma PiecesAround(a: string, b: string)
    ensures var s := a + ['.'] + b;
            |a| < |s| && s[..|a|] == a && s[|a| + 1..] == b && s != ""
  {
    assert (a + ['.'] + b)[|a| + 1..] == b;
  }

  lemma ReadAround(s: string, whole: string, frac: string)
    requires NumberText(s) && AllDigits(whole) && AllDigits(frac) && '.' !in frac
    requires |whole| < |s| && IndexOf(s, '.') == |whole|
    requires s[..|whole|] == whole && s[|whole| + 1..] == frac
    ensures ReadFloat(s) == if whole == "" && frac == "" then None
                            else Some(ReadNat(whole) as real + Shift(ReadNat(frac) as real, |frac|))
  {
    hide ReadNat, Shift, IndexOf, NumberText, AllDigits;
  }

  /** A point may stand between digits, in front of them or behind them, but not alone. */
  lemma PointBetween(whole: string, frac: string)
    requires AllDigits(whole) && AllDigits(frac)
    ensures NumberText(whole + ['.'] + frac)
    ensures ReadFloat(whole + ['.'] + frac)
            == if whole == "" && frac == "" then None
               else Some(ReadNat(whole) as real + Shift(ReadNat(frac) as real, |frac|))
  {
    hide ReadFloat, ReadNat, Shift, IndexOf, NumberText, AllDigits;
    DigitsArePointFree(whole);
    DigitsArePointFree(frac);
    PointJoins(whole, frac);
    IndexInConcat(whole, '.', frac);
    PiecesAround(whole, frac);
    ReadAround(whole + ['.'] + frac, whole, frac);
  }

  /** A second point makes it no numeral. */
  lemma TwoPoints(whole: string, rest: string)
    requires AllDigits(whole) && NumberText(rest) && '.' in rest
    ensures NumberText(whole + ['.'] + rest) && ReadFloat(whole + ['.'] + rest) == None
  {
    hide ReadNat, Shift, IndexOf, NumberText, AllDigits;
    DigitsArePointFree(whole);
    PointJoins(whole, rest);
    IndexInConcat(whole, '.', rest);
    PiecesAround(whole, rest);
  }

  // ---------------------------------------------------------------- sides

  /** An empty side, and one that is a sign alone, are zero. */
  lemma NothingIsZero(variable: string)
    ensures EvalSide("", variable) == Parsed(Linear(0.0, 0.0))
    ensures EvalSide("+", variable) == Parsed(Linear(0.0, 0.0))
    ensures EvalSide("-", variable) == Parsed(Linear(0.0, 0.0))
  {
    assert RemoveBlanks("") == "" && "+"[1..] == "" && "-"[1..] == "";
    assert RemoveBlanks("+") == "+" && RemoveBlanks("-") == "-";
  }

  /** White space inside a term is passed over. */
  lemma SpaceIsPassedOver(variable: string, s: Collected, c: char)
    requires IsSpace(c) && [c] != variable
    ensures ScanTerm(variable, s.(rest := [c] + s.rest)) == ScanTerm(variable, s)
  {
    var t := [c] + s.rest;
    assert t[0] == c && t[1..] == s.rest;
    assert !IsNumberChar(c) && !IsSign(c) && c != '/';
    assert s.(rest := t).(rest := s.rest) == s;
  }

  /** The characters that a term can have; white space other than blanks is passed over. */
  predicate Known(c: char, variable: string) {
    IsSign(c) || IsNumberChar(c) || c == '/' || IsSpace(c) || [c] == variable
  }

  lemma {:induction false} TermIsKnown(variable: string, s: Collected)
    ensures ScanTerm(variable, s).Parsed? ==>
      forall c | c in s.rest :: Known(c, variable) || c in ScanTerm(variable, s).value.rest
    decreases |s.rest|
  {
    hide ReadFloat, NumberEnd;
    if s.rest != "" && !IsSign(s.rest[0]) {
      var ch, rest := s.rest[0], s.rest[1..];
      assert s.rest == [ch] + rest;
      if [ch] == variable {
        TermIsKnown(variable, s.(rest := rest, found := true));
      } else if IsNumberChar(ch) {
        TermIsKnown(variable, s.(rest := rest, num := s.num + [ch]));
      } else if ch == '/' {
        var n := NumberEnd(rest);
        assert rest == rest[..n] + rest[n..];
        var d := ReadFloat(rest[..n]);
        if n > 0 && d.Some? {
          TermIsKnown(variable, s.(rest := rest[n..], denominator := d.value));
          assert forall c | c in rest[..n] :: IsNumberChar(c);
        }
      } else {
        TermIsKnown(variable, s.(rest := rest));
      }
    }
  }

  lemma {:induction false} TermsAreKnown(variable: string, s: string, sum: Linear)
    ensures ScanTerms(variable, s, sum).Parsed? ==> forall c | c in s :: Known(c, variable)
    decreases |s|
  {
    hide ScanTerm, Magnitude;
    if s != "" && IsSign(s[0]) {
      var start := Collected(s[1..], "", false, 1.0);
      assert s == [s[0]] + s[1..];
      TermIsKnown(variable, start);
      var t := ScanTerm(variable, start);
      if t.Parsed? {
        var m := Magnitude(t.value);
        if m.Parsed? {
          TermsAreKnown(variable, t.value.rest, AddTerm(sum, s[0], t.value.found, m.value));
        }
      }
    }
  }

  lemma {:induction false} BlanksRemoved(s: string)
    ensures forall c | c in s && c != ' ' :: c in RemoveBlanks(s)
  {
    if s != "" {
      assert s == [s[0]] + s[1..];
      BlanksRemoved(s[1..]);
    }
  }

  /** A side that is parsed has no character that a term cannot have. */
  lemma ParsedSideIsKnown(side: string, variable: string)
    ensures EvalSide(side, variable).Parsed? ==> forall c | c in side :: Known(c, variable)
  {
    hide ScanTerms;
    var s := WithLeadingSign(RemoveBlanks(side));
    BlanksRemoved(side);
    TermsAreKnown(variable, s, Linear(0.0, 0.0));
    assert forall c | c in RemoveBlanks(side) :: c in s;
  }

  // ---------------------------------------------------------------- equations

  /** A text is an equation if and only if, stripped, it is two non-empty texts around its one equals sign. */
  lemma SplitsIff(text: string)
    ensures SplitEquation(text).Some? <==>
      exists l, r :: Strip(text) == l + "=" + r && l != "" && r != "" && '=' !in l && '=' !in r
  {
    var s := Strip(text);
    var i := IndexOf(s, '=');
    if SplitEquation(text).Some? {
      assert s == s[..i] + "=" + s[i + 1..];
    }
    if l, r :| s == l + "=" + r && l != "" && r != "" && '=' !in l && '=' !in r {
      assert s == l + ['='] + r;
      IndexInConcat(l, '=', r);
      assert s[|l| + 1..] == r;
    }
  }

  /** What does not parse is satisfied by no value. */
  lemma UnparsedIsNotSatisfied(text: string, variable: string, value: real)
    requires ParseLinearEquation(text, variable).NotParsed?
    ensures CheckSubstitution(text, variable, value) == Parsed(false)
  {}
}
