/**
 The character scanner for linear equations and the checks built on it
 (model-packs/education/controllers/algebra_tools.py).

 Every operation that the source writes as a loop is a method here; each is proved equal to a
 function over the remaining text, and AlgebraLaws proves what those functions mean.
 */
module AlgebraTools {
  import opened Text

  /** A value, the source's `None`, or a `ValueError` escaping from `float`. */
  datatype Parse<+T> = Parsed(value: T) | NotParsed | ValueError {
    predicate IsFailure() { !Parsed? }

    function PropagateFailure<U>(): Parse<U>
      requires IsFailure()
    {
      match this
      case NotParsed => NotParsed
      case ValueError => ValueError
    }

    function Extract(): T
      requires Parsed?
    {
      value
    }
  }

  /** `coeff * variable + constant` */
  datatype Linear = Linear(coeff: real, constant: real)

  /** `a * variable + b == c` */
  datatype Equation = Equation(a: real, b: real, c: real)

  const DENOMINATOR_EPSILON := 0.000000000001
  const TOLERANCE := 0.000000001

  predicate IsSign(c: char) { c == '+' || c == '-' }

  predicate IsNumberChar(c: char) { IsDigit(c) || c == '.' }

  predicate NumberText(s: string) { forall c | c in s :: IsNumberChar(c) }

  /** `x` moved `places` decimal places to the right of the point. */
  function Shift(x: real, places: nat): (y: real)
    ensures x >= 0.0 ==> y >= 0.0
    decreases places
  {
    if places == 0 then x else Shift(x / 10.0, places - 1)
  }

  /** Index of the first `c` in `s`, or |s|. */
  function IndexOf(s: string, c: char): (i: nat)
    ensures i <= |s|
    ensures i < |s| ==> s[i] == c
    ensures c !in s[..i]
  {
    if s == "" || s[0] == c then 0 else
      var i := IndexOf(s[1..], c);
      assert s[..1 + i] == [s[0]] + s[1..][..i];
      1 + i
  }

  /** `float(s)` for a text of digits and points: at most one point, at least one digit. */
  function ReadFloat(s: string): (r: Option<real>)
    requires NumberText(s)
    ensures r.Some? ==> r.value >= 0.0
  {
    var dot := IndexOf(s, '.');
    if dot == |s| then
      assert s[..dot] == s;
      if s == "" then None else Some(ReadNat(s) as real)
    else
      var whole, frac := s[..dot], s[dot + 1..];
      if '.' in frac || (whole == "" && frac == "") then None
      else
        assert AllDigits(whole) by { PointFree(whole, s); }
        assert AllDigits(frac) by { PointFree(frac, s); }
        Some(ReadNat(whole) as real + Shift(ReadNat(frac) as real, |frac|))
  }

  lemma PointFree(part: string, s: string)
    requires NumberText(s) && '.' !in part
    requires forall c | c in part :: c in s
    ensures AllDigits(part)
  {
    forall c | c in part ensures IsDigit(c) {
      assert IsNumberChar(c);
    }
  }

  /** What one pass of the inner loop has collected. */
  datatype Collected = Collected(rest: string, num: string, found: bool, denominator: real)

  /** Length of the longest prefix of digits and points. */
  function NumberEnd(s: string): (n: nat)
    ensures n <= |s|
    ensures NumberText(s[..n])
    ensures n < |s| ==> !IsNumberChar(s[n])
  {
    if s == "" || !IsNumberChar(s[0]) then 0 else
      var n := NumberEnd(s[1..]);
      assert s[..1 + n] == [s[0]] + s[1..][..n];
      1 + n
  }

  /** The inner loop, as a function of the text still to be read. */
  function ScanTerm(variable: string, s: Collected): (r: Parse<Collected>)
    ensures r.Parsed? ==> |r.value.rest| <= |s.rest|
    ensures r.Parsed? && r.value.rest != "" ==> IsSign(r.value.rest[0])
    ensures r.Parsed? && NumberText(s.num) ==> NumberText(r.value.num)
    ensures r.Parsed? && s.denominator >= DENOMINATOR_EPSILON ==> r.value.denominator >= DENOMINATOR_EPSILON
    decreases |s.rest|
  {
    if s.rest == "" || IsSign(s.rest[0]) then Parsed(s)
    else
      var ch, rest := s.rest[0], s.rest[1..];
      if [ch] == variable then ScanTerm(variable, s.(rest := rest, found := true))
      else if IsNumberChar(ch) then ScanTerm(variable, s.(rest := rest, num := s.num + [ch]))
      else if ch == '/' then
        var n := NumberEnd(rest);
        if n == 0 then NotParsed
        else
          match ReadFloat(rest[..n])
          case None => ValueError
          case Some(d) =>
            if Abs(d) < DENOMINATOR_EPSILON then NotParsed
            else ScanTerm(variable, s.(rest := rest[n..], denominator := d))
      else if IsSpace(ch) then ScanTerm(variable, s.(rest := rest))
      else NotParsed
  }

  /** What a collected term stands for, before its sign. */
  function Magnitude(t: Collected): Parse<real>
    requires NumberText(t.num) && t.denominator >= DENOMINATOR_EPSILON
  {
    if t.num == "" then Parsed((if t.found then 1.0 else 0.0) / t.denominator)
    else
      match ReadFloat(t.num)
      case None => ValueError
      case Some(m) => Parsed(m / t.denominator)
  }

  /** Adds or subtracts, as the sign character says. */
  function AddTerm(sum: Linear, sign: char, found: bool, magnitude: real): Linear {
    var signed := if sign == '+' then magnitude else -magnitude;
    if found then sum.(coeff := sum.coeff + signed) else sum.(constant := sum.constant + signed)
  }

  /** The outer loop, as a function of the text still to be read. */
  function ScanTerms(variable: string, s: string, sum: Linear): Parse<Linear>
    decreases |s|
  {
    if s == "" then Parsed(sum)
    else if !IsSign(s[0]) then NotParsed
    else
      var t :- ScanTerm(variable, Collected(s[1..], "", false, 1.0));
      var m :- Magnitude(t);
      ScanTerms(variable, t.rest, AddTerm(sum, s[0], t.found, m))
  }

  function WithLeadingSign(s: string): string {
    if s != "" && !IsSign(s[0]) then "+" + s else s
  }

  function EvalSide(side: string, variable: string): Parse<Linear> {
    ScanTerms(variable, WithLeadingSign(RemoveBlanks(side)), Linear(0.0, 0.0))
  }

  /** `_eval_side`, the outer loop over one index into the text. */
  method EvalSideLoop(side: string, variable: string) returns (r: Parse<Linear>)
    ensures r == EvalSide(side, variable)
  {
    var s := WithLeadingSign(RemoveBlanks(side));
    var sum := Linear(0.0, 0.0);
    var pos := 0;
    while pos < |s|
      invariant pos <= |s|
      invariant ScanTerms(variable, s[pos..], sum) == EvalSide(side, variable)
    {
      if !IsSign(s[pos]) {
        return NotParsed;
      }
      var sign := s[pos];
      assert s[pos..][1..] == s[pos + 1..];
      var t;
      t, pos := CollectTerm(s, pos + 1, variable);
      if !t.Parsed? {
        return t.PropagateFailure();
      }
      var m := Magnitude(t.value);
      if m.ValueError? {
        return ValueError;
      }
      sum := AddTerm(sum, sign, t.value.found, m.value);
    }
    return Parsed(sum);
  }

  /** The inner loop of `_eval_side`: everything up to the next sign. */
  method CollectTerm(s: string, start: nat, variable: string) returns (r: Parse<Collected>, pos: nat)
    requires start <= |s|
    ensures start <= pos <= |s|
    ensures r == ScanTerm(variable, Collected(s[start..], "", false, 1.0))
    ensures r.Parsed? ==> r.value.rest == s[pos..]
  {
    pos := start;
    var t := Collected(s[pos..], "", false, 1.0);
    while pos < |s| && !IsSign(s[pos])
      invariant start <= pos <= |s| && t.rest == s[pos..]
      invariant ScanTerm(variable, t) == ScanTerm(variable, Collected(s[start..], "", false, 1.0))
    {
      var ch := s[pos];
      assert t.rest[0] == ch && t.rest[1..] == s[pos + 1..];
      pos := pos + 1;
      if [ch] == variable {
        t := t.(rest := s[pos..], found := true);
      } else if IsNumberChar(ch) {
        t := t.(rest := s[pos..], num := t.num + [ch]);
      } else if ch == '/' {
        var from := pos;
        pos := SkipNumber(s, from);
        if pos == from {
          return NotParsed, pos;
        }
        var d := ReadFloat(s[from..pos]);
        if d.None? {
          return ValueError, pos;
        }
        if Abs(d.value) < DENOMINATOR_EPSILON {
          return NotParsed, pos;
        }
        t := t.(rest := s[pos..], denominator := d.value);
      } else if IsSpace(ch) {
        t := t.(rest := s[pos..]);
      } else {
        return NotParsed, pos;
      }
    }
    r := Parsed(t);
  }

  /** The innermost loop, which consumes the digits and points of a denominator. */
  method SkipNumber(s: string, from: nat) returns (pos: nat)
    requires from <= |s|
    ensures from <= pos <= |s|
    ensures pos - from == NumberEnd(s[from..])
    ensures s[from..][..pos - from] == s[from..pos] && s[from..][pos - from..] == s[pos..]
    ensures NumberText(s[from..pos])
  {
    pos := from;
    while pos < |s| && IsNumberChar(s[pos])
      invariant from <= pos <= |s|
      invariant NumberEnd(s[from..]) == pos - from + NumberEnd(s[pos..])
    {
      assert s[pos..][1..] == s[pos + 1..];
      pos := pos + 1;
    }
  }

  /** `_EQ_RE` on stripped text: exactly one `=` with something on either side of it. */
  function SplitEquation(text: string): Option<(string, string)> {
    var s := Strip(text);
    var i := IndexOf(s, '=');
    if i == 0 || i + 1 >= |s| || '=' in s[i + 1..] then None
    else Some((Strip(s[..i]), Strip(s[i + 1..])))
  }

  /** `_parse_linear_equation`: both sides are scanned before either result is looked at. */
  function ParseLinearEquation(text: string, variable: string): Parse<Equation> {
    match SplitEquation(text)
    case None => NotParsed
    case Some((lhs, rhs)) =>
      var l, r := EvalSide(lhs, variable), EvalSide(rhs, variable);
      if l.ValueError? || r.ValueError? then ValueError
      else if l.NotParsed? || r.NotParsed? then NotParsed
      else Parsed(Equation(l.value.coeff - r.value.coeff, l.value.constant - r.value.constant, 0.0))
  }

  /** `_solve_linear` */
  function SolveLinear(e: Equation): Option<real> {
    if Abs(e.a) < DENOMINATOR_EPSILON then None else Some((e.c - e.b) / e.a)
  }

  /** How far the two sides of the equation are apart at `v`. */
  function Residual(e: Equation, v: real): real {
    e.a * v + e.b - e.c
  }

  /** `_check_substitution` */
  function CheckSubstitution(text: string, variable: string, value: real): Parse<bool> {
    match ParseLinearEquation(text, variable)
    case ValueError => ValueError
    case NotParsed => Parsed(false)
    case Parsed(e) => Parsed(Abs(Residual(e, value)) < TOLERANCE)
  }

  /** The `check_equivalence` branch: the verdict, or `NotParsed` for its null answers. */
  function CheckEquivalence(first: string, second: string, variable: string): Parse<bool> {
    var p1, p2 := ParseLinearEquation(first, variable), ParseLinearEquation(second, variable);
    if p1.ValueError? || p2.ValueError? then ValueError
    else if p1.NotParsed? || p2.NotParsed? then NotParsed
    else
      match (SolveLinear(p1.value), SolveLinear(p2.value))
      case (Some(s1), Some(s2)) => Parsed(Abs(s1 - s2) < TOLERANCE)
      case _ => NotParsed
  }

  /** How the `parse_steps` loop treats one step, given the solution of the original equation. */
  datatype Judgement = Ignored | Accepted | Rejected | Crashed

  function JudgeStep(step: string, variable: string, expected: Option<real>): Judgement {
    if '=' !in step then Ignored
    else
      match ParseLinearEquation(step, variable)
      case ValueError => Crashed
      case NotParsed => Ignored
      case Parsed(e) =>
        if expected.None? then Ignored
        else
          match SolveLinear(e)
          case None => Rejected
          case Some(s) => if Abs(s - expected.value) > TOLERANCE then Rejected else Accepted
  }

  /** The solution the steps are held against; no equation and no solution are both `None`. */
  function ExpectedSolution(equation: string, variable: string): Parse<Option<real>> {
    if equation == "" then Parsed(None)
    else
      match ParseLinearEquation(equation, variable)
      case ValueError => ValueError
      case NotParsed => Parsed(None)
      case Parsed(e) => Parsed(SolveLinear(e))
  }

  /** The part of the `parse_steps` answer that does not depend on keyword patterns. */
  datatype StepReport = StepReport(equivalencePreserved: Option<bool>, substitutionCheck: bool, valid: seq<bool>)

  function Judgements(steps: seq<string>, variable: string, expected: Option<real>): (js: seq<Judgement>)
    ensures |js| == |steps|
    ensures forall i | 0 <= i < |steps| :: js[i] == JudgeStep(steps[i], variable, expected)
  {
    seq(|steps|, i requires 0 <= i < |steps| => JudgeStep(steps[i], variable, expected))
  }

  /** The `parse_steps` branch, for a list of step texts. */
  method ParseSteps(equation: string, variable: string, steps: seq<string>) returns (r: Parse<StepReport>)
    ensures !r.NotParsed?
    ensures r.ValueError? <==>
            var expected := ExpectedSolution(equation, variable);
            expected.ValueError? || Crashed in Judgements(steps, variable, expected.value)
    ensures r.Parsed? ==>
      var expected := ExpectedSolution(equation, variable).value;
      var js := Judgements(steps, variable, expected);
      && (r.value.equivalencePreserved.Some? <==> Accepted in js || Rejected in js)
      && (r.value.equivalencePreserved == Some(true) <==> Accepted in js && Rejected !in js)
      && |r.value.valid| == |steps|
      && (forall i | 0 <= i < |steps| :: r.value.valid[i] <==> js[i] != Rejected)
      && r.value.substitutionCheck == expected.Some?
  {
    var e := ExpectedSolution(equation, variable);
    if e.ValueError? {
      return ValueError;
    }
    var crashed, verdict, valid := JudgeAll(Judgements(steps, variable, e.value));
    if crashed {
      return ValueError;
    }
    var substitution := false;
    if e.value.Some? {
      SolutionSubstitutes(equation, variable);
      var c := CheckSubstitution(equation, variable, e.value.value);
      substitution := c.value;
    }
    r := Parsed(StepReport(verdict, substitution, valid));
  }

  /** The flags of the step loop; it stops at the first step that raises. */
  method JudgeAll(js: seq<Judgement>) returns (crashed: bool, verdict: Option<bool>, valid: seq<bool>)
    ensures crashed <==> Crashed in js
    ensures !crashed ==>
      && (verdict.Some? <==> Accepted in js || Rejected in js)
      && (verdict == Some(true) <==> Accepted in js && Rejected !in js)
      && |valid| == |js|
      && forall i | 0 <= i < |js| :: valid[i] <==> js[i] != Rejected
  {
    var allEquivalent, anyParsed := true, false;
    verdict, valid := None, [];
    for i := 0 to |js|
      invariant |valid| == i
      invariant Crashed !in js[..i]
      invariant anyParsed <==> Accepted in js[..i] || Rejected in js[..i]
      invariant allEquivalent <==> Rejected !in js[..i]
      invariant forall k | 0 <= k < i :: valid[k] <==> js[k] != Rejected
    {
      assert js[..i + 1] == js[..i] + [js[i]];
      var stepValid := true;
      match js[i] {
        case Crashed => return true, None, valid;
        case Ignored =>
        case Accepted => anyParsed := true;
        case Rejected => stepValid, anyParsed, allEquivalent := false, true, false;
      }
      valid := valid + [stepValid];
    }
    assert js[..|js|] == js;
    crashed, verdict := false, if anyParsed then Some(allEquivalent) else None;
  }

  /** The computed solution always passes the substitution check of its own equation. */
  lemma SolutionSubstitutes(equation: string, variable: string)
    requires ExpectedSolution(equation, variable).Parsed? && ExpectedSolution(equation, variable).value.Some?
    ensures CheckSubstitution(equation, variable, ExpectedSolution(equation, variable).value.value) == Parsed(true)
  {
    var p := ParseLinearEquation(equation, variable);
    assert p.Parsed?;
    SolutionIsRoot(p.value, SolveLinear(p.value).value);
  }

  /** The solution is the one value at which the parsed equation holds. */
  lemma SolutionIsRoot(e: Equation, v: real)
    requires SolveLinear(e).Some?
    ensures Residual(e, v) == 0.0 <==> v == SolveLinear(e).value
  {
    var x := SolveLinear(e).value;
    assert e.a * x == e.c - e.b;
    if Residual(e, v) == 0.0 {
      assert e.a * (v - x) == 0.0;
    }
  }
}
