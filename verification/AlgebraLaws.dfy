/**
 What the scanner means: a reference syntax of signed terms with its own evaluation, its printed
 text, and the proof that scanning a printed text gives back the value of the terms.
 */
module AlgebraLaws {
  import opened Text
  import opened AlgebraTools

  /** The source's 1e-12 and 1e-9, which the laws state for themselves. */
  const TINY := 0.000000000001
  const NEAR := 0.000000001

  /** A non-negative decimal numeral, as the digits before and after its point. */
  datatype Numeral = Numeral(whole: string, frac: string) {
    predicate Valid() {
      whole != "" && AllDigits(whole) && AllDigits(frac)
    }

    function Print(): string {
      if frac == "" then whole else whole + "." + frac
    }

    function Value(): real
      requires Valid()
    {
      ReadNat(whole) as real + Shift(ReadNat(frac) as real, |frac|)
    }
  }

  /** A signed term such as `-7`, `x`, `+ 3x`, `x/4` or `2.5x/3`. */
  datatype Term = Term(neg: bool, num: Option<Numeral>, hasVar: bool, den: Option<Numeral>) {
    predicate Valid() {
      && (num.None? ==> hasVar)
      && (num.Some? ==> num.value.Valid())
      && (den.Some? ==> den.value.Valid() && den.value.Value() >= TINY)
    }

    /** The number in front of the variable, or the constant itself. */
    function Factor(): real
      requires Valid()
    {
      var n := if num.None? then 1.0 else num.value.Value();
      var m := if den.None? then n else n / den.value.Value();
      if neg then -m else m
    }

    function ValueAt(v: real): real
      requires Valid()
    {
      if hasVar then Factor() * v else Factor()
    }

    function Body(variable: char): string {
      (if num.None? then "" else num.value.Print())
      + (if hasVar then [variable] else "")
      + (if den.None? then "" else "/" + den.value.Print())
    }

    function Print(variable: char): string {
      (if neg then "-" else "+") + Body(variable)
    }
  }

  type Sum = seq<Term>

  predicate ValidSum(ts: Sum) {
    forall t | t in ts :: t.Valid()
  }

  /** Usual evaluation of a sum of terms at a value of the variable. */
  function ValueAt(ts: Sum, v: real): real
    requires ValidSum(ts)
  {
    if ts == [] then 0.0 else ts[0].ValueAt(v) + ValueAt(ts[1..], v)
  }

  function CoeffOf(ts: Sum): real
    requires ValidSum(ts)
  {
    if ts == [] then 0.0 else (if ts[0].hasVar then ts[0].Factor() else 0.0) + CoeffOf(ts[1..])
  }

  function ConstOf(ts: Sum): real
    requires ValidSum(ts)
  {
    if ts == [] then 0.0 else (if ts[0].hasVar then 0.0 else ts[0].Factor()) + ConstOf(ts[1..])
  }

  function Print(ts: Sum, variable: char): string {
    if ts == [] then "" else ts[0].Print(variable) + Print(ts[1..], variable)
  }

  /** `text` spells the sum: blanks anywhere, and the plus sign of the first term is optional. */
  predicate Spells(text: string, ts: Sum, variable: char) {
    && OnlyBlanks(text)
    && ts != []
    && var s := RemoveBlanks(text);
       s == Print(ts, variable) || (!ts[0].neg && "+" + s == Print(ts, variable))
  }

  predicate IsLetter(c: char) {
    'a' <= c <= 'z' || 'A' <= c <= 'Z'
  }

  // ---------------------------------------------------------------- numerals

  lemma {:induction false} IndexInConcat(a: string, c: char, b: string)
    requires c !in a
    ensures IndexOf(a + [c] + b, c) == |a|
  {
    if a != "" {
      assert (a + [c] + b)[1..] == a[1..] + [c] + b;
      IndexInConcat(a[1..], c, b);
    }
  }

  lemma {:induction false} IndexAbsent(a: string, c: char)
    requires c !in a
    ensures IndexOf(a, c) == |a|
  {
    if a != "" {
      IndexAbsent(a[1..], c);
    }
  }

  /** The printed numeral reads back as its value. */
  lemma NumeralReadsBack(n: Numeral)
    requires n.Valid()
    ensures n.Print() != "" && NumberText(n.Print())
    ensures ReadFloat(n.Print()) == Some(n.Value())
  {
    DigitsArePointFree(n.whole);
    DigitsArePointFree(n.frac);
    if n.frac == "" {
      IndexAbsent(n.whole, '.');
    } else {
      IndexInConcat(n.whole, '.', n.frac);
      assert n.Print()[|n.whole| + 1..] == n.frac && n.Print()[..|n.whole|] == n.whole;
    }
  }

  lemma DigitsArePointFree(s: string)
    requires AllDigits(s)
    ensures '.' !in s && NumberText(s)
  {
    assert !IsDigit('.');
  }

  // ---------------------------------------------------------------- one term

  /** The scanner moves digits and points from the text into its number buffer. */
  lemma {:induction false} ScanNumberChars(variable: char, digits: string, s: Collected)
    requires NumberText(digits) && IsLetter(variable)
    ensures ScanTerm([variable], s.(rest := digits + s.rest)) == ScanTerm([variable], s.(num := s.num + digits))
  {
    if digits == "" {
      assert digits + s.rest == s.rest && s.num + digits == s.num;
    } else {
      var here := s.(rest := digits + s.rest);
      assert IsNumberChar(digits[0]);
      assert here.rest[0] == digits[0] && here.rest[1..] == digits[1..] + s.rest;
      var next := s.(num := s.num + [digits[0]]);
      ScanNumberChars(variable, digits[1..], next);
      assert next.num + digits[1..] == s.num + digits;
    }
  }

  lemma {:induction false} NumberEndOf(digits: string, tail: string)
    requires NumberText(digits) && (tail == "" || IsSign(tail[0]))
    ensures NumberEnd(digits + tail) == |digits|
  {
    if digits == "" {
      assert digits + tail == tail;
    } else {
      assert IsNumberChar(digits[0]);
      assert (digits + tail)[1..] == digits[1..] + tail;
      NumberEndOf(digits[1..], tail);
    }
  }

  /** A printed term in front of a sign or the end of the text is collected as written. */
  lemma ScanPrintedTerm(variable: char, t: Term, tail: string)
    requires t.Valid() && IsLetter(variable)
    requires tail == "" || IsSign(tail[0])
    ensures ScanTerm([variable], Collected(t.Body(variable) + tail, "", false, 1.0))
         == Parsed(Collected(tail, if t.num.None? then "" else t.num.value.Print(), t.hasVar,
                             if t.den.None? then 1.0 else t.den.value.Value()))
  {
    hide Numeral.Value, Numeral.Print, ReadFloat, ScanTerm;
    var digits := if t.num.None? then "" else t.num.value.Print();
    var letter := if t.hasVar then [variable] else "";
    var under := if t.den.None? then "" else "/" + t.den.value.Print();
    if t.num.Some? {
      NumeralReadsBack(t.num.value);
    }
    var afterNumber := letter + (under + tail);
    assert t.Body(variable) + tail == digits + afterNumber;
    var start := Collected(afterNumber, "", false, 1.0);
    ScanNumberChars(variable, digits, start);
    assert start.num + digits == digits;
    ScanLetter(variable, t.hasVar, digits, under + tail);
    ScanDenominator(variable, t, Collected(under + tail, digits, t.hasVar, 1.0), tail);
  }

  lemma ScanLetter(variable: char, hasVar: bool, num: string, after: string)
    requires IsLetter(variable)
    ensures ScanTerm([variable], Collected((if hasVar then [variable] else "") + after, num, false, 1.0))
         == ScanTerm([variable], Collected(after, num, hasVar, 1.0))
  {
    hide ReadFloat, NumberEnd;
    if hasVar {
      assert ([variable] + after)[0] == variable && ([variable] + after)[1..] == after;
    } else {
      assert "" + after == after;
    }
  }

  lemma ScanDenominator(variable: char, t: Term, s: Collected, tail: string)
    requires t.Valid() && IsLetter(variable)
    requires tail == "" || IsSign(tail[0])
    requires s.denominator == 1.0
    requires s.rest == (if t.den.None? then "" else "/" + t.den.value.Print()) + tail
    ensures ScanTerm([variable], s)
         == Parsed(s.(rest := tail, denominator := if t.den.None? then 1.0 else t.den.value.Value()))
  {
    hide Numeral.Value, Numeral.Print, ReadFloat;
    if t.den.None? {
      assert s.rest == tail;
    } else {
      var d := t.den.value.Print();
      NumeralReadsBack(t.den.value);
      NumberEndOf(d, tail);
      Associative("/", d, tail);
      TakeDrop("/", d + tail);
      TakeDrop(d, tail);
    }
  }

  // ---------------------------------------------------------------- sums

  lemma {:induction false} ScanPrintedSum(variable: char, ts: Sum, acc: Linear)
    requires ValidSum(ts) && IsLetter(variable)
    ensures ScanTerms([variable], Print(ts, variable), acc)
         == Parsed(Linear(acc.coeff + CoeffOf(ts), acc.constant + ConstOf(ts)))
  {
    hide ScanTerm, Magnitude, AddTerm, Term.Factor, Term.Body, Term.Valid;
    if ts != [] {
      var t, tail := ts[0], Print(ts[1..], variable);
      var s := Print(ts, variable);
      SignAndBody(t, variable, tail);
      ScanPrintedTerm(variable, t, tail);
      PrintedMagnitude(t, tail, acc);
      ScanPrintedSum(variable, ts[1..], AddTerm(acc, s[0], t.hasVar, SizeOf(t)));
    }
  }

  function SizeOf(t: Term): real
    requires t.Valid()
  {
    (if t.num.None? then 1.0 else t.num.value.Value()) / (if t.den.None? then 1.0 else t.den.value.Value())
  }

  lemma SignAndBody(t: Term, variable: char, tail: string)
    ensures var s := t.Print(variable) + tail;
      && s != "" && s[1..] == t.Body(variable) + tail && s[0] == if t.neg then '-' else '+'
  {
    hide Term.Body;
    Associative(if t.neg then "-" else "+", t.Body(variable), tail);
  }

  /** What a collected printed term adds to the accumulators. */
  lemma PrintedMagnitude(t: Term, tail: string, acc: Linear)
    requires t.Valid()
    ensures var c := Collected(tail, if t.num.None? then "" else t.num.value.Print(), t.hasVar,
                               if t.den.None? then 1.0 else t.den.value.Value());
      NumberText(c.num) && c.denominator >= TINY && Magnitude(c) == Parsed(SizeOf(t))
    ensures AddTerm(acc, if t.neg then '-' else '+', t.hasVar, SizeOf(t))
         == Linear(acc.coeff + (if t.hasVar then t.Factor() else 0.0),
                   acc.constant + (if t.hasVar then 0.0 else t.Factor()))
  {
    hide Numeral.Value, Numeral.Print, ReadFloat;
    if t.num.Some? {
      NumeralReadsBack(t.num.value);
    }
  }

  /** Scanning a text that spells a sum returns exactly its coefficients and its constants. */
  lemma EvalSpelledSide(text: string, ts: Sum, variable: char)
    requires ValidSum(ts) && IsLetter(variable) && Spells(text, ts, variable)
    ensures EvalSide(text, [variable]) == Parsed(Linear(CoeffOf(ts), ConstOf(ts)))
  {
    hide Term.Factor, ScanTerms, Term.Body;
    var s := RemoveBlanks(text);
    var printed := Print(ts, variable);
    assert IsSign(printed[0]);
    assert WithLeadingSign(s) == printed by {
      if s != printed {
        BodyStartsUnsigned(ts[0], variable);
        assert s == printed[1..] && s == ts[0].Body(variable) + Print(ts[1..], variable);
      }
    }
    ScanPrintedSum(variable, ts, Linear(0.0, 0.0));
  }

  lemma BodyStartsUnsigned(t: Term, variable: char)
    requires t.Valid() && IsLetter(variable)
    ensures t.Body(variable) != "" && !IsSign(t.Body(variable)[0])
  {
    if t.num.Some? {
      assert IsDigit(t.num.value.whole[0]);
    }
  }

  /** The scanned pair evaluates to the value of the terms, at every value of the variable. */
  lemma {:induction false} LinearValue(ts: Sum, v: real)
    requires ValidSum(ts)
    ensures CoeffOf(ts) * v + ConstOf(ts) == ValueAt(ts, v)
  {
    hide Term.Factor;
    if ts != [] {
      var f, c, k := ts[0].Factor(), CoeffOf(ts[1..]), ConstOf(ts[1..]);
      LinearValue(ts[1..], v);
      assert (f + c) * v == f * v + c * v;
    }
  }

  // ---------------------------------------------------------------- equations

  lemma {:induction false} SpelledSideIsInk(text: string, ts: Sum, variable: char)
    requires ValidSum(ts) && IsLetter(variable) && Spells(text, ts, variable)
    ensures '=' !in text
    ensures StripLeft(text) != "" && StripRight(text) != ""
    ensures Spells(Strip(StripLeft(text)), ts, variable)
    ensures Spells(Strip(StripRight(text)), ts, variable)
    ensures '=' !in StripLeft(text) && '=' !in StripRight(text)
  {
    PrintHasNoEquals(ts, variable);
    BlanksHideNothing(text, '=');
    BodyStartsUnsigned(ts[0], variable);
    StripLeftKeepsInk(text);
    StripKeepsInk(StripLeft(text));
    StripRightKeepsInk(text);
    StripKeepsInk(StripRight(text));
  }

  lemma {:induction false} BlanksHideNothing(s: string, c: char)
    requires c != ' '
    ensures c in s <==> c in RemoveBlanks(s)
  {
    if s != "" {
      assert c in s <==> c == s[0] || c in s[1..];
      BlanksHideNothing(s[1..], c);
    }
  }

  lemma {:induction false} PrintHasNoEquals(ts: Sum, variable: char)
    requires ValidSum(ts) && IsLetter(variable)
    ensures '=' !in Print(ts, variable)
  {
    if ts != [] {
      TermHasNoEquals(ts[0], variable);
      PrintHasNoEquals(ts[1..], variable);
    }
  }

  lemma TermHasNoEquals(t: Term, variable: char)
    requires t.Valid() && IsLetter(variable)
    ensures '=' !in t.Print(variable)
  {
    if t.num.Some? {
      NumeralReadsBack(t.num.value);
    }
    if t.den.Some? {
      NumeralReadsBack(t.den.value);
    }
    assert !IsNumberChar('=');
  }

  /** An equation between two spelled sums parses to the difference of the two sides. */
  lemma ParseSpelledEquation(l: string, r: string, ls: Sum, rs: Sum, variable: char)
    requires ValidSum(ls) && ValidSum(rs) && IsLetter(variable)
    requires Spells(l, ls, variable) && Spells(r, rs, variable)
    ensures ParseLinearEquation(l + "=" + r, [variable])
         == Parsed(Equation(CoeffOf(ls) - CoeffOf(rs), ConstOf(ls) - ConstOf(rs), 0.0))
    ensures '=' in l + "=" + r
  {
    hide EvalSide, Spells, CoeffOf, ConstOf, ValidSum, Strip, StripLeft, StripRight, IndexOf, RemoveBlanks;
    var text := l + "=" + r;
    StripAround(l, '=', r);
    SpelledSideIsInk(l, ls, variable);
    SpelledSideIsInk(r, rs, variable);
    var s, left, right := Strip(text), StripLeft(l), StripRight(r);
    assert s == left + ['='] + right;
    IndexInConcat(left, '=', right);
    assert s[..|left|] == left && s[|left| + 1..] == right;
    EvalSpelledSide(Strip(left), ls, variable);
    EvalSpelledSide(Strip(right), rs, variable);
    assert text[|l|] == '=';
  }

  /**
   The parsed equation holds at `v` exactly when the two printed sides are equal at `v`, and the
   substitution check accepts `v` exactly when the sides are less than the tolerance apart.
   */
  lemma SubstitutionMeansEqualSides(l: string, r: string, ls: Sum, rs: Sum, variable: char, v: real)
    requires ValidSum(ls) && ValidSum(rs) && IsLetter(variable)
    requires Spells(l, ls, variable) && Spells(r, rs, variable)
    ensures var p := ParseLinearEquation(l + "=" + r, [variable]);
            p.Parsed? && (Residual(p.value, v) == 0.0 <==> ValueAt(ls, v) == ValueAt(rs, v))
    ensures CheckSubstitution(l + "=" + r, [variable], v)
         == Parsed(Abs(ValueAt(ls, v) - ValueAt(rs, v)) < NEAR)
  {
    hide ParseLinearEquation, CoeffOf, ConstOf, ValueAt, Spells, Residual;
    ParseSpelledEquation(l, r, ls, rs, variable);
    var p := ParseLinearEquation(l + "=" + r, [variable]);
    ResidualOfSides(ls, rs, v);
    assert Residual(p.value, v) == ValueAt(ls, v) - ValueAt(rs, v);
  }

  lemma ResidualOfSides(ls: Sum, rs: Sum, v: real)
    requires ValidSum(ls) && ValidSum(rs)
    ensures Residual(Equation(CoeffOf(ls) - CoeffOf(rs), ConstOf(ls) - ConstOf(rs), 0.0), v)
         == ValueAt(ls, v) - ValueAt(rs, v)
  {
    hide CoeffOf, ConstOf, ValueAt;
    LinearValue(ls, v);
    LinearValue(rs, v);
    var a, b := CoeffOf(ls), CoeffOf(rs);
    assert (a - b) * v == a * v - b * v;
  }

  // ---------------------------------------------------------------- step verdicts

  /** `v` is where the two sides meet. */
  predicate Solves(ls: Sum, rs: Sum, v: real)
    requires ValidSum(ls) && ValidSum(rs)
  {
    ValueAt(ls, v) == ValueAt(rs, v)
  }

  /** Above the degeneracy threshold the solver finds the one value at which the sides meet. */
  lemma SolverIsSound(ls: Sum, rs: Sum, v: real)
    requires ValidSum(ls) && ValidSum(rs)
    requires Abs(CoeffOf(ls) - CoeffOf(rs)) >= TINY
    ensures var e := Equation(CoeffOf(ls) - CoeffOf(rs), ConstOf(ls) - ConstOf(rs), 0.0);
            SolveLinear(e).Some? && (Solves(ls, rs, v) <==> SolveLinear(e) == Some(v))
  {
    var e := Equation(CoeffOf(ls) - CoeffOf(rs), ConstOf(ls) - ConstOf(rs), 0.0);
    ResidualOfSides(ls, rs, v);
    SolutionIsRoot(e, v);
  }

  /**
   A step that states a non-degenerate equation with root `w` is accepted against an original with
   root `v` exactly when the two roots are within the tolerance.
   */
  lemma StepVerdict(l: string, r: string, ls: Sum, rs: Sum, variable: char, v: real, w: real)
    requires ValidSum(ls) && ValidSum(rs) && IsLetter(variable)
    requires Spells(l, ls, variable) && Spells(r, rs, variable)
    requires Abs(CoeffOf(ls) - CoeffOf(rs)) >= TINY && Solves(ls, rs, w)
    ensures JudgeStep(l + "=" + r, [variable], Some(v)) == if Abs(w - v) <= NEAR then Accepted else Rejected
  {
    hide Spells, Solves, ParseLinearEquation, CoeffOf, ConstOf, SolveLinear;
    ParseSpelledEquation(l, r, ls, rs, variable);
    SolverIsSound(ls, rs, w);
  }

  /** The original equation is held in the step loop by its one root. */
  lemma ExpectedOfSpelled(l: string, r: string, ls: Sum, rs: Sum, variable: char) returns (v: real)
    requires ValidSum(ls) && ValidSum(rs) && IsLetter(variable)
    requires Spells(l, ls, variable) && Spells(r, rs, variable)
    requires Abs(CoeffOf(ls) - CoeffOf(rs)) >= TINY
    ensures Solves(ls, rs, v)
    ensures ExpectedSolution(l + "=" + r, [variable]) == Parsed(Some(v))
  {
    hide Spells, Solves, ParseLinearEquation, CoeffOf, ConstOf;
    ParseSpelledEquation(l, r, ls, rs, variable);
    v := SolveLinear(Equation(CoeffOf(ls) - CoeffOf(rs), ConstOf(ls) - ConstOf(rs), 0.0)).value;
    SolverIsSound(ls, rs, v);
  }

  /** A degenerate step (no variable left) is rejected, whatever the original. */
  lemma DegenerateStepRejected(l: string, r: string, ls: Sum, rs: Sum, variable: char, v: real)
    requires ValidSum(ls) && ValidSum(rs) && IsLetter(variable)
    requires Spells(l, ls, variable) && Spells(r, rs, variable)
    requires Abs(CoeffOf(ls) - CoeffOf(rs)) < TINY
    ensures JudgeStep(l + "=" + r, [variable], Some(v)) == Rejected
  {
    hide Spells, ParseLinearEquation, CoeffOf, ConstOf;
    ParseSpelledEquation(l, r, ls, rs, variable);
  }

  lemma {:induction false} ValueAppend(ts: Sum, t: Term, v: real)
    requires ValidSum(ts) && t.Valid()
    ensures ValidSum(ts + [t])
    ensures ValueAt(ts + [t], v) == ValueAt(ts, v) + t.ValueAt(v)
    ensures CoeffOf(ts + [t]) == CoeffOf(ts) + (if t.hasVar then t.Factor() else 0.0)
  {
    if ts == [] {
      assert ts + [t] == [t];
    } else {
      assert (ts + [t])[1..] == ts[1..] + [t];
      ValueAppend(ts[1..], t, v);
    }
  }

  /** Against an original equation without a solution no step is judged at all. */
  lemma NothingExpected(l0: string, r0: string, l: string, r: string, ls: Sum, rs: Sum, ls': Sum, rs': Sum,
                        variable: char)
    requires ValidSum(ls) && ValidSum(rs) && ValidSum(ls') && ValidSum(rs') && IsLetter(variable)
    requires Spells(l0, ls, variable) && Spells(r0, rs, variable)
    requires Spells(l, ls', variable) && Spells(r, rs', variable)
    requires Abs(CoeffOf(ls) - CoeffOf(rs)) < TINY
    ensures ExpectedSolution(l0 + "=" + r0, [variable]) == Parsed(None)
    ensures JudgeStep(l + "=" + r, [variable], None) == Ignored
  {
    hide Spells, ParseLinearEquation, CoeffOf, ConstOf;
    ParseSpelledEquation(l0, r0, ls, rs, variable);
    ParseSpelledEquation(l, r, ls', rs', variable);
  }

  lemma AddedLinear(from: Sum, to: Sum, f: real, c: real, v: real)
    requires ValidSum(from) && ValidSum(to)
    requires CoeffOf(to) == CoeffOf(from) + f && ConstOf(to) == ConstOf(from) + c
    ensures ValueAt(to, v) == ValueAt(from, v) + (f * v + c)
  {
    hide CoeffOf, ConstOf, ValueAt;
    LinearValue(from, v);
    LinearValue(to, v);
    Distribute(v, CoeffOf(from), f);
  }

  lemma ScaledLinear(from: Sum, to: Sum, k: real, v: real)
    requires ValidSum(from) && ValidSum(to)
    requires CoeffOf(to) == k * CoeffOf(from) && ConstOf(to) == k * ConstOf(from)
    ensures ValueAt(to, v) == k * ValueAt(from, v)
  {
    hide CoeffOf, ConstOf, ValueAt;
    LinearValue(from, v);
    LinearValue(to, v);
    Associate(k, CoeffOf(from), v);
    Distribute(k, CoeffOf(from) * v, ConstOf(from));
  }

  lemma Distribute(k: real, x: real, y: real)
    ensures k * x + k * y == k * (x + y)
  {}

  lemma ScaledDifference(k: real, x: real, y: real)
    ensures k * x - k * y == k * (x - y)
  {}

  lemma Associate(k: real, x: real, y: real)
    ensures (k * x) * y == k * (x * y)
  {}

  /**
   A step that adds the linear term `f * x + c` to both sides, however it then writes the two sides, is
   accepted if the original equation has a solution, and not judged if it has none.
   */
  lemma AddingToBothSidesAccepted(l0: string, r0: string, l: string, r: string, ls: Sum, rs: Sum,
                                  ls': Sum, rs': Sum, f: real, c: real, variable: char)
    requires ValidSum(ls) && ValidSum(rs) && ValidSum(ls') && ValidSum(rs') && IsLetter(variable)
    requires Spells(l0, ls, variable) && Spells(r0, rs, variable)
    requires Spells(l, ls', variable) && Spells(r, rs', variable)
    requires CoeffOf(ls') == CoeffOf(ls) + f && ConstOf(ls') == ConstOf(ls) + c
    requires CoeffOf(rs') == CoeffOf(rs) + f && ConstOf(rs') == ConstOf(rs) + c
    ensures var expected := ExpectedSolution(l0 + "=" + r0, [variable]);
            expected.Parsed?
            && JudgeStep(l + "=" + r, [variable], expected.value)
               == if Abs(CoeffOf(ls) - CoeffOf(rs)) >= TINY then Accepted else Ignored
  {
    hide CoeffOf, ConstOf, ValueAt, Spells, JudgeStep, ExpectedSolution;
    if Abs(CoeffOf(ls) - CoeffOf(rs)) >= TINY {
      var v := ExpectedOfSpelled(l0, r0, ls, rs, variable);
      AddedLinear(ls, ls', f, c, v);
      AddedLinear(rs, rs', f, c, v);
      StepVerdict(l, r, ls', rs', variable, v, v);
    } else {
      NothingExpected(l0, r0, l, r, ls, rs, ls', rs', variable);
    }
  }

  /** `to` is `k` times `from`, however the products are written and combined. */
  predicate ScaledBy(from: Sum, to: Sum, k: real)
    requires ValidSum(from) && ValidSum(to)
  {
    CoeffOf(to) == k * CoeffOf(from) && ConstOf(to) == k * ConstOf(from)
  }

  lemma ScaledCoeff(ls: Sum, rs: Sum, ls': Sum, rs': Sum, k: real)
    requires ValidSum(ls) && ValidSum(rs) && ValidSum(ls') && ValidSum(rs')
    requires ScaledBy(ls, ls', k) && ScaledBy(rs, rs', k)
    ensures CoeffOf(ls') - CoeffOf(rs') == k * (CoeffOf(ls) - CoeffOf(rs))
  {
    hide CoeffOf, ConstOf;
    ScaledDifference(k, CoeffOf(ls), CoeffOf(rs));
  }

  lemma ScaledSolves(ls: Sum, rs: Sum, ls': Sum, rs': Sum, k: real, v: real)
    requires ValidSum(ls) && ValidSum(rs) && ValidSum(ls') && ValidSum(rs')
    requires ScaledBy(ls, ls', k) && ScaledBy(rs, rs', k) && Solves(ls, rs, v)
    ensures Solves(ls', rs', v)
  {
    hide CoeffOf, ConstOf, ValueAt;
    ScaledLinear(ls, ls', k, v);
    ScaledLinear(rs, rs', k, v);
  }

  /**
   A step that multiplies both sides by `k`, however it then writes them, is accepted exactly while the
   scaled coefficient stays above the degeneracy threshold.
   */
  lemma ScalingBothSidesAccepted(l0: string, r0: string, l: string, r: string, ls: Sum, rs: Sum,
                                 ls': Sum, rs': Sum, k: real, variable: char)
    requires ValidSum(ls) && ValidSum(rs) && ValidSum(ls') && ValidSum(rs') && IsLetter(variable)
    requires Spells(l0, ls, variable) && Spells(r0, rs, variable)
    requires Spells(l, ls', variable) && Spells(r, rs', variable)
    requires ScaledBy(ls, ls', k) && ScaledBy(rs, rs', k)
    ensures var expected := ExpectedSolution(l0 + "=" + r0, [variable]);
            var a := CoeffOf(ls) - CoeffOf(rs);
            expected.Parsed?
            && JudgeStep(l + "=" + r, [variable], expected.value)
               == if Abs(a) < TINY then Ignored
                  else if Abs(k * a) >= TINY then Accepted else Rejected
  {
    hide CoeffOf, ConstOf, ValueAt, Spells, JudgeStep, ExpectedSolution, ScaledBy, Solves;
    ScaledCoeff(ls, rs, ls', rs', k);
    if Abs(CoeffOf(ls) - CoeffOf(rs)) < TINY {
      NothingExpected(l0, r0, l, r, ls, rs, ls', rs', variable);
    } else {
      var v := ExpectedOfSpelled(l0, r0, ls, rs, variable);
      if Abs(CoeffOf(ls') - CoeffOf(rs')) >= TINY {
        ScaledSolves(ls, rs, ls', rs', k, v);
        StepVerdict(l, r, ls', rs', variable, v, v);
      } else {
        DegenerateStepRejected(l, r, ls', rs', variable, v);
      }
    }
  }

  // ---------------------------------------------------------------- two branches compared

  /** An `equivalence_preserved`, an exception, or `ok` False without one. */
  datatype Answer = Answered(preserved: Option<bool>) | Raised | Refused

  /** `parse_steps` on work of a single step; without work it answers before it looks at the equation. */
  function StepsAnswer(equation: string, work: string, variable: string): Answer {
    var expected := ExpectedSolution(equation, variable);
    if work == "" then Answered(None)
    else if !expected.Parsed? then Raised
    else
      match JudgeStep(work, variable, expected.value)
      case Crashed => Raised
      case Ignored => Answered(None)
      case Accepted => Answered(Some(true))
      case Rejected => Answered(Some(false))
  }

  /** `check_equivalence`, which takes the expected answer in place of missing work. */
  function EquivalenceAnswer(equation: string, work: string, expected: string, variable: string): Answer {
    var second := if work != "" then work else expected;
    if equation == "" || second == "" then Refused
    else
      match CheckEquivalence(equation, second, variable)
      case ValueError => Raised
      case NotParsed => Answered(None)
      case Parsed(b) => Answered(Some(b))
  }

  /**
   With an equation and work: both parse and the first has a solution, but the second has none or one exactly
   the tolerance away. Without work the branches look at different texts, and without an equation only one
   of them answers.
   */
  predicate AnswersDiffer(equation: string, work: string, expected: string, variable: string) {
    if equation == "" then true
    else if work == "" then expected == "" || !CheckEquivalence(equation, expected, variable).NotParsed?
    else
      var p, q := ParseLinearEquation(equation, variable), ParseLinearEquation(work, variable);
      && p.Parsed? && q.Parsed? && SolveLinear(p.value).Some?
      && (SolveLinear(q.value).None? || Abs(SolveLinear(p.value).value - SolveLinear(q.value).value) == NEAR)
  }

  /**
   For all texts: the two branches give the same answer, null answers and crashes included, unless the
   work has no solution (False against null) or one exactly the tolerance away (True against False), or a
   text is missing.
   */
  lemma EquivalenceAgreesWithSteps(equation: string, work: string, expected: string, variable: string)
    ensures StepsAnswer(equation, work, variable) == EquivalenceAnswer(equation, work, expected, variable)
            <==> !AnswersDiffer(equation, work, expected, variable)
  {
    hide ParseLinearEquation, SolveLinear;
    if '=' !in work {
      NoEqualsNoEquation(work, variable);
    }
    var p, q := ParseLinearEquation(equation, variable), ParseLinearEquation(work, variable);
    if p.Parsed? && q.Parsed? && equation != "" && work != "" {
      ParsedAnswers(equation, work, expected, variable, p.value, q.value);
    }
  }

  /** Both answers, when both equations parse. */
  lemma ParsedAnswers(equation: string, work: string, expected: string, variable: string, p: Equation, q: Equation)
    requires ParseLinearEquation(equation, variable) == Parsed(p)
    requires ParseLinearEquation(work, variable) == Parsed(q)
    ensures equation != "" && work != ""
    ensures var s, t := SolveLinear(p), SolveLinear(q);
      && StepsAnswer(equation, work, variable)
         == Answered(if s.None? then None else Some(t.Some? && Abs(s.value - t.value) <= NEAR))
      && EquivalenceAnswer(equation, work, expected, variable)
         == Answered(if s.None? || t.None? then None else Some(Abs(s.value - t.value) < NEAR))
  {
    hide ParseLinearEquation, SolveLinear;
    EmptyIsNoEquation(variable);
    if '=' !in work {
      NoEqualsNoEquation(work, variable);
    }
    var s, t := SolveLinear(p), SolveLinear(q);
    assert s.Some? && t.Some? ==> Abs(t.value - s.value) == Abs(s.value - t.value);
  }

  lemma EmptyIsNoEquation(variable: string)
    ensures ParseLinearEquation("", variable) == NotParsed
  {
    assert Strip("") == "";
  }

  lemma NoEqualsNoEquation(text: string, variable: string)
    requires '=' !in text
    ensures ParseLinearEquation(text, variable) == NotParsed
  {
    hide Strip;
    if '=' in Strip(text) {
      StripWithin(text, '=');
    }
  }

  /** Two equations on which one branch says True and the other False, and two with False and null. */
  lemma AnswersThatDiffer()
    ensures StepsAnswer("x=0", "x=0.000000001", "x") == Answered(Some(true))
    ensures EquivalenceAnswer("x=0", "x=0.000000001", "", "x") == Answered(Some(false))
    ensures StepsAnswer("x=0", "0=0.000000001", "x") == Answered(Some(false))
    ensures EquivalenceAnswer("x=0", "0=0.000000001", "", "x") == Answered(None)
  {
    hide ParseLinearEquation, SolveLinear, Spells, CoeffOf, ConstOf, Term.Factor, Term.Body, Term.Valid, StepsAnswer,
         EquivalenceAnswer;
    var x := Term(false, None, true, None);
    var zero, tiny := Literal("0", ""), Literal("0", "000000001");
    TinyNumeral();
    VariableAlone();
    SpelledAlone("x", x);
    SpelledAlone("0", zero);
    SpelledAlone("0.000000001", tiny);
    ParseSpelledEquation("x", "0", [x], [zero], 'x');
    ParseSpelledEquation("x", "0.000000001", [x], [tiny], 'x');
    ParseSpelledEquation("0", "0.000000001", [zero], [tiny], 'x');
    assert "x" + "=" + "0" == "x=0";
    assert "x" + "=" + "0.000000001" == "x=0.000000001";
    assert "0" + "=" + "0.000000001" == "0=0.000000001";
    assert ['x'] == "x";
    var p, q, none := Equation(1.0, 0.0, 0.0), Equation(1.0, -NEAR, 0.0), Equation(0.0, -NEAR, 0.0);
    SmallEquations();
    ParsedAnswers("x=0", "x=0.000000001", "", "x", p, q);
    ParsedAnswers("x=0", "0=0.000000001", "", "x", p, none);
  }

  lemma SmallEquations()
    ensures SolveLinear(Equation(1.0, 0.0, 0.0)) == Some(0.0)
    ensures SolveLinear(Equation(1.0, -NEAR, 0.0)) == Some(NEAR)
    ensures SolveLinear(Equation(0.0, -NEAR, 0.0)) == None
  {}

  lemma VariableAlone()
    ensures var x := Term(false, None, true, None);
      x.Valid() && x.Factor() == 1.0 && x.Body('x') == "x"
  {}

  function Literal(whole: string, frac: string): Term {
    Term(false, Some(Numeral(whole, frac)), false, None)
  }

  lemma SpelledAlone(text: string, t: Term)
    requires t.Valid() && !t.neg && t.Body('x') == text && (forall i | 0 <= i < |text| :: !IsSpace(text[i]))
    ensures Spells(text, [t], 'x')
    ensures CoeffOf([t]) == (if t.hasVar then t.Factor() else 0.0)
    ensures ConstOf([t]) == (if t.hasVar then 0.0 else t.Factor())
  {
    hide Term.Factor, Term.Body;
    assert OnlyBlanks(text);
    NoBlanksToRemove(text);
    assert [t][1..] == [];
    assert Print([t], 'x') == "+" + text + "";
  }

  lemma {:induction false} NoBlanksToRemove(s: string)
    requires forall i | 0 <= i < |s| :: s[i] != ' '
    ensures RemoveBlanks(s) == s
  {
    if s != "" {
      NoBlanksToRemove(s[1..]);
    }
  }

  lemma {:induction false} ZerosReadZero(s: string)
    requires forall i | 0 <= i < |s| :: s[i] == '0'
    ensures AllDigits(s) && ReadNat(s) == 0
  {
    if s != "" {
      ZerosReadZero(s[..|s| - 1]);
    }
  }

  lemma TinyNumeral()
    ensures Literal("0", "").Valid() && Literal("0", "").Factor() == 0.0 && Literal("0", "").Body('x') == "0"
    ensures Literal("0", "000000001").Valid() && Literal("0", "000000001").Factor() == NEAR
    ensures Literal("0", "000000001").Body('x') == "0.000000001"
  {
    var frac := "000000001";
    ZerosReadZero("0");
    ZerosReadZero(frac[..8]);
    assert ReadNat(frac) == 10 * ReadNat(frac[..8]) + 1;
    assert Shift(1.0, 9) == Shift(0.1, 8) == Shift(0.01, 7) == Shift(0.001, 6) == Shift(0.0001, 5);
    assert Shift(0.0001, 5) == Shift(0.00001, 4) == Shift(0.000001, 3) == Shift(0.0000001, 2);
    assert Shift(0.0000001, 2) == Shift(0.00000001, 1) == Shift(0.000000001, 0);
  }
}
