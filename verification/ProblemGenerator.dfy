/**
 Tier selection and the equation generators
 (model-packs/education/domain-lib/problem_generator.py). The random generator is replaced by an
 arbitrary pick within the ranges that the source draws from.
 */
module ProblemGenerator {
  import opened Text
  import opened AlgebraTools
  import opened AlgebraLaws

  /** An entry of `equation_difficulty_tiers`; absent bounds default to 0 and 1. */
  datatype Tier = Tier(id: string, minDifficulty: Option<real>, maxDifficulty: Option<real>, equationType: string) {
    function Lo(): real {
      if minDifficulty.Some? then minDifficulty.value else 0.0
    }

    function Hi(): real {
      if maxDifficulty.Some? then maxDifficulty.value else 1.0
    }

    predicate Covers(difficulty: real) {
      Lo() <= difficulty < Hi()
    }

    function Midpoint(): real {
      (Lo() + Hi()) / 2.0
    }
  }

  /** Non-empty, pairwise disjoint ranges and distinct ids. */
  ghost predicate ValidTiers(tiers: seq<Tier>) {
    && tiers != []
    && (forall t | t in tiers :: t.Lo() < t.Hi())
    && (forall i, j | 0 <= i < j < |tiers| ::
          tiers[i].id != tiers[j].id && (tiers[i].Hi() <= tiers[j].Lo() || tiers[j].Hi() <= tiers[i].Lo()))
  }

  /** The first tier that covers the difficulty, else the last one. */
  function SelectTier(difficulty: real, tiers: seq<Tier>): (t: Tier)
    requires tiers != []
    ensures t in tiers
    ensures (exists u | u in tiers :: u.Covers(difficulty)) ==> t.Covers(difficulty)
  {
    if tiers[0].Covers(difficulty) || |tiers| == 1 then tiers[0] else SelectTier(difficulty, tiers[1..])
  }

  /** The bounds of a tier are those given, and else 0 and 1; the upper one belongs to the next tier. */
  predicate Holds(t: Tier, difficulty: real) {
    && (if t.minDifficulty.Some? then t.minDifficulty.value <= difficulty else 0.0 <= difficulty)
    && (if t.maxDifficulty.Some? then difficulty < t.maxDifficulty.value else difficulty < 1.0)
  }

  /** The tier at `i` is the first that holds the difficulty. */
  predicate FirstToHold(difficulty: real, tiers: seq<Tier>, i: nat) {
    i < |tiers| && Holds(tiers[i], difficulty) && forall j | 0 <= j < i :: !Holds(tiers[j], difficulty)
  }

  /** The first tier that holds the difficulty is selected, and the last of all if none does. */
  lemma {:induction false} SelectsFirst(difficulty: real, tiers: seq<Tier>)
    requires tiers != []
    ensures var t := SelectTier(difficulty, tiers);
      || (exists i | 0 <= i < |tiers| :: FirstToHold(difficulty, tiers, i) && t == tiers[i])
      || ((forall u <- tiers :: !Holds(u, difficulty)) && t == tiers[|tiers| - 1])
  {
    hide Holds, FirstToHold;
    HoldsIs(tiers[0], difficulty);
    if Holds(tiers[0], difficulty) {
      assert FirstToHold(difficulty, tiers, 0) by { FirstIsFirst(difficulty, tiers); }
    } else if |tiers| > 1 {
      var rest := tiers[1..];
      assert tiers == [tiers[0]] + rest;
      SelectsFirst(difficulty, rest);
      if i :| 0 <= i < |rest| && FirstToHold(difficulty, rest, i) && SelectTier(difficulty, rest) == rest[i] {
        LaterIsFirst(difficulty, tiers, i);
        assert tiers[i + 1] == rest[i];
      }
    }
  }

  lemma HoldsIs(t: Tier, difficulty: real)
    ensures Holds(t, difficulty) <==> t.Covers(difficulty)
  {}

  lemma FirstIsFirst(difficulty: real, tiers: seq<Tier>)
    requires tiers != [] && Holds(tiers[0], difficulty)
    ensures FirstToHold(difficulty, tiers, 0)
  {}

  lemma LaterIsFirst(difficulty: real, tiers: seq<Tier>, i: nat)
    requires tiers != [] && !Holds(tiers[0], difficulty) && FirstToHold(difficulty, tiers[1..], i)
    ensures FirstToHold(difficulty, tiers, i + 1)
  {
    hide Holds;
    forall j | 0 <= j < i + 1 ensures !Holds(tiers[j], difficulty) {
      assert j > 0 ==> tiers[1..][j - 1] == tiers[j];
    }
  }

  /** `select_tier` */
  method SelectTierLoop(difficulty: real, tiers: seq<Tier>) returns (t: Tier)
    requires tiers != []
    ensures t == SelectTier(difficulty, tiers)
  {
    for i := 0 to |tiers|
      invariant i < |tiers| ==> SelectTier(difficulty, tiers[i..]) == SelectTier(difficulty, tiers)
      invariant i == |tiers| ==> SelectTier(difficulty, tiers) == tiers[|tiers| - 1]
    {
      if tiers[i].Covers(difficulty) {
        return tiers[i];
      }
      assert i + 1 < |tiers| ==> tiers[i..][1..] == tiers[i + 1..];
    }
    return tiers[|tiers| - 1];
  }

  /** The midpoint of a tier of a valid table selects that tier. */
  lemma MidpointSelects(t: Tier, tiers: seq<Tier>)
    requires ValidTiers(tiers) && t in tiers
    ensures SelectTier(t.Midpoint(), tiers) == t
  {
    assert t.Covers(t.Midpoint());
    var u := SelectTier(t.Midpoint(), tiers);
    var i :| 0 <= i < |tiers| && tiers[i] == t;
    var j :| 0 <= j < |tiers| && tiers[j] == u;
  }

  // ---------------------------------------------------------------- equations

  datatype Kind = SingleStep | Consolidation | MultiStep

  /** The draws of one generator call: coefficient or addend, second addend, answer, sign. */
  datatype Pick = Pick(a: nat, b: nat, answer: nat, plus: bool)

  predicate InRange(kind: Kind, p: Pick) {
    match kind
    case SingleStep => 1 <= p.a <= 20 && 1 <= p.answer <= 20
    case Consolidation => 2 <= p.a <= 12 && 1 <= p.answer <= 15
    case MultiStep => 2 <= p.a <= 8 && 1 <= p.b <= 15 && 1 <= p.answer <= 12
  }

  datatype Problem = Problem(equation: string, targetVariable: string, expectedAnswer: string, minSteps: nat,
                             equationType: string, difficultyTier: string, status: string)

  /** `_GENERATORS.get(equation_type, _generate_single_step_isolation)` */
  function KindOf(equationType: string): Kind {
    if equationType == "variable_consolidation" then Consolidation
    else if equationType == "multi_step_linear" then MultiStep
    else SingleStep
  }

  /** The two sides of the printed equation, around its `=`. */
  function EquationText(kind: Kind, p: Pick): (string, string) {
    match kind
    case SingleStep => ("x + " + Decimal(p.a) + " ", " " + Decimal(p.answer + p.a))
    case Consolidation => (Decimal(p.a) + "x ", " " + Decimal(p.a * p.answer))
    case MultiStep =>
      if p.plus then (Decimal(p.a) + "x + " + Decimal(p.b) + " ", " " + IntText(p.a * p.answer + p.b))
      else (Decimal(p.a) + "x - " + Decimal(p.b) + " ", " " + IntText(p.a * p.answer - p.b))
  }

  /** `generate_problem` */
  function GenerateProblem(difficulty: real, tiers: seq<Tier>, p: Pick): Problem
    requires tiers != []
  {
    var tier := SelectTier(difficulty, tiers);
    var kind := KindOf(tier.equationType);
    var (l, r) := EquationText(kind, p);
    Problem(l + "=" + r, "x", "x " + "=" + (" " + Decimal(p.answer)), if kind.MultiStep? then 2 else 1,
            tier.equationType, tier.id, "in_progress")
  }

  // ---------------------------------------------------------------- the printed equation is solved

  function Whole(n: nat): Numeral { Numeral(Decimal(n), "") }

  function Constant(n: int): Term {
    Term(n < 0, Some(Whole(if n < 0 then -n else n)), false, None)
  }

  function Multiple(a: nat): Term { Term(false, Some(Whole(a)), true, None) }

  const X := Term(false, None, true, None)

  function LeftTerms(kind: Kind, p: Pick): Sum {
    match kind
    case SingleStep => [X, Constant(p.a)]
    case Consolidation => [Multiple(p.a)]
    case MultiStep => [Multiple(p.a), if p.plus then Constant(p.b) else Constant(-(p.b as int))]
  }

  /** The constant on the right, chosen so that the drawn answer is the solution. */
  function RightHandSide(kind: Kind, p: Pick): int {
    match kind
    case SingleStep => p.answer + p.a
    case Consolidation => p.a * p.answer
    case MultiStep => if p.plus then p.a * p.answer + p.b else p.a * p.answer - p.b
  }

  lemma WholeValue(n: nat)
    ensures Whole(n).Valid() && Whole(n).Value() == n as real && Whole(n).Print() == Decimal(n)
  {
    ReadDecimal(n);
    assert ReadNat("") == 0;
  }

  lemma {:induction false} DigitsHaveNoBlanks(s: string)
    requires AllDigits(s)
    ensures RemoveBlanks(s) == s && OnlyBlanks(s)
  {
    if s != "" {
      assert IsDigit(s[0]);
      DigitsHaveNoBlanks(s[1..]);
    }
  }

  lemma ConstantValue(n: int)
    ensures Constant(n).Valid() && Constant(n).Factor() == n as real
  {
    WholeValue(if n < 0 then -n else n);
  }

  /** A text spells one or two terms when, blanks removed, it is their printed bodies. */
  lemma SpellsOne(text: string, t: Term, variable: char)
    requires OnlyBlanks(text)
    requires RemoveBlanks(text) == (if t.neg then "-" else "") + t.Body(variable)
    ensures Spells(text, [t], variable)
  {
    hide Term.Body;
    assert [t][1..] == [];
    assert Print([t], variable) == t.Print(variable);
    assert t.neg || "+" + ("" + t.Body(variable)) == t.Print(variable);
  }

  lemma SpellsTwo(text: string, t: Term, u: Term, variable: char)
    requires OnlyBlanks(text) && !t.neg
    requires RemoveBlanks(text) == t.Body(variable) + u.Print(variable)
    ensures Spells(text, [t, u], variable)
  {
    hide Term.Body;
    assert [t, u][1..] == [u] && [u][1..] == [];
    assert Print([u], variable) == u.Print(variable);
    assert Print([t, u], variable) == t.Print(variable) + u.Print(variable);
    assert "+" + (t.Body(variable) + u.Print(variable)) == t.Print(variable) + u.Print(variable);
  }

  lemma BlanksAway(a: string, s: string, b: string)
    requires AllDigits(s)
    ensures RemoveBlanks(a + s + b) == RemoveBlanks(a) + s + RemoveBlanks(b)
    ensures OnlyBlanks(a) && OnlyBlanks(b) ==> OnlyBlanks(a + s + b)
  {
    DigitsHaveNoBlanks(s);
    RemoveBlanksConcat(a + s, b);
    RemoveBlanksConcat(a, s);
  }

  lemma Literals()
    ensures RemoveBlanks("") == "" && RemoveBlanks(" ") == "" && RemoveBlanks(" -") == "-"
    ensures RemoveBlanks("x ") == "x" && RemoveBlanks("x + ") == "x+" && RemoveBlanks("x - ") == "x-"
  {
    assert "x "[1..] == " " && " -"[1..] == "-" && " "[1..] == "";
    assert "x + "[1..] == " + " && " + "[1..] == "+ " && "+ "[1..] == " ";
    assert "x - "[1..] == " - " && " - "[1..] == "- " && "- "[1..] == " ";
  }

  /** `" " + str(n)` spells the constant `n`. */
  lemma ConstantSpelled(n: int)
    ensures Spells(" " + IntText(n), [Constant(n)], 'x')
  {
    hide Spells, RemoveBlanks, Decimal, Numeral.Print, Numeral.Value;
    Literals();
    var m: nat := if n < 0 then -n else n;
    WholeValue(m);
    if n < 0 {
      BlanksAway(" -", Decimal(m), "");
      assert " -" + Decimal(m) + "" == " " + IntText(n);
    } else {
      BlanksAway(" ", Decimal(m), "");
      assert " " + Decimal(m) + "" == " " + IntText(n);
    }
    SpellsOne(" " + IntText(n), Constant(n), 'x');
  }

  lemma LeftSpelled(kind: Kind, p: Pick)
    requires InRange(kind, p)
    ensures Spells(EquationText(kind, p).0, LeftTerms(kind, p), 'x')
  {
    hide Spells, RemoveBlanks, Decimal, Numeral.Print, Numeral.Value;
    WholeValue(p.a);
    WholeValue(p.b);
    var a, b := Decimal(p.a), Decimal(p.b);
    Literals();
    match kind {
      case SingleStep =>
        BlanksAway("x + ", a, " ");
        SpellsTwo("x + " + a + " ", X, Constant(p.a), 'x');
      case Consolidation =>
        BlanksAway("", a, "x ");
        assert "" + a + "x " == a + "x ";
        SpellsOne(a + "x ", Multiple(p.a), 'x');
      case MultiStep =>
        MultiSpelled(p, if p.plus then "x + " else "x - ");
    }
  }

  lemma MultiSpelled(p: Pick, mid: string)
    requires InRange(MultiStep, p) && mid == if p.plus then "x + " else "x - "
    ensures Spells(Decimal(p.a) + mid + Decimal(p.b) + " ", LeftTerms(MultiStep, p), 'x')
  {
    hide Spells, RemoveBlanks, Decimal, Numeral.Print, Numeral.Value;
    WholeValue(p.a);
    WholeValue(p.b);
    var a, b := Decimal(p.a), Decimal(p.b);
    BlanksAway(mid, b, " ");
    BlanksAway("", a, mid + b + " ");
    var text := a + mid + b + " ";
    assert text == "" + a + (mid + b + " ");
    Literals();
    SpellsTwo(text, Multiple(p.a), if p.plus then Constant(p.b) else Constant(-(p.b as int)), 'x');
  }

  lemma SingleValue(t: Term, v: real)
    requires t.Valid()
    ensures ValueAt([t], v) == t.ValueAt(v)
    ensures CoeffOf([t]) == if t.hasVar then t.Factor() else 0.0
  {
    hide Term.Factor, Term.ValueAt;
    assert [t][1..] == [];
  }

  lemma TwoTermValue(t: Term, k: int, v: real)
    requires t.Valid()
    ensures ValidSum([t, Constant(k)])
    ensures ValueAt([t, Constant(k)], v) == t.ValueAt(v) + k as real
    ensures CoeffOf([t, Constant(k)]) == if t.hasVar then t.Factor() else 0.0
  {
    hide Term.Factor, Term.ValueAt, ValueAt, CoeffOf, Constant;
    SingleValue(t, v);
    ConstantIsConstant(k, v);
    ValueAppend([t], Constant(k), v);
    assert [t] + [Constant(k)] == [t, Constant(k)];
  }

  lemma VariableTerms(a: nat, x: nat)
    ensures X.Valid() && X.hasVar && X.Factor() == 1.0 && X.ValueAt(x as real) == x as real
    ensures Multiple(a).Valid() && Multiple(a).hasVar && Multiple(a).Factor() == a as real
    ensures Multiple(a).ValueAt(x as real) == (a * x) as real
  {
    hide Term.Factor;
    FactorsOf(a);
    ProductOfWholes(a, x);
  }

  lemma ProductOfWholes(a: nat, x: nat)
    ensures (a as real) * (x as real) == (a * x) as real
  {}

  lemma LeftSideValue(kind: Kind, p: Pick)
    requires InRange(kind, p)
    ensures ValidSum(LeftTerms(kind, p))
    ensures ValueAt(LeftTerms(kind, p), p.answer as real) == RightHandSide(kind, p) as real
    ensures CoeffOf(LeftTerms(kind, p)) >= 1.0
  {
    hide Term.Factor, Term.ValueAt, ValueAt, CoeffOf, Constant, Multiple, Term.Valid;
    var v := p.answer as real;
    VariableTerms(p.a, p.answer);
    match kind {
      case SingleStep =>
        TwoTermValue(X, p.a, v);
      case Consolidation =>
        SingleValue(Multiple(p.a), v);
      case MultiStep =>
        TwoTermValue(Multiple(p.a), if p.plus then p.b else -(p.b as int), v);
    }
  }

  /** Both sides of the generated equation have the same value at the drawn answer. */
  lemma AnswerBalances(kind: Kind, p: Pick)
    requires InRange(kind, p)
    ensures ValidSum(LeftTerms(kind, p)) && ValidSum([Constant(RightHandSide(kind, p))])
    ensures Solves(LeftTerms(kind, p), [Constant(RightHandSide(kind, p))], p.answer as real)
    ensures CoeffOf(LeftTerms(kind, p)) - CoeffOf([Constant(RightHandSide(kind, p))]) >= 1.0
  {
    hide Term.Factor, Term.ValueAt, ValueAt, CoeffOf, Constant, Term.Valid, LeftTerms, RightHandSide;
    var v, c := p.answer as real, RightHandSide(kind, p);
    LeftSideValue(kind, p);
    ConstantIsConstant(c, v);
    SingleValue(Constant(c), v);
  }

  lemma ConstantIsConstant(n: int, v: real)
    ensures Constant(n).Valid() && Constant(n).ValueAt(v) == n as real && !Constant(n).hasVar
  {
    ConstantValue(n);
  }

  lemma FactorsOf(a: nat)
    ensures Multiple(a).Valid() && Multiple(a).Factor() == a as real && Multiple(a).hasVar
    ensures X.Valid() && X.Factor() == 1.0
  {
    WholeValue(a);
  }

  /**
   Every generated problem is solved by its own expected answer: the parser finds exactly that
   solution, the substitution check accepts it, and the printed answer is equivalent to the problem.
   */
  lemma GeneratedProblemIsSolved(difficulty: real, tiers: seq<Tier>, p: Pick)
    requires tiers != [] && InRange(KindOf(SelectTier(difficulty, tiers).equationType), p)
    ensures var problem := GenerateProblem(difficulty, tiers, p);
            && ExpectedSolution(problem.equation, "x") == Parsed(Some(p.answer as real))
            && CheckSubstitution(problem.equation, "x", p.answer as real) == Parsed(true)
            && CheckEquivalence(problem.equation, problem.expectedAnswer, "x") == Parsed(true)
  {
    hide Spells, CoeffOf, ConstOf, ValueAt, ParseLinearEquation;
    var kind := KindOf(SelectTier(difficulty, tiers).equationType);
    var (l, r) := EquationText(kind, p);
    var ls, rs := LeftTerms(kind, p), [Constant(RightHandSide(kind, p))];
    LeftSpelled(kind, p);
    ConstantSpelled(RightHandSide(kind, p));
    assert r == " " + IntText(RightHandSide(kind, p));
    AnswerBalances(kind, p);
    SolvedAt(l, r, ls, rs, p.answer as real);
    AnswerText(p.answer);
    var e := ParseLinearEquation(l + "=" + r, "x").value;
    var f := ParseLinearEquation("x " + "=" + (" " + Decimal(p.answer)), "x").value;
    assert SolveLinear(e) == SolveLinear(f) == Some(p.answer as real);
  }

  /**
   The kind of equation is that of the tier: one step has the bare variable, a consolidation a multiple of it
   and nothing else, and only the last kind takes two steps.
   */
  lemma EquationMatchesType(difficulty: real, tiers: seq<Tier>, p: Pick)
    requires tiers != [] && 2 <= p.a <= 8 && 1 <= p.b <= 15 && 1 <= p.answer <= 12
    ensures var problem, tier := GenerateProblem(difficulty, tiers, p), SelectTier(difficulty, tiers);
      var e := ParseLinearEquation(problem.equation, "x");
      && e.Parsed?
      && problem.equationType == tier.equationType && problem.difficultyTier == tier.id
      && problem.targetVariable == "x" && problem.status == "in_progress"
      && (tier.equationType == "variable_consolidation" ==> e.value.a == p.a as real && problem.minSteps == 1)
      && (tier.equationType == "multi_step_linear" ==> e.value.a == p.a as real && problem.minSteps == 2)
      && (tier.equationType != "variable_consolidation" && tier.equationType != "multi_step_linear" ==>
            e.value.a == 1.0 && problem.minSteps == 1)
  {
    hide Spells, ConstOf, ValueAt, ParseLinearEquation, Term.Factor, Constant, Multiple;
    var kind := KindOf(SelectTier(difficulty, tiers).equationType);
    var (l, r) := EquationText(kind, p);
    var ls, rs := LeftTerms(kind, p), [Constant(RightHandSide(kind, p))];
    LeftSpelled(kind, p);
    ConstantSpelled(RightHandSide(kind, p));
    assert r == " " + IntText(RightHandSide(kind, p));
    AnswerBalances(kind, p);
    assert ['x'] == "x";
    ParseSpelledEquation(l, r, ls, rs, 'x');
    CoefficientsOf(kind, p);
  }

  lemma CoefficientsOf(kind: Kind, p: Pick)
    requires InRange(kind, p)
    ensures CoeffOf(LeftTerms(kind, p)) == if kind.SingleStep? then 1.0 else p.a as real
    ensures CoeffOf([Constant(RightHandSide(kind, p))]) == 0.0
  {
    hide Term.Factor, Constant, Multiple, Term.Valid;
    FactorsOf(p.a);
    LastConstant(RightHandSide(kind, p));
    match kind {
      case SingleStep => Leading(X, p.a);
      case Consolidation => assert [Multiple(p.a)][1..] == [];
      case MultiStep => Leading(Multiple(p.a), if p.plus then p.b else -(p.b as int));
    }
  }

  lemma LastConstant(n: int)
    ensures ValidSum([Constant(n)]) && CoeffOf([Constant(n)]) == 0.0
  {
    hide Term.Factor, Constant, Term.Valid;
    ConstantIsConstant(n, 0.0);
    assert [Constant(n)][1..] == [];
  }

  lemma Leading(t: Term, n: int)
    requires t.Valid() && t.hasVar
    ensures ValidSum([t, Constant(n)]) && CoeffOf([t, Constant(n)]) == t.Factor()
  {
    hide Term.Factor, Constant, Term.Valid;
    LastConstant(n);
    ConstantIsConstant(n, 0.0);
    assert [t, Constant(n)][1..] == [Constant(n)];
  }

  lemma SolvedAt(l: string, r: string, ls: Sum, rs: Sum, v: real)
    requires ValidSum(ls) && ValidSum(rs) && Spells(l, ls, 'x') && Spells(r, rs, 'x')
    requires CoeffOf(ls) - CoeffOf(rs) >= 1.0 && Solves(ls, rs, v)
    ensures var p := ParseLinearEquation(l + "=" + r, "x");
            p.Parsed? && SolveLinear(p.value) == Some(v)
    ensures CheckSubstitution(l + "=" + r, "x", v) == Parsed(true)
  {
    hide Spells, CoeffOf, ConstOf, ParseLinearEquation;
    assert ['x'] == "x";
    ParseSpelledEquation(l, r, ls, rs, 'x');
    SolverIsSound(ls, rs, v);
    SubstitutionMeansEqualSides(l, r, ls, rs, 'x', v);
  }

  /** `f"x = {answer}"` is itself an equation whose solution is the answer. */
  lemma AnswerText(answer: nat)
    ensures var p := ParseLinearEquation("x " + "=" + (" " + Decimal(answer)), "x");
            p.Parsed? && SolveLinear(p.value) == Some(answer as real)
  {
    hide Spells, Term.Factor, Term.ValueAt, Term.Valid, ValueAt, CoeffOf, ParseLinearEquation, Constant;
    var v := answer as real;
    Literals();
    VariableTerms(0, answer);
    SingleValue(X, v);
    ConstantIsConstant(answer, v);
    SingleValue(Constant(answer), v);
    assert OnlyBlanks("x ");
    SpellsOne("x ", X, 'x');
    ConstantSpelled(answer);
    SolvedAt("x ", " " + Decimal(answer), [X], [Constant(answer)], v);
  }
}
