/**
 What happens to the task after a learning turn
 (model-packs/education/controllers/education_post_turn.py), and why the three places that choose a
 tier always agree: the initial fluency state, the midpoint written on an advance, and `select_tier`.
 */
module PostTurn {
  import opened Text
  import opened AlgebraTools
  import opened ProblemGenerator
  import opened Fluency
  import LearningState

  /** The fields of `current_task` that the hook reads or writes; an absent flag is false. */
  datatype Task = Task(problem: Problem, solved: bool, completed: bool)

  /** The random draws of one turn: some pick in range for each kind of equation. */
  type Draw = Kind -> Pick

  ghost predicate ValidDraw(draw: Draw) {
    forall kind :: InRange(kind, draw(kind))
  }

  function Generate(nominal: real, tiers: seq<Tier>, draw: Draw): Problem
    requires tiers != []
  {
    GenerateProblem(nominal, tiers, draw(KindOf(SelectTier(nominal, tiers).equationType)))
  }

  /** `tier_objs.get(next_tier, tiers[-1])`: among equal ids the last entry of the list wins. */
  function TargetTier(tiers: seq<Tier>, id: string): (t: Tier)
    requires tiers != []
    ensures t in tiers
    ensures (exists u | u in tiers :: u.id == id) ==> t.id == id
  {
    LastTierOr(tiers, id, tiers[|tiers| - 1])
  }

  function LastTierOr(tiers: seq<Tier>, id: string, default: Tier): (t: Tier)
    ensures t in tiers || t == default
    ensures (exists u | u in tiers :: u.id == id) ==> t in tiers && t.id == id
    ensures (forall u | u in tiers :: u.id != id) ==> t == default
  {
    if tiers == [] then default
    else
      var n := |tiers| - 1;
      if tiers[n].id == id then tiers[n]
      else
        assert forall u | u in tiers && u.id == id :: u in tiers[..n];
        LastTierOr(tiers[..n], id, default)
  }

  /** A cached learning session: `task_spec["nominal_difficulty"]`, `current_task` and the retry counters. */
  class Session {
    var nominal: real
    var task: Task
    var attempts: map<string, nat>
    var fluency: FluencyState
    const tiers: seq<Tier>
    const params: Params
    /** Whether a `generate_problem` tool is registered. */
    const generator: bool

    /** A fresh session: nothing saved, so the fluency state follows the nominal difficulty. */
    constructor (nominal: real, task: Task, tiers: seq<Tier>, params: Params, generator: bool)
      ensures this.tiers == tiers && this.params == params && this.generator == generator
      ensures this.nominal == nominal && this.task == task && this.attempts == map[]
      ensures tiers != [] ==> Aligned(nominal, this.fluency, tiers)
    {
      this.nominal, this.task, this.attempts := nominal, task, map[];
      this.tiers, this.params, this.generator := tiers, params, generator;
      this.fluency := Initial(nominal, tiers, params.progression);
    }

    /** `education_post_turn`; a generator that raises does so after the nominal difficulty was written. */
    method PostTurn(d: Decision, problemSolved: bool, reportedStatus: string, action: string, draw: Draw, raises: bool)
      returns (resolved: string, newTask: bool)
      modifies this`nominal, this`task, this`attempts
      ensures resolved == if problemSolved then "task_complete" else action
      ensures newTask <==> (d.Advanced() || problemSolved) && tiers != [] && generator && !raises
      ensures nominal == NextNominal(old(nominal), d, tiers, generator)
      ensures newTask ==> attempts == map[] && task.problem == Generate(nominal, tiers, draw) && !task.solved
      ensures !newTask ==>
        && attempts == old(attempts)
        && task.solved == (problemSolved || old(task.solved))
        && task.completed == (problemSolved || old(task.completed))
        && task.problem == if Strip(reportedStatus) != "" then old(task.problem).(status := Strip(reportedStatus))
                           else old(task.problem)
    {
      resolved, newTask := action, false;
      if problemSolved {
        resolved := "task_complete";
        task := task.(solved := true, completed := true);
      }
      if Strip(reportedStatus) != "" {
        task := task.(problem := task.problem.(status := Strip(reportedStatus)));
      }
      if d.Advanced() || problemSolved {
        if tiers != [] && generator {
          if d.Advanced() {
            nominal := TargetTier(tiers, d.nextTier.value).Midpoint();
          }
          if !raises {
            task := Task(Generate(nominal, tiers, draw), false, false);
            newTask := true;
          }
        }
      }
      if newTask {
        attempts := map[];
      }
    }

    /**
     A whole learning turn: the fluency step and then the hook. An aligned session stays aligned,
     and a problem handed out carries the current tier and is solved by its own expected answer.
     */
    method Turn(e: Evidence, problemSolved: bool, reportedStatus: string, draw: Draw, raises: bool)
      returns (newTask: bool)
      requires ValidTiers(tiers) && ProgressionOf(params.progression, tiers) && generator && ValidDraw(draw)
      requires Aligned(nominal, fluency, tiers)
      modifies this
      ensures fluency == Step(old(fluency), e, params).0
      ensures newTask <==> (problemSolved || Step(old(fluency), e, params).1.Advanced()) && !raises
      ensures nominal == NextNominal(old(nominal), Step(old(fluency), e, params).1, tiers, generator)
      ensures Aligned(nominal, fluency, tiers)
      ensures newTask ==> task.problem.difficultyTier == fluency.currentTier && SolvedByAnswer(task.problem)
    {
      AlignmentKept(nominal, fluency, e, params, tiers, generator);
      var (next, d) := Step(fluency, e, params);
      fluency := next;
      var action;
      action, newTask := PostTurn(d, problemSolved, reportedStatus, "none", draw, raises);
      if newTask {
        GeneratedCarriesTier(nominal, tiers, draw);
      }
    }
  }

  /** `nominal_difficulty` selects the fluency monitor's current tier. */
  predicate Aligned(nominal: real, fluency: FluencyState, tiers: seq<Tier>) {
    tiers != [] && SelectTier(nominal, tiers).id == fluency.currentTier
  }

  /** Distinct entries, each the id of a tier. */
  ghost predicate ProgressionOf(progression: seq<string>, tiers: seq<Tier>) {
    Distinct(progression) && forall id | id in progression :: exists t | t in tiers :: t.id == id
  }

  /** The printed equation has one root under the parser, and it is the one that is announced. */
  ghost predicate SolvedByAnswer(p: Problem) {
    exists n: nat ::
      && p.expectedAnswer == "x " + "=" + (" " + Decimal(n))
      && ExpectedSolution(p.equation, "x") == Parsed(Some(n as real))
      && CheckSubstitution(p.equation, "x", n as real) == Parsed(true)
  }

  function NextNominal(nominal: real, d: Decision, tiers: seq<Tier>, generator: bool): real {
    if d.Advanced() && tiers != [] && generator then TargetTier(tiers, d.nextTier.value).Midpoint() else nominal
  }

  /**
   One turn keeps the alignment exactly when the generator is registered or nothing advanced: the
   hook only moves the nominal difficulty next to a generator call.
   */
  lemma AlignmentKept(nominal: real, s: FluencyState, e: Evidence, p: Params, tiers: seq<Tier>, generator: bool)
    requires ValidTiers(tiers) && ProgressionOf(p.progression, tiers) && Aligned(nominal, s, tiers)
    ensures var (s', d) := Step(s, e, p);
            Aligned(NextNominal(nominal, d, tiers, generator), s', tiers) <==> generator || !d.Advanced()
  {
    hide Step, SelectTier, ValidTiers;
    StepEffect(s, e, p);
    NextTierIsCurrent(s, e, p);
    var (s', d) := Step(s, e, p);
    if d.Advanced() {
      assert d.nextTier.value in p.progression;
      TargetSelected(tiers, d.nextTier.value);
    }
  }

  /** Whatever the state was before, an advance next to a registered generator restores the alignment. */
  lemma AdvanceRealigns(nominal: real, s: FluencyState, e: Evidence, p: Params, tiers: seq<Tier>)
    requires ValidTiers(tiers) && ProgressionOf(p.progression, tiers) && Step(s, e, p).1.Advanced()
    ensures var (s', d) := Step(s, e, p);
            Aligned(NextNominal(nominal, d, tiers, true), s', tiers)
  {
    hide Step, SelectTier, ValidTiers;
    StepEffect(s, e, p);
    NextTierIsCurrent(s, e, p);
    TargetSelected(tiers, Step(s, e, p).1.nextTier.value);
    NonEmpty(tiers);
  }

  lemma NextTierIsCurrent(s: FluencyState, e: Evidence, p: Params)
    ensures var (s', d) := Step(s, e, p);
            if d.Advanced() then d.nextTier == Some(s'.currentTier) else s'.currentTier == s.currentTier
  {}

  lemma TargetSelected(tiers: seq<Tier>, id: string)
    requires ValidTiers(tiers) && exists t | t in tiers :: t.id == id
    ensures SelectTier(TargetTier(tiers, id).Midpoint(), tiers).id == id
  {
    hide SelectTier;
    MidpointSelects(TargetTier(tiers, id), tiers);
  }

  lemma GeneratedCarriesTier(nominal: real, tiers: seq<Tier>, draw: Draw)
    requires tiers != [] && ValidDraw(draw)
    ensures Generate(nominal, tiers, draw).difficultyTier == SelectTier(nominal, tiers).id
    ensures SolvedByAnswer(Generate(nominal, tiers, draw))
  {
    hide ExpectedSolution, CheckSubstitution, SelectTier, EquationText;
    var p := draw(KindOf(SelectTier(nominal, tiers).equationType));
    GeneratedProblemIsSolved(nominal, tiers, p);
  }

  // ---------------------------------------------------------------- whole runs

  datatype Learner = Learner(nominal: real, fluency: FluencyState)

  function AfterTurns(l: Learner, es: seq<Evidence>, p: Params, tiers: seq<Tier>): Learner {
    if es == [] then l
    else
      var before := AfterTurns(l, es[..|es| - 1], p, tiers);
      var (fluency, d) := Step(before.fluency, es[|es| - 1], p);
      Learner(NextNominal(before.nominal, d, tiers, true), fluency)
  }

  /** A fresh session is aligned, whatever its nominal difficulty, and stays so over every run. */
  lemma {:induction false} AlwaysAligned(nominal: real, es: seq<Evidence>, p: Params, tiers: seq<Tier>)
    requires ValidTiers(tiers) && ProgressionOf(p.progression, tiers)
    ensures var l := AfterTurns(Learner(nominal, Initial(nominal, tiers, p.progression)), es, p, tiers);
            Aligned(l.nominal, l.fluency, tiers)
  {
    hide Step, ValidTiers, ProgressionOf, NextNominal, SelectTier;
    if es == [] {
      NonEmpty(tiers);
    } else {
      AlwaysAligned(nominal, es[..|es| - 1], p, tiers);
      var l := AfterTurns(Learner(nominal, Initial(nominal, tiers, p.progression)), es[..|es| - 1], p, tiers);
      AlignmentKept(l.nominal, l.fluency, es[|es| - 1], p, tiers, true);
    }
  }

  lemma NonEmpty(tiers: seq<Tier>)
    requires ValidTiers(tiers)
    ensures tiers != []
  {}

  /**
   From any learner, restored or fresh: after any run the nominal difficulty selects the current tier if
   and only if it did at the start or some turn advanced.
   */
  lemma {:induction false} AlignedIff(l: Learner, es: seq<Evidence>, p: Params, tiers: seq<Tier>)
    requires ValidTiers(tiers) && ProgressionOf(p.progression, tiers)
    ensures var after := AfterTurns(l, es, p, tiers);
      && after.fluency == After(l.fluency, es, p)
      && (Aligned(after.nominal, after.fluency, tiers) <==>
            Aligned(l.nominal, l.fluency, tiers) || Advances(l.fluency, es, p) > 0)
  {
    hide Step, ValidTiers, ProgressionOf, SelectTier;
    if es != [] {
      var front, e := es[..|es| - 1], es[|es| - 1];
      AlignedIff(l, front, p, tiers);
      var before := AfterTurns(l, front, p, tiers);
      if Step(before.fluency, e, p).1.Advanced() {
        AdvanceRealigns(before.nominal, before.fluency, e, p, tiers);
      } else {
        NextTierIsCurrent(before.fluency, e, p);
      }
    }
  }

  /** So a problem handed out after the run carries the current tier under the same condition. */
  lemma ProblemCarriesTierIff(l: Learner, es: seq<Evidence>, p: Params, tiers: seq<Tier>, draw: Draw)
    requires ValidTiers(tiers) && ProgressionOf(p.progression, tiers) && ValidDraw(draw)
    ensures tiers != []
    ensures var after := AfterTurns(l, es, p, tiers);
      Generate(after.nominal, tiers, draw).difficultyTier == after.fluency.currentTier <==>
        SelectTier(l.nominal, tiers).id == l.fluency.currentTier || Advances(l.fluency, es, p) > 0
  {
    hide ValidTiers, ProgressionOf, SelectTier, AfterTurns, Generate;
    NonEmpty(tiers);
    AlignedIff(l, es, p, tiers);
    GeneratedCarriesTier(AfterTurns(l, es, p, tiers).nominal, tiers, draw);
  }

  /**
   A session rebuilt from a stored fluency state: the saved tier is taken over whatever the nominal
   difficulty, so problems carry it from the start only if that difficulty selects it, and otherwise from
   the first advance on.
   */
  lemma RestoredSessionAligned(doc: LearningState.Doc, setup: LearningState.Setup, es: seq<Evidence>, p: Params,
                               draw: Draw)
    requires doc.fluency.Some? && doc.fluency.value != LearningState.FluencyDoc(None, None)
    requires ValidTiers(setup.tiers) && ProgressionOf(p.progression, setup.tiers) && ValidDraw(draw)
    ensures setup.tiers != []
    ensures var saved := LearningState.Or(doc.fluency.value.currentTier, "tier_1");
      var l := Learner(setup.nominal, LearningState.Build(Some(doc), setup).fluency);
      var after := AfterTurns(l, es, p, setup.tiers);
      Generate(after.nominal, setup.tiers, draw).difficultyTier == after.fluency.currentTier <==>
        SelectTier(setup.nominal, setup.tiers).id == saved || Advances(l.fluency, es, p) > 0
  {
    hide ValidTiers, ProgressionOf, SelectTier, AfterTurns, Generate;
    var l := Learner(setup.nominal, LearningState.Build(Some(doc), setup).fluency);
    NonEmpty(setup.tiers);
    ProblemCarriesTierIff(l, es, p, setup.tiers, draw);
  }

  /** The first session in a module, built from its initial state without a fluency state, is aligned over every run. */
  lemma FirstSessionAligned(setup: LearningState.Setup, es: seq<Evidence>, p: Params, draw: Draw)
    requires setup.initial.Some? && setup.initial.value != LearningState.EMPTY_DOC
    requires setup.initial.value.fluency.None?
    requires setup.progression != [] && ValidTiers(setup.tiers)
    requires ProgressionOf(p.progression, setup.tiers) && ValidDraw(draw)
    ensures setup.tiers != []
    ensures var l := Learner(setup.nominal, LearningState.Build(None, setup).fluency);
      var after := AfterTurns(l, es, p, setup.tiers);
      && l.fluency.consecutiveCorrect == 0
      && Aligned(after.nominal, after.fluency, setup.tiers)
      && Generate(after.nominal, setup.tiers, draw).difficultyTier == after.fluency.currentTier
  {
    hide ValidTiers, ProgressionOf, SelectTier, AfterTurns, Generate;
    NonEmpty(setup.tiers);
    var l := Learner(setup.nominal, LearningState.Build(None, setup).fluency);
    AlignedIff(l, es, p, setup.tiers);
    ProblemCarriesTierIff(l, es, p, setup.tiers, draw);
  }

  const LOW := Tier("tier_1", Some(0.0), Some(0.5), "single_step_isolation")
  const HIGH := Tier("tier_2", Some(0.5), Some(1.0), "multi_step_linear")
  const TWO_TIERS := [LOW, HIGH]
  const TWO_IDS := ["tier_1", "tier_2"]

  lemma TwoTiersAreValid()
    ensures ValidTiers(TWO_TIERS) && SelectTier(0.25, TWO_TIERS) == LOW
  {
    forall t | t in TWO_TIERS ensures t.Lo() < t.Hi() {
      assert t == LOW || t == HIGH;
    }
  }

  lemma TwoIdsAreProgression()
    ensures ProgressionOf(TWO_IDS, TWO_TIERS)
  {
    assert TWO_TIERS[0] == LOW && TWO_TIERS[1] == HIGH;
    assert LOW in TWO_TIERS && HIGH in TWO_TIERS;
    assert "tier_1"[5] != "tier_2"[5];
  }

  /** Two tiers, a learner who saved the second, and a session that starts at the difficulty of the first. */
  lemma RestoredMayBeMisaligned(draw: Draw)
    requires ValidDraw(draw)
    ensures var doc := LearningState.EMPTY_DOC.(fluency := Some(LearningState.FluencyDoc(Some("tier_2"), Some(0))));
      var setup := LearningState.Setup(LearningState.EMPTY_DOC, None, TWO_TIERS, TWO_IDS, 0.25);
      && ValidTiers(setup.tiers) && ProgressionOf(setup.progression, setup.tiers)
      && LearningState.Build(Some(doc), setup).fluency.currentTier == "tier_2"
      && Generate(setup.nominal, setup.tiers, draw).difficultyTier == "tier_1"
  {
    hide Generate, SelectTier, ValidTiers, ProgressionOf;
    TwoTiersAreValid();
    TwoIdsAreProgression();
    GeneratedCarriesTier(0.25, TWO_TIERS, draw);
  }
}
