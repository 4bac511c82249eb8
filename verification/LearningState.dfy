/**
 The composite learning state: building it from a stored document, stepping it, and storing it again
 (model-packs/education/controllers/learning_adapters.py and education_profile_serializer.py).
 Storing loses the solve times; no decision of any later turn can tell.
 */
module LearningState {
  import opened Text
  import opened ZpdMonitor
  import Fluency
  import ProblemGenerator

  /** A `LearningState` with its attached fluency state. */
  datatype State = State(zpd: Zpd, fluency: Fluency.FluencyState)

  datatype StepParams = StepParams(zpd: ZpdMonitor.Params, fluency: Fluency.Params, driftWindowTurns: int)

  /** The merged decision; `escalationSuppressed` is `escalation_eligible == False`. */
  datatype Merged = Merged(zpd: ZpdMonitor.Decision, fluency: Fluency.Decision, action: Option<string>,
                           escalationSuppressed: bool)

  function ZpdAction(tier: Tier): Option<string> {
    match tier
    case Ok => None
    case Minor => Some("zpd_scaffold")
    case Major => Some("zpd_intervene_or_escalate")
  }

  function FluencyAction(action: Option<Fluency.Action>): Option<string> {
    match action
    case None => None
    case Some(AdvanceTier) => Some("advance_tier")
    case Some(TriggerTargetedHint) => Some("trigger_targeted_hint")
  }

  /** `solve_elapsed_sec`, else `response_latency_sec`, else zero. */
  function FluencyEvidence(e: Evidence): Fluency.Evidence {
    Fluency.Evidence(e.correctness.Correct?,
                     if e.solveElapsed.Some? then e.solveElapsed.value
                     else if e.latency.Some? then e.latency.value else 0.0)
  }

  /** `domain_step` */
  function DomainStep(s: State, task: TaskSpec, e: Evidence, p: StepParams): (r: (State, Merged))
    ensures ValidZpd(s.zpd) ==> ValidZpd(r.0.zpd)
  {
    var (zpd, zd) := ZpdMonitor.Step(s.zpd, task, e, p.zpd);
    var (fluency, fd) := Fluency.Step(s.fluency, FluencyEvidence(e), p.fluency);
    var action := if ZpdAction(zd.tier).Some? then ZpdAction(zd.tier) else FluencyAction(fd.action);
    (State(zpd, fluency), Merged(zd, fd, action, zd.windowTurnsFilled < p.driftWindowTurns))
  }

  // ---------------------------------------------------------------- stored documents

  datatype AffectDoc = AffectDoc(salience: Option<real>, valence: Option<real>, arousal: Option<real>)

  datatype BandDoc = BandDoc(minChallenge: Option<real>, maxChallenge: Option<real>)

  datatype WindowDoc = WindowDoc(
    windowTurns: Option<int>, attempts: Option<int>, consecutiveIncorrect: Option<int>, hintCount: Option<int>,
    outsidePct: Option<real>, consecutiveOutside: Option<int>, outsideFlags: Option<seq<bool>>,
    hintFlags: Option<seq<bool>>)

  datatype FluencyDoc = FluencyDoc(currentTier: Option<string>, consecutiveCorrect: Option<int>)

  /** A stored `learning_state` dictionary: any key may be missing. */
  datatype Doc = Doc(affect: Option<AffectDoc>, mastery: Option<map<string, real>>, band: Option<BandDoc>,
                     window: Option<WindowDoc>, challenge: Option<real>, uncertainty: Option<real>,
                     fluency: Option<FluencyDoc>)

  const EMPTY_DOC := Doc(None, None, None, None, None, None, None)

  /** `d.get(key, default)` */
  function Or<T>(o: Option<T>, default: T): T {
    if o.Some? then o.value else default
  }

  /** Everything `build_initial_learning_state` is given beside the module's own stored state. */
  datatype Setup = Setup(profile: Doc, initial: Option<Doc>, tiers: seq<ProblemGenerator.Tier>,
                         progression: seq<string>, nominal: real)

  /** An empty dictionary counts as absent. */
  function Source(module_: Option<Doc>, setup: Setup): Doc {
    if module_.Some? && module_.value != EMPTY_DOC then module_.value
    else if setup.initial.Some? && setup.initial.value != EMPTY_DOC then setup.initial.value
    else setup.profile
  }

  function ClampMastery(m: map<string, real>): (r: map<string, real>)
    ensures ValidMastery(r)
    ensures ValidMastery(m) ==> r == m
  {
    map k | k in m :: Clamp(m[k], 0.0, 1.0)
  }

  /** `build_initial_learning_state` */
  function Build(module_: Option<Doc>, setup: Setup): (s: State)
    ensures ValidZpd(s.zpd)
  {
    var d := Source(module_, setup);
    var a := Or(d.affect, AffectDoc(None, None, None));
    var b := Or(d.band, BandDoc(None, None));
    var w := Or(d.window, WindowDoc(None, None, None, None, None, None, None, None));
    var zpd := Zpd(
      ClampedAffect(Or(a.salience, 0.7), Or(a.valence, 0.0), Or(a.arousal, 0.5)),
      ClampMastery(Or(d.mastery, map[])),
      Band(Or(b.minChallenge, 0.3), Or(b.maxChallenge, 0.7)),
      Window(Or(w.windowTurns, 10), Or(w.attempts, 0), Or(w.consecutiveIncorrect, 0), Or(w.hintCount, 0),
             Or(w.outsidePct, 0.0), Or(w.consecutiveOutside, 0), Or(w.outsideFlags, []), Or(w.hintFlags, [])),
      Clamp(Or(d.challenge, 0.5), 0.0, 1.0),
      Clamp(Or(d.uncertainty, 0.5), 0.0, 1.0));
    State(zpd, BuildFluency(d.fluency, setup))
  }

  function BuildFluency(saved: Option<FluencyDoc>, setup: Setup): Fluency.FluencyState {
    if saved.Some? && saved.value != FluencyDoc(None, None) then
      Fluency.FluencyState(Or(saved.value.consecutiveCorrect, 0), Or(saved.value.currentTier, "tier_1"), [])
    else if setup.tiers != [] && setup.progression != [] then
      Fluency.Initial(setup.nominal, setup.tiers, setup.progression)
    else Fluency.FluencyState(0, "tier_1", [])
  }

  /** The module state written by `education_serialize_profile`. */
  function Save(s: State): Doc {
    var z, w := s.zpd, s.zpd.window;
    Doc(Some(AffectDoc(Some(z.affect.salience), Some(z.affect.valence), Some(z.affect.arousal))),
        Some(z.mastery),
        Some(BandDoc(Some(z.band.min), Some(z.band.max))),
        Some(WindowDoc(Some(w.windowTurns), Some(w.attempts), Some(w.consecutiveIncorrect), Some(w.hintCount),
                       Some(w.outsidePct), Some(w.consecutiveOutside), Some(w.outsideFlags), Some(w.hintFlags))),
        Some(z.challenge), Some(z.uncertainty),
        Some(FluencyDoc(Some(s.fluency.currentTier), Some(s.fluency.consecutiveCorrect))))
  }

  function Restart(s: State, setup: Setup): State {
    Build(Some(Save(s)), setup)
  }

  /** Restoring a stored state gives it back without its solve times, whatever else is configured. */
  lemma RestartForgetsOnlyTimes(s: State, setup: Setup)
    requires ValidZpd(s.zpd)
    ensures Restart(s, setup) == s.(fluency := s.fluency.(solveTimes := []))
  {}

  // ---------------------------------------------------------------- restarts cannot be observed

  /** Equal up to the solve times. */
  predicate Alike(s: State, t: State) {
    s.zpd == t.zpd && s.fluency.(solveTimes := []) == t.fluency.(solveTimes := [])
  }

  /** One turn of a run, and whether the process restarts just before it. */
  datatype Input = Input(task: TaskSpec, evidence: Evidence, restart: Option<Setup>)

  /** The run of one process: restarts are ignored. */
  function Run(s: State, inputs: seq<Input>, p: StepParams): (State, seq<Merged>)
    decreases |inputs|
  {
    if inputs == [] then (s, [])
    else
      var (s', d) := DomainStep(s, inputs[0].task, inputs[0].evidence, p);
      var (end, ds) := Run(s', inputs[1..], p);
      (end, [d] + ds)
  }

  /** The same run, saved and rebuilt at every marked turn. */
  function RunWithRestarts(s: State, inputs: seq<Input>, p: StepParams): (State, seq<Merged>)
    decreases |inputs|
  {
    if inputs == [] then (s, [])
    else
      var here := if inputs[0].restart.Some? then Restart(s, inputs[0].restart.value) else s;
      var (s', d) := DomainStep(here, inputs[0].task, inputs[0].evidence, p);
      var (end, ds) := RunWithRestarts(s', inputs[1..], p);
      (end, [d] + ds)
  }

  lemma StepRespectsAlike(s: State, t: State, task: TaskSpec, e: Evidence, p: StepParams)
    requires Alike(s, t)
    ensures DomainStep(s, task, e, p).1 == DomainStep(t, task, e, p).1
    ensures Alike(DomainStep(s, task, e, p).0, DomainStep(t, task, e, p).0)
  {
    hide ZpdMonitor.Step;
  }

  lemma {:induction false} RestartsPreserveAlike(s: State, t: State, inputs: seq<Input>, p: StepParams)
    requires ValidZpd(s.zpd) && Alike(s, t)
    ensures Run(s, inputs, p).1 == RunWithRestarts(t, inputs, p).1
    ensures Alike(Run(s, inputs, p).0, RunWithRestarts(t, inputs, p).0)
    decreases |inputs|
  {
    hide DomainStep, Build, Save;
    if inputs != [] {
      var i := inputs[0];
      var here := if i.restart.Some? then Restart(t, i.restart.value) else t;
      if i.restart.Some? {
        RestartForgetsOnlyTimes(t, i.restart.value);
      }
      StepRespectsAlike(s, here, i.task, i.evidence, p);
      RestartsPreserveAlike(DomainStep(s, i.task, i.evidence, p).0, DomainStep(here, i.task, i.evidence, p).0,
                            inputs[1..], p);
    }
  }

  /**
   For every starting document, every run and every choice of restarts, each with its own setup, the
   decisions are exactly those of the uninterrupted run.
   */
  lemma RestartsAreUnobservable(module_: Option<Doc>, setup: Setup, inputs: seq<Input>, p: StepParams)
    ensures Run(Build(module_, setup), inputs, p).1 == RunWithRestarts(Build(module_, setup), inputs, p).1
  {
    hide Build;
    RestartsPreserveAlike(Build(module_, setup), Build(module_, setup), inputs, p);
  }

  // ---------------------------------------------------------------- calm runs of the composite step

  /** The window inputs that the turns of a run produce. */
  function WindowTurns(s: State, inputs: seq<Input>, p: StepParams): (r: seq<Turn>)
    ensures |r| == |inputs|
    decreases |inputs|
  {
    if inputs == [] then []
    else
      var (s', d) := DomainStep(s, inputs[0].task, inputs[0].evidence, p);
      [Turn(d.zpd.outsideBand, inputs[0].evidence)] + WindowTurns(s', inputs[1..], p)
  }

  lemma {:induction false} RunFollowsWindow(s: State, inputs: seq<Input>, p: StepParams)
    ensures Run(s, inputs, p).0.zpd.window == WindowAfter(s.zpd.window, WindowTurns(s, inputs, p), p.zpd.windowTurns)
    ensures |Run(s, inputs, p).1| == |inputs|
    ensures inputs != [] ==>
      var w := Run(s, inputs, p).0.zpd.window;
      Run(s, inputs, p).1[|inputs| - 1].zpd.tier == DetectTier(w, Frustrated(w, inputs[|inputs| - 1].evidence), p.zpd)
    decreases |inputs|
  {
    hide NextWindow, DetectTier, Frustrated, DomainStep, WindowAfter;
    if inputs == [] {
      NoTurnsNoChange(s.zpd.window, p.zpd.windowTurns);
    } else {
      var (s', d) := DomainStep(s, inputs[0].task, inputs[0].evidence, p);
      var t := Turn(d.zpd.outsideBand, inputs[0].evidence);
      StepMovesWindow(s, inputs[0], p);
      RunFollowsWindow(s', inputs[1..], p);
      WindowAfterCons(s.zpd.window, t, WindowTurns(s', inputs[1..], p), p.zpd.windowTurns);
    }
  }

  lemma NoTurnsNoChange(w: Window, n: int)
    ensures WindowAfter(w, [], n) == w
  {}

  lemma StepMovesWindow(s: State, input: Input, p: StepParams)
    ensures var (s', d) := DomainStep(s, input.task, input.evidence, p);
      && s'.zpd.window == NextWindow(s.zpd.window, d.zpd.outsideBand, input.evidence, p.zpd.windowTurns)
      && d.zpd.tier == DetectTier(s'.zpd.window, Frustrated(s'.zpd.window, input.evidence), p.zpd)
  {
    hide NextWindow, DetectTier, Frustrated;
  }

  lemma {:induction false} WindowAfterCons(w: Window, t: Turn, turns: seq<Turn>, n: int)
    ensures WindowAfter(w, [t] + turns, n) == WindowAfter(NextWindow(w, t.outside, t.evidence, n), turns, n)
  {
    hide NextWindow;
    var all := [t] + turns;
    if turns == [] {
      assert all[..0] == [];
    } else {
      assert all[..|all| - 1] == [t] + turns[..|turns| - 1];
      WindowAfterCons(w, t, turns[..|turns| - 1], n);
    }
  }

  /**
   From any learning state, a run of calm turns as long as the window ends with tier "ok", and then
   the monitor leaves the action to the fluency gate.
   */
  lemma CalmRunEndsOk(s: State, inputs: seq<Input>, p: StepParams)
    requires p.zpd.minor > 0.0 && p.zpd.major > 0.0 && p.zpd.persistence >= 1
    requires p.zpd.windowTurns >= 0 && inputs != [] && |inputs| >= p.zpd.windowTurns
    requires forall t | t in WindowTurns(s, inputs, p) :: Calm(t)
    ensures |Run(s, inputs, p).1| == |inputs|
    ensures var last := Run(s, inputs, p).1[|inputs| - 1];
      last.zpd.tier == Ok && last.action == FluencyAction(last.fluency.action)
  {
    hide Run, DetectTier, Frustrated, DomainStep, WindowAfter, Calm;
    RunFollowsWindow(s, inputs, p);
    DecisionOf(s, inputs, p, |inputs| - 1);
    var turns := WindowTurns(s, inputs, p);
    CalmTurnsEndOk(s.zpd.window, turns, p.zpd);
    LastEvidence(s, inputs, p);
  }

  /**
   The merged decision of every turn of a run: the window monitor's action comes before the fluency
   gate's, and escalation is held back exactly until the window has seen enough turns.
   */
  lemma {:induction false} DecisionOf(s: State, inputs: seq<Input>, p: StepParams, i: nat)
    requires i < |inputs|
    ensures |Run(s, inputs, p).1| == |inputs|
    ensures var d := Run(s, inputs, p).1[i];
      && (d.zpd.tier != Ok ==> d.action == ZpdAction(d.zpd.tier))
      && (d.zpd.tier == Ok ==> d.action == FluencyAction(d.fluency.action))
      && (d.escalationSuppressed <==> s.zpd.window.attempts + i + 1 < p.driftWindowTurns)
    decreases |inputs|
  {
    hide DomainStep;
    var here := inputs[0];
    MergedDecision(s, here, p);
    RunFollowsWindow(s, inputs, p);
    if i > 0 {
      DecisionOf(DomainStep(s, here.task, here.evidence, p).0, inputs[1..], p, i - 1);
    }
  }

  lemma MergedDecision(s: State, input: Input, p: StepParams)
    ensures var (s', d) := DomainStep(s, input.task, input.evidence, p);
      && (d.zpd.tier != Ok ==> d.action == ZpdAction(d.zpd.tier))
      && (d.zpd.tier == Ok ==> d.action == FluencyAction(d.fluency.action))
      && (d.escalationSuppressed <==> s.zpd.window.attempts + 1 < p.driftWindowTurns)
      && s'.zpd.window.attempts == s.zpd.window.attempts + 1
  {
    hide DetectTier, Frustrated;
  }

  lemma {:induction false} LastEvidence(s: State, inputs: seq<Input>, p: StepParams)
    requires inputs != []
    ensures WindowTurns(s, inputs, p)[|inputs| - 1].evidence == inputs[|inputs| - 1].evidence
    decreases |inputs|
  {
    hide DomainStep;
    if |inputs| > 1 {
      LastEvidence(DomainStep(s, inputs[0].task, inputs[0].evidence, p).0, inputs[1..], p);
    }
  }
}
