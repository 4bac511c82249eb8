/**
 Runs of the composite step told by the challenges decided on, the challenge band and the evidence, and what
 a learning state is built from: which document counts, and what a missing key means.
 */
module LearningLaws {
  import opened Text
  import opened ZpdMonitor
  import opened LearningState
  import ZpdLaws
  import Fluency
  import ProblemGenerator

  // ---------------------------------------------------------------- runs told by challenge and band

  /** The turns that count as outside: the challenge beyond the band, and the learner on task. */
  function OutsideTurns(band: Band, inputs: seq<Input>, ds: seq<Merged>): (r: seq<bool>)
    requires |ds| == |inputs|
    ensures |r| == |inputs|
    ensures forall i | 0 <= i < |inputs| ::
      r[i] <==> inputs[i].evidence.offTaskRatio < 0.8 && ZpdLaws.Outside(ds[i].zpd.challenge, band)
  {
    seq(|inputs|, i requires 0 <= i < |inputs| =>
      inputs[i].evidence.offTaskRatio < 0.8 && ZpdLaws.Outside(ds[i].zpd.challenge, band))
  }

  /** The window of a run is fed with exactly those turns. */
  lemma {:induction false} FlagsOfRun(s: State, inputs: seq<Input>, p: StepParams)
    ensures |Run(s, inputs, p).1| == |inputs|
    ensures RecordedFlags(WindowTurns(s, inputs, p)) == OutsideTurns(s.zpd.band, inputs, Run(s, inputs, p).1)
    ensures forall i | 0 <= i < |inputs| :: WindowTurns(s, inputs, p)[i].evidence == inputs[i].evidence
    decreases |inputs|
  {
    hide DomainStep, ZpdLaws.Outside, Recorded;
    if inputs != [] {
      var (s', d) := DomainStep(s, inputs[0].task, inputs[0].evidence, p);
      OneFlag(s, inputs[0], p);
      FlagsOfRun(s', inputs[1..], p);
      var turns, ds := WindowTurns(s, inputs, p), Run(s, inputs, p).1;
      var flags, wanted := RecordedFlags(turns), OutsideTurns(s.zpd.band, inputs, ds);
      forall i | 0 <= i < |inputs|
        ensures flags[i] == wanted[i] && turns[i].evidence == inputs[i].evidence
      {
        if i > 0 {
          assert turns[i] == WindowTurns(s', inputs[1..], p)[i - 1] && inputs[i] == inputs[1..][i - 1];
          assert ds[i] == Run(s', inputs[1..], p).1[i - 1];
          assert RecordedFlags(WindowTurns(s', inputs[1..], p))[i - 1] == flags[i];
        }
      }
    }
  }

  lemma OneFlag(s: State, input: Input, p: StepParams)
    ensures var (s', d) := DomainStep(s, input.task, input.evidence, p);
      && s'.zpd.band == s.zpd.band
      && (Recorded(d.zpd.outsideBand, input.evidence) <==>
            input.evidence.offTaskRatio < 0.8 && ZpdLaws.Outside(d.zpd.challenge, s.zpd.band))
  {
    hide ZpdMonitor.Step, Fluency.Step, ZpdLaws.Outside;
    ZpdLaws.StepJudgesChallenge(s.zpd, input.task, input.evidence, p.zpd);
  }

  function Answers(inputs: seq<Input>): (r: seq<bool>)
    ensures |r| == |inputs|
    ensures forall i | 0 <= i < |inputs| :: r[i] <==> inputs[i].evidence.correctness.Incorrect?
  {
    seq(|inputs|, i requires 0 <= i < |inputs| => inputs[i].evidence.correctness.Incorrect?)
  }

  function Hints(inputs: seq<Input>): (r: seq<bool>)
    ensures |r| == |inputs|
    ensures forall i | 0 <= i < |inputs| :: r[i] <==> inputs[i].evidence.hintUsed
  {
    seq(|inputs|, i requires 0 <= i < |inputs| => inputs[i].evidence.hintUsed)
  }

  /**
   From a fresh window, the tier of the last turn of any run, told by the challenges decided on, the band the
   learner started with, and the evidence.
   */
  lemma TierOfRun(s: State, inputs: seq<Input>, p: StepParams)
    requires s.zpd.window == FRESH && inputs != [] && p.zpd.windowTurns >= 0
    ensures |Run(s, inputs, p).1| == |inputs|
    ensures var ds := Run(s, inputs, p).1;
      var last := inputs[|inputs| - 1].evidence;
      var outside := OutsideTurns(s.zpd.band, inputs, ds);
      var wrong, outsideRun := TrailingRun(Answers(inputs)), TrailingRun(outside);
      var share := Share(Latest(outside, p.zpd.windowTurns));
      var frustrated := wrong >= 3 || Count(Latest(Hints(inputs), p.zpd.windowTurns)) >= 3
                        || last.frustrationMarkers >= 2 || (last.repeatedError && wrong >= 2);
      var tier := ds[|inputs| - 1].zpd.tier;
      && (tier == Major <==> || share >= p.zpd.major || outsideRun >= p.zpd.persistence
                             || (frustrated && |inputs| >= p.zpd.minTurnsBeforeEscalation))
      && (tier != Ok <==> || share >= p.zpd.major || share >= p.zpd.minor || outsideRun >= p.zpd.persistence
                          || frustrated)
  {
    hide Run, WindowTurns, DetectTier, Frustrated, WindowAfter, Count, Share, TrailingRun, Latest;
    FlagsOfRun(s, inputs, p);
    RunFollowsWindow(s, inputs, p);
    var turns := WindowTurns(s, inputs, p);
    TierOfHistory(turns, p.zpd);
    assert IncorrectFlags(turns) == Answers(inputs);
    assert HintFlags(turns) == Hints(inputs);
  }

  /** In band or off task, not wrong, without a hint, and with fewer than two signs of frustration. */
  predicate CalmTurn(challenge: real, band: Band, e: Evidence) {
    && (e.offTaskRatio >= 0.8 || band.min - 0.01 <= challenge <= band.max + 0.01)
    && !e.correctness.Incorrect? && !e.hintUsed && e.frustrationMarkers < 2
  }

  /**
   From any learning state, a run that decides on challenges in the band and shows no trouble, as long as the
   window, ends in tier "ok", with the action left to the fluency gate.
   */
  lemma InBandRunEndsOk(s: State, inputs: seq<Input>, p: StepParams)
    requires p.zpd.minor > 0.0 && p.zpd.major > 0.0 && p.zpd.persistence >= 1
    requires p.zpd.windowTurns >= 0 && inputs != [] && |inputs| >= p.zpd.windowTurns
    requires |Run(s, inputs, p).1| == |inputs|
    requires forall i | 0 <= i < |inputs| ::
      CalmTurn(Run(s, inputs, p).1[i].zpd.challenge, s.zpd.band, inputs[i].evidence)
    ensures var last := Run(s, inputs, p).1[|inputs| - 1];
      last.zpd.tier == Ok && last.action == FluencyAction(last.fluency.action)
  {
    hide Run, WindowTurns;
    FlagsOfRun(s, inputs, p);
    var turns := WindowTurns(s, inputs, p);
    forall t | t in turns ensures Calm(t) {
      var i :| 0 <= i < |turns| && turns[i] == t;
      assert CalmTurn(Run(s, inputs, p).1[i].zpd.challenge, s.zpd.band, inputs[i].evidence);
      assert RecordedFlags(turns)[i] == OutsideTurns(s.zpd.band, inputs, Run(s, inputs, p).1)[i];
    }
    CalmRunEndsOk(s, inputs, p);
  }

  /** The action of every turn of a run: the window monitor's by its tier, and only without one the fluency gate's. */
  lemma ActionsOfRun(s: State, inputs: seq<Input>, p: StepParams, i: nat)
    requires i < |inputs|
    ensures |Run(s, inputs, p).1| == |inputs|
    ensures var d := Run(s, inputs, p).1[i];
      && (d.zpd.tier == Major ==> d.action == Some("zpd_intervene_or_escalate"))
      && (d.zpd.tier == Minor ==> d.action == Some("zpd_scaffold"))
      && (d.zpd.tier == Ok && d.fluency.action == Some(Fluency.AdvanceTier) ==> d.action == Some("advance_tier"))
      && (d.zpd.tier == Ok && d.fluency.action == Some(Fluency.TriggerTargetedHint) ==>
            d.action == Some("trigger_targeted_hint"))
      && (d.zpd.tier == Ok && d.fluency.action.None? ==> d.action.None?)
  {
    hide Run;
    DecisionOf(s, inputs, p, i);
  }

  // ---------------------------------------------------------------- the fluency gate's evidence

  /** The fluency gate goes by the solve time, by the latency only where there is none, and by zero without either. */
  lemma FluencyGoesBySolveTime(s: State, task: TaskSpec, e: Evidence, p: StepParams, latency: Option<real>, t: real)
    ensures var timed := e.(solveElapsed := Some(t), latency := latency);
      var late := e.(solveElapsed := None, latency := Some(t));
      && DomainStep(s, task, timed, p).1.fluency == DomainStep(s, task, late, p).1.fluency
      && DomainStep(s, task, timed, p).0.fluency == DomainStep(s, task, late, p).0.fluency
      && DomainStep(s, task, late, p).0.fluency.solveTimes
         == (if e.correctness.Correct? && DomainStep(s, task, late, p).0.fluency.solveTimes != []
             then s.fluency.solveTimes + [t] else [])
    ensures DomainStep(s, task, e.(solveElapsed := None, latency := None), p).1.fluency
         == DomainStep(s, task, e.(solveElapsed := Some(0.0)), p).1.fluency
  {
    hide ZpdMonitor.Step, Fluency.TierIndex;
  }

  /** A correct answer in time counts, and a late or a wrong one starts the count over, below the target. */
  lemma FluencyCounts(s: State, task: TaskSpec, e: Evidence, p: StepParams, t: real)
    requires 0 <= s.fluency.consecutiveCorrect && s.fluency.consecutiveCorrect + 1 < p.fluency.target
    ensures var after := DomainStep(s, task, e.(solveElapsed := Some(t)), p).0.fluency;
      after.consecutiveCorrect
      == if e.correctness.Correct? && t <= p.fluency.threshold then s.fluency.consecutiveCorrect + 1 else 0
  {
    hide ZpdMonitor.Step, Fluency.TierIndex;
  }

  // ---------------------------------------------------------------- which document counts

  /** What is left of a state when its solve times are. */
  function Timeless(s: State): State {
    s.(fluency := s.fluency.(solveTimes := []))
  }

  /**
   A saved state comes back from each of the three places it can be in, whatever stands behind it: the stored
   module state, the module's initial state, and the profile.
   */
  lemma BuiltFromAnyPlace(s: State, initial: Option<Doc>, profile: Doc, setup: Setup)
    requires ValidZpd(s.zpd)
    ensures Build(Some(Save(s)), setup.(initial := initial, profile := profile)) == Timeless(s)
    ensures Build(None, setup.(initial := Some(Save(s)), profile := profile)) == Timeless(s)
    ensures Build(None, setup.(initial := None, profile := Save(s))) == Timeless(s)
  {
    RestartForgetsOnlyTimes(s, setup.(initial := initial, profile := profile));
    RestartForgetsOnlyTimes(s, setup.(initial := None, profile := Save(s)));
  }

  /** A document is read alike in each place, and an empty one is passed over. */
  lemma PlacesReadAlike(doc: Doc, other: Option<Doc>, setup: Setup)
    requires doc != EMPTY_DOC
    ensures Build(None, setup.(initial := Some(doc))) == Build(Some(doc), setup)
    ensures Build(None, setup.(initial := None, profile := doc)) == Build(Some(doc), setup)
    ensures Build(Some(EMPTY_DOC), setup) == Build(None, setup)
    ensures Build(None, setup.(initial := Some(EMPTY_DOC))) == Build(None, setup.(initial := None))
  {}

  // ---------------------------------------------------------------- what a missing key means

  lemma BuiltAffect(doc: Doc, setup: Setup, salience: real, valence: real, arousal: real)
    requires doc != EMPTY_DOC
    requires doc.affect.None? || doc.affect.value.salience.None? || doc.affect.value.salience == Some(salience)
    requires doc.affect.None? || doc.affect.value.valence.None? || doc.affect.value.valence == Some(valence)
    requires doc.affect.None? || doc.affect.value.arousal.None? || doc.affect.value.arousal == Some(arousal)
    requires 0.0 <= salience <= 1.0 && -1.0 <= valence <= 1.0 && 0.0 <= arousal <= 1.0
    ensures var a := Build(Some(doc), setup).zpd.affect;
      && a.salience == (if doc.affect.Some? && doc.affect.value.salience.Some? then salience else 0.7)
      && a.valence == (if doc.affect.Some? && doc.affect.value.valence.Some? then valence else 0.0)
      && a.arousal == (if doc.affect.Some? && doc.affect.value.arousal.Some? then arousal else 0.5)
  {}

  /** An unset band is that of the defaults, key by key. */
  lemma BuiltBand(doc: Doc, setup: Setup)
    requires doc != EMPTY_DOC
    ensures var b := Build(Some(doc), setup).zpd.band;
      && (doc.band.None? ==> b == Band(0.3, 0.7))
      && (doc.band.Some? ==>
            && (doc.band.value.minChallenge.Some? ==> b.min == doc.band.value.minChallenge.value)
            && (doc.band.value.minChallenge.None? ==> b.min == 0.3)
            && (doc.band.value.maxChallenge.Some? ==> b.max == doc.band.value.maxChallenge.value)
            && (doc.band.value.maxChallenge.None? ==> b.max == 0.7))
  {}

  lemma BuiltEstimates(doc: Doc, setup: Setup)
    requires doc != EMPTY_DOC
    ensures var z := Build(Some(doc), setup).zpd;
      && (doc.challenge.None? ==> z.challenge == 0.5) && (doc.uncertainty.None? ==> z.uncertainty == 0.5)
      && (doc.challenge.Some? && 0.0 <= doc.challenge.value <= 1.0 ==> z.challenge == doc.challenge.value)
      && (doc.uncertainty.Some? && 0.0 <= doc.uncertainty.value <= 1.0 ==> z.uncertainty == doc.uncertainty.value)
      && (doc.mastery.None? ==> z.mastery == map[])
      && (doc.mastery.Some? && ValidMastery(doc.mastery.value) ==> z.mastery == doc.mastery.value)
  {}

  /** An unset window is a fresh one, key by key. */
  lemma BuiltWindow(doc: Doc, setup: Setup)
    requires doc != EMPTY_DOC
    ensures var w := Build(Some(doc), setup).zpd.window;
      && (doc.window.None? ==> w == FRESH)
      && (doc.window.Some? ==>
            var d := doc.window.value;
            && (d.windowTurns.None? ==> w.windowTurns == 10) && (d.attempts.None? ==> w.attempts == 0)
            && (d.consecutiveIncorrect.None? ==> w.consecutiveIncorrect == 0)
            && (d.hintCount.None? ==> w.hintCount == 0) && (d.outsidePct.None? ==> w.outsidePct == 0.0)
            && (d.consecutiveOutside.None? ==> w.consecutiveOutside == 0)
            && (d.outsideFlags.None? ==> w.outsideFlags == []) && (d.hintFlags.None? ==> w.hintFlags == [])
            && (d.windowTurns.Some? ==> w.windowTurns == d.windowTurns.value)
            && (d.attempts.Some? ==> w.attempts == d.attempts.value)
            && (d.consecutiveIncorrect.Some? ==> w.consecutiveIncorrect == d.consecutiveIncorrect.value)
            && (d.hintCount.Some? ==> w.hintCount == d.hintCount.value)
            && (d.outsidePct.Some? ==> w.outsidePct == d.outsidePct.value)
            && (d.consecutiveOutside.Some? ==> w.consecutiveOutside == d.consecutiveOutside.value)
            && (d.outsideFlags.Some? ==> w.outsideFlags == d.outsideFlags.value)
            && (d.hintFlags.Some? ==> w.hintFlags == d.hintFlags.value))
  {}

  /**
   Without a saved tier the built state starts in the tier of the nominal difficulty, with nothing counted; a
   saved one is taken over, each key with its own default.
   */
  lemma BuiltFluency(doc: Doc, setup: Setup)
    requires doc != EMPTY_DOC
    ensures var f := Build(Some(doc), setup).fluency;
      var saved := doc.fluency.Some? && doc.fluency.value != FluencyDoc(None, None);
      && f.solveTimes == []
      && (!saved ==> f.consecutiveCorrect == 0)
      && (!saved && setup.tiers != [] && setup.progression != [] ==>
            f.currentTier == ProblemGenerator.SelectTier(setup.nominal, setup.tiers).id)
      && (!saved && (setup.tiers == [] || setup.progression == []) ==> f.currentTier == "tier_1")
      && (saved ==>
            && (doc.fluency.value.currentTier.Some? ==> f.currentTier == doc.fluency.value.currentTier.value)
            && (doc.fluency.value.currentTier.None? ==> f.currentTier == "tier_1")
            && (doc.fluency.value.consecutiveCorrect.Some? ==>
                  f.consecutiveCorrect == doc.fluency.value.consecutiveCorrect.value)
            && (doc.fluency.value.consecutiveCorrect.None? ==> f.consecutiveCorrect == 0))
  {}
}
