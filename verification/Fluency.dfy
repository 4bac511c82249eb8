/**
 The consecutive-success gate (model-packs/education/domain-lib/fluency_monitor.py) and what holds
 over every run of it.
 */
module Fluency {
  import opened Text
  import ProblemGenerator

  datatype FluencyState = FluencyState(consecutiveCorrect: int, currentTier: string, solveTimes: seq<real>)

  datatype Params = Params(target: int, threshold: real, progression: seq<string>)

  datatype Evidence = Evidence(correct: bool, elapsed: real) {
    predicate Fast(p: Params) { correct && elapsed <= p.threshold }
  }

  datatype Action = AdvanceTier | TriggerTargetedHint

  datatype Decision = Decision(action: Option<Action>, bottleneck: bool, consecutiveCorrect: int,
                               currentTier: string, nextTier: Option<string>) {
    predicate Advanced() { nextTier.Some? }
  }

  /** `_tier_index`: the first occurrence, or 0 for an unknown tier. */
  function TierIndex(progression: seq<string>, tier: string): (i: nat)
    ensures tier in progression ==> i < |progression| && progression[i] == tier
    ensures tier !in progression ==> i == 0
  {
    if progression == [] || progression[0] == tier || tier !in progression[1..] then 0
    else 1 + TierIndex(progression[1..], tier)
  }

  /** `fluency_monitor_step` */
  function Step(s: FluencyState, e: Evidence, p: Params): (FluencyState, Decision) {
    var counted := if e.Fast(p) then s.consecutiveCorrect + 1 else 0;
    var times := if e.correct then s.solveTimes + [e.elapsed] else [];
    var slow := e.correct && !e.Fast(p);
    var closing := counted >= p.target;
    var i := TierIndex(p.progression, s.currentTier);
    var next := if closing && i < |p.progression| - 1 then Some(p.progression[i + 1]) else None;
    var s' := FluencyState(if closing then 0 else counted,
                           if next.Some? then next.value else s.currentTier,
                           if closing then [] else times);
    (s', Decision(if next.Some? then Some(AdvanceTier) else if slow then Some(TriggerTargetedHint) else None,
                  slow, s'.consecutiveCorrect, s'.currentTier, next))
  }

  /** `build_initial_fluency_state`; with no tiers the first entry of the progression is used. */
  method BuildInitial(nominal: real, tiers: seq<ProblemGenerator.Tier>, progression: seq<string>)
    returns (s: FluencyState)
    ensures s == Initial(nominal, tiers, progression)
  {
    var tier := if progression != [] then progression[0] else "tier_1";
    var found := false;
    for i := 0 to |tiers|
      invariant !found
      invariant i < |tiers| ==>
        ProblemGenerator.SelectTier(nominal, tiers[i..]) == ProblemGenerator.SelectTier(nominal, tiers)
      invariant tiers != [] && i == |tiers| ==>
        ProblemGenerator.SelectTier(nominal, tiers) == tiers[|tiers| - 1]
    {
      if tiers[i].Covers(nominal) {
        tier, found := tiers[i].id, true;
        break;
      }
      assert i + 1 < |tiers| ==> tiers[i..][1..] == tiers[i + 1..];
    }
    if !found && tiers != [] {
      tier := tiers[|tiers| - 1].id;
    }
    s := FluencyState(0, tier, []);
  }

  function Initial(nominal: real, tiers: seq<ProblemGenerator.Tier>, progression: seq<string>): FluencyState {
    FluencyState(0,
                 if tiers != [] then ProblemGenerator.SelectTier(nominal, tiers).id
                 else if progression != [] then progression[0] else "tier_1",
                 [])
  }

  /** Nothing is counted at first; without tiers the progression starts, and without either the first tier. */
  lemma InitialIs(nominal: real, tiers: seq<ProblemGenerator.Tier>, progression: seq<string>)
    ensures var s := Initial(nominal, tiers, progression);
      && s.consecutiveCorrect == 0 && s.solveTimes == []
      && (tiers != [] ==> s.currentTier == ProblemGenerator.SelectTier(nominal, tiers).id)
      && (tiers == [] && progression != [] ==> s.currentTier == progression[0])
      && (tiers == [] && progression == [] ==> s.currentTier == "tier_1")
  {}

  // ---------------------------------------------------------------- runs

  ghost predicate Distinct(progression: seq<string>) {
    forall i, j | 0 <= i < j < |progression| :: progression[i] != progression[j]
  }

  function After(s: FluencyState, es: seq<Evidence>, p: Params): FluencyState {
    if es == [] then s else Step(After(s, es[..|es| - 1], p), es[|es| - 1], p).0
  }

  /** The decision of turn `i` of the run. */
  function DecisionAt(s: FluencyState, es: seq<Evidence>, p: Params, i: nat): Decision
    requires i < |es|
  {
    Step(After(s, es[..i], p), es[i], p).1
  }

  function Advances(s: FluencyState, es: seq<Evidence>, p: Params): nat {
    if es == [] then 0
    else Advances(s, es[..|es| - 1], p) + if DecisionAt(s, es, p, |es| - 1).Advanced() then 1 else 0
  }

  function FastSolves(es: seq<Evidence>, p: Params): nat {
    if es == [] then 0
    else FastSolves(es[..|es| - 1], p) + if es[|es| - 1].Fast(p) then 1 else 0
  }

  /** One step: the counter, and the tier index, which moves by one exactly on an advance. */
  lemma StepEffect(s: FluencyState, e: Evidence, p: Params)
    requires Distinct(p.progression)
    ensures var (s', d) := Step(s, e, p);
      && TierIndex(p.progression, s'.currentTier)
         == TierIndex(p.progression, s.currentTier) + (if d.Advanced() then 1 else 0)
      && (d.Advanced() ==> s'.currentTier in p.progression && s'.currentTier != s.currentTier)
  {
    var (s', d) := Step(s, e, p);
    if d.Advanced() {
      var i := TierIndex(p.progression, s.currentTier);
      IndexOfDistinct(p.progression, i + 1);
      assert s.currentTier in p.progression ==> p.progression[i] == s.currentTier != p.progression[i + 1];
    }
  }

  /** One step of the counter below its target: it grows on fast correct turns and closes at the target. */
  lemma CounterEffect(s: FluencyState, e: Evidence, p: Params)
    requires 0 <= s.consecutiveCorrect < p.target
    ensures var (s', d) := Step(s, e, p);
      && 0 <= s'.consecutiveCorrect < p.target
      && (d.Advanced() ==> e.Fast(p) && s.consecutiveCorrect + 1 == p.target && s'.consecutiveCorrect == 0)
      && (s'.consecutiveCorrect != 0 ==>
            e.Fast(p) && !d.Advanced() && s'.consecutiveCorrect == s.consecutiveCorrect + 1)
  {
    hide TierIndex;
  }

  /** An advance is announced as such; otherwise a correct turn that was too slow asks for a hint. */
  lemma ActionMeans(s: FluencyState, e: Evidence, p: Params)
    ensures var (s', d) := Step(s, e, p);
      && (d.action == Some(AdvanceTier) <==> d.Advanced())
      && (d.action == Some(TriggerTargetedHint) <==> e.correct && e.elapsed > p.threshold && !d.Advanced())
      && (d.Advanced() ==> d.nextTier == Some(s'.currentTier))
      && (!d.Advanced() ==> s'.currentTier == s.currentTier)
      && d.currentTier == s'.currentTier && d.consecutiveCorrect == s'.consecutiveCorrect
  {
    hide TierIndex;
  }

  /** The tier changes exactly when a fast correct turn reaches the target and a further tier is there: to that one. */
  lemma AdvancesIff(s: FluencyState, e: Evidence, p: Params, i: nat)
    requires Distinct(p.progression) && i < |p.progression| && s.currentTier == p.progression[i]
    requires 0 <= s.consecutiveCorrect < p.target
    ensures var (s', d) := Step(s, e, p);
      var reached := e.correct && e.elapsed <= p.threshold && s.consecutiveCorrect + 1 == p.target;
      && (d.Advanced() <==> reached && i + 1 < |p.progression|)
      && s'.currentTier == (if reached && i + 1 < |p.progression| then p.progression[i + 1] else p.progression[i])
      && (reached ==> s'.consecutiveCorrect == 0 && s'.solveTimes == [])
      && (!reached && e.correct && e.elapsed <= p.threshold ==> s'.consecutiveCorrect == s.consecutiveCorrect + 1)
      && (!(e.correct && e.elapsed <= p.threshold) ==> s'.consecutiveCorrect == 0)
  {
    hide TierIndex;
    IndexOfDistinct(p.progression, i);
  }

  lemma {:induction false} IndexOfDistinct(progression: seq<string>, i: nat)
    requires Distinct(progression) && i < |progression|
    ensures TierIndex(progression, progression[i]) == i
  {
    var j := TierIndex(progression, progression[i]);
    assert progression[i] in progression;
    assert progression[j] == progression[i];
  }

  /**
   Over any run from a zero counter: target * advances + count never exceeds the fast correct
   solves, the counter stays below the target, and the tier index is the starting index plus the
   number of advances, so it never falls.
   */
  lemma {:induction false} RunBounds(s: FluencyState, es: seq<Evidence>, p: Params)
    requires s.consecutiveCorrect == 0 && p.target >= 1 && Distinct(p.progression)
    ensures 0 <= After(s, es, p).consecutiveCorrect < p.target
    ensures p.target * Advances(s, es, p) + After(s, es, p).consecutiveCorrect <= FastSolves(es, p)
    ensures TierIndex(p.progression, After(s, es, p).currentTier)
         == TierIndex(p.progression, s.currentTier) + Advances(s, es, p)
  {
    hide TierIndex, Step;
    if es != [] {
      var before, last := es[..|es| - 1], es[|es| - 1];
      RunBounds(s, before, p);
      CounterEffect(After(s, before, p), last, p);
      StepEffect(After(s, before, p), last, p);
      var n := Advances(s, before, p);
      assert p.target * (n + 1) == p.target * n + p.target;
    }
  }

  lemma {:induction false} AdvancesOfPrefix(s: FluencyState, es: seq<Evidence>, p: Params, n: nat)
    requires n <= |es|
    ensures Advances(s, es[..n], p) <= Advances(s, es, p)
  {
    if n == |es| {
      assert es[..n] == es;
    } else {
      AdvancesOfPrefix(s, es[..|es| - 1], p, n);
      assert es[..|es| - 1][..n] == es[..n];
    }
  }

  /** The tier index never falls between two moments of a run. */
  lemma TierNeverFalls(s: FluencyState, es: seq<Evidence>, p: Params, n: nat)
    requires s.consecutiveCorrect == 0 && p.target >= 1 && Distinct(p.progression) && n <= |es|
    ensures TierIndex(p.progression, After(s, es[..n], p).currentTier)
         <= TierIndex(p.progression, After(s, es, p).currentTier)
  {
    RunBounds(s, es[..n], p);
    RunBounds(s, es, p);
    AdvancesOfPrefix(s, es, p, n);
  }

  /** The last `After(..).consecutiveCorrect` turns were fast and correct, and none of them advanced. */
  lemma {:induction false} CounterCountsTail(s: FluencyState, es: seq<Evidence>, p: Params)
    requires s.consecutiveCorrect == 0 && p.target >= 1
    ensures var c := After(s, es, p).consecutiveCorrect;
      && 0 <= c <= |es| && c < p.target
      && forall k | |es| - c <= k < |es| :: es[k].Fast(p) && !DecisionAt(s, es, p, k).Advanced()
  {
    hide TierIndex, Step;
    if es != [] {
      var before := es[..|es| - 1];
      CounterCountsTail(s, before, p);
      CounterEffect(After(s, before, p), es[|es| - 1], p);
      forall k | 0 <= k < |before|
        ensures DecisionAt(s, before, p, k) == DecisionAt(s, es, p, k)
      {
        assert before[..k] == es[..k];
      }
    }
  }

  function Elapsed(es: seq<Evidence>): (times: seq<real>)
    ensures |times| == |es|
  {
    if es == [] then [] else Elapsed(es[..|es| - 1]) + [es[|es| - 1].elapsed]
  }

  /** The solve times kept are those of a tail of correct turns, at least as long as the counter. */
  lemma {:induction false} SolveTimesAreTail(s: FluencyState, es: seq<Evidence>, p: Params)
    requires s.consecutiveCorrect == 0 && s.solveTimes == [] && p.target >= 1
    ensures var after := After(s, es, p);
      var n := |after.solveTimes|;
      && after.consecutiveCorrect <= n <= |es|
      && after.solveTimes == Elapsed(es)[|es| - n..]
      && forall k | |es| - n <= k < |es| :: es[k].correct
  {
    hide Step;
    if es != [] {
      var front, e := es[..|es| - 1], es[|es| - 1];
      SolveTimesAreTail(s, front, p);
      var before := After(s, front, p);
      StepTimes(before, e, p);
      DropInside(Elapsed(front), [e.elapsed], |front| - |before.solveTimes|);
      TakeDrop(Elapsed(front), [e.elapsed]);
    }
  }

  /** One turn starts the solve times over or, when correct, adds its own. */
  lemma StepTimes(s: FluencyState, e: Evidence, p: Params)
    requires p.target >= 1
    ensures var s' := Step(s, e, p).0;
      || (s'.solveTimes == [] && s'.consecutiveCorrect == 0)
      || (e.correct && s'.solveTimes == s.solveTimes + [e.elapsed]
          && (s'.consecutiveCorrect == 0 || s'.consecutiveCorrect == s.consecutiveCorrect + 1))
  {
    hide TierIndex;
  }

  /** Each advance closes its own block of `target` consecutive fast correct turns. */
  lemma AdvanceClosesBlock(s: FluencyState, es: seq<Evidence>, p: Params, i: nat)
    requires s.consecutiveCorrect == 0 && p.target >= 1
    requires i < |es| && DecisionAt(s, es, p, i).Advanced()
    ensures p.target <= i + 1
    ensures forall k | i + 1 - p.target <= k <= i :: es[k].Fast(p)
    ensures forall k | i + 1 - p.target <= k < i :: !DecisionAt(s, es, p, k).Advanced()
  {
    hide TierIndex, Step, After;
    var before := es[..i];
    CounterCountsTail(s, before, p);
    CounterEffect(After(s, before, p), es[i], p);
    forall k | 0 <= k < i
      ensures DecisionAt(s, before, p, k) == DecisionAt(s, es, p, k) && before[k] == es[k]
    {
      assert before[..k] == es[..k];
    }
  }
}
