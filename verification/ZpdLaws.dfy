/**
 What the evidence of a turn does to the learning state, said of the step's own results: which turns are
 recorded as outside the challenge band, and which way and how far each estimate moves.
 */
module ZpdLaws {
  import opened Text
  import opened ZpdMonitor

  // ---------------------------------------------------------------- the challenge band

  /** More than a hundredth outside the band. */
  predicate Outside(challenge: real, band: Band) {
    band.min - challenge > 0.01 || challenge - band.max > 0.01
  }

  /** The challenge that is decided on is the one stored, and it alone decides whether the turn is outside. */
  lemma StepJudgesChallenge(s: Zpd, task: TaskSpec, e: Evidence, p: Params)
    ensures var (s', d) := Step(s, task, e, p);
      && d.challenge == s'.challenge
      && (d.outsideBand <==> Outside(s'.challenge, s.band))
      && d.driftPct == s'.window.outsidePct
  {
    hide NextMastery, NextChallenge, NextAffect, NextWindow, DetectTier, Frustrated, NextUncertainty;
  }

  /** What counts as frustration, by the window just moved and the evidence of the turn. */
  lemma StepSeesFrustration(s: Zpd, task: TaskSpec, e: Evidence, p: Params)
    ensures var (s', d) := Step(s, task, e, p);
      var wrong := s'.window.consecutiveIncorrect;
      && (d.frustration <==> wrong >= 3 || s'.window.hintCount >= 3 || e.frustrationMarkers >= 2
                             || (e.repeatedError && wrong >= 2))
      && wrong == (if e.correctness.Incorrect? then s.window.consecutiveIncorrect + 1 else 0)
      && d.windowTurnsFilled == s'.window.attempts == s.window.attempts + 1
  {
    hide NextMastery, NextChallenge, NextAffect, DetectTier, NextUncertainty, Count, Share, Prefix;
  }

  // ---------------------------------------------------------------- what the window counts

  /** Each flag that is up counts one, and one that is down counts none, wherever they stand. */
  lemma {:induction false} CountAdds(a: seq<bool>, b: seq<bool>)
    ensures Count(a + b) == Count(a) + Count(b)
    ensures Count([true]) == 1 && Count([false]) == 0
  {
    if a == [] {
      assert a + b == b;
    } else {
      assert (a + b)[1..] == a[1..] + b;
      CountAdds(a[1..], b);
    }
  }

  /** The share times the length is the count. */
  lemma ShareIsCount(flags: seq<bool>)
    ensures flags != [] ==> Share(flags) * |flags| as real == Count(flags) as real
    ensures flags == [] ==> Share(flags) == 0.0
    ensures 0.0 <= Share(flags) <= 1.0
  {
    hide Count;
    if flags != [] {
      Quotient(Count(flags) as real, |flags| as real);
    }
  }

  lemma Quotient(x: real, n: real)
    requires 0.0 <= x <= n && n > 0.0
    ensures (x / n) * n == x && 0.0 <= x / n <= 1.0
  {}

  /** The trailing run is up, and it is the longest. */
  lemma {:induction false} TrailingRunIsLongest(flags: seq<bool>)
    ensures var n := TrailingRun(flags);
      && n <= |flags|
      && (forall i | |flags| - n <= i < |flags| :: flags[i])
      && (n < |flags| ==> !flags[|flags| - 1 - n])
  {
    if flags != [] && flags[|flags| - 1] {
      TrailingRunIsLongest(flags[..|flags| - 1]);
    }
  }

  // ---------------------------------------------------------------- the challenge

  function After(s: Zpd, task: TaskSpec, e: Evidence, p: Params): Zpd {
    Step(s, task, e, p).0
  }

  /** Strictly inside the unit interval, where nothing is cut off. */
  predicate Inner(x: real) { 0.0 < x < 1.0 }

  lemma ChallengeOf(s: Zpd, task: TaskSpec, e: Evidence, p: Params)
    ensures After(s, task, e, p).challenge
            == NextChallenge(task, After(s, task, e, p).mastery, s.uncertainty)
    ensures After(s, task, e, p).mastery == NextMastery(s.mastery, task.skills, MasteryDelta(e, p.deltas))
  {
    hide NextMastery, NextChallenge, NextAffect, NextWindow, DetectTier, Frustrated, NextUncertainty, MasteryDelta;
  }

  /** A harder task of the same skills is a greater challenge, by as much as it is harder. */
  lemma HarderIsGreater(s: Zpd, task: TaskSpec, nominal: real, e: Evidence, p: Params)
    requires nominal >= task.nominal
    ensures var c := After(s, task, e, p).challenge;
      var c' := After(s, task.(nominal := nominal), e, p).challenge;
      && c <= c'
      && (Inner(c) && Inner(c') ==> c' - c == nominal - task.nominal)
  {
    hide NextMastery, MasteryDelta, SumMastery;
    ChallengeOf(s, task, e, p);
    ChallengeOf(s, task.(nominal := nominal), e, p);
  }

  /** The less is known about the learner, the greater the challenge, by a tenth of the difference. */
  lemma UncertainIsGreater(s: Zpd, uncertainty: real, task: TaskSpec, e: Evidence, p: Params)
    requires uncertainty >= s.uncertainty
    ensures var c := After(s, task, e, p).challenge;
      var c' := After(s.(uncertainty := uncertainty), task, e, p).challenge;
      && c <= c'
      && (Inner(c) && Inner(c') ==> c' - c == (uncertainty - s.uncertainty) / 10.0)
  {
    hide NextMastery, MasteryDelta, SumMastery;
    ChallengeOf(s, task, e, p);
    ChallengeOf(s.(uncertainty := uncertainty), task, e, p);
  }

  /** Where no skill is asked for and nothing is uncertain, the challenge is the nominal difficulty. */
  lemma NominalChallenge(s: Zpd, task: TaskSpec, e: Evidence, p: Params)
    requires task.skills == [] && s.uncertainty == 0.0 && 0.0 <= task.nominal <= 1.0
    ensures After(s, task, e, p).challenge == task.nominal
  {
    hide NextMastery, MasteryDelta, SumMastery;
    ChallengeOf(s, task, e, p);
  }

  lemma {:induction false} SumGrows(m: map<string, real>, m': map<string, real>, skills: seq<string>)
    requires forall k | k in skills :: k in m && k in m' && m[k] <= m'[k]
    ensures SumMastery(m, skills) <= SumMastery(m', skills)
  {
    if skills != [] {
      assert skills[0] in skills && forall k | k in skills[1..] :: k in skills;
      SumGrows(m, m', skills[1..]);
    }
  }

  /** A learner who masters each of the skills at least as well meets no greater challenge. */
  lemma MasteryEases(s: Zpd, s': Zpd, task: TaskSpec, e: Evidence, p: Params)
    requires s'.uncertainty == s.uncertainty
    requires forall k | k in task.skills ::
      (if k in s.mastery then s.mastery[k] else 0.0) <= (if k in s'.mastery then s'.mastery[k] else 0.0)
    ensures After(s', task, e, p).challenge <= After(s, task, e, p).challenge
  {
    hide MasteryDelta, SumMastery, NextMastery;
    var delta := MasteryDelta(e, p.deltas);
    var m, m' := NextMastery(s.mastery, task.skills, delta), NextMastery(s'.mastery, task.skills, delta);
    ChallengeOf(s, task, e, p);
    ChallengeOf(s', task, e, p);
    if task.skills != [] {
      MasteryOrdered(s.mastery, s'.mastery, task.skills, task.skills, delta);
      SumGrows(m, m', task.skills);
      assert task.skills[0] in task.skills && task.skills[0] in m && task.skills[0] in m';
      MeanGrows(SumMastery(m, task.skills), SumMastery(m', task.skills), |task.skills| as real);
    }
  }

  lemma MeanGrows(x: real, y: real, n: real)
    requires x <= y && n > 0.0
    ensures x / n <= y / n
  {}

  /** Moving both of two ordered masteries by the same amount keeps them in order. */
  lemma {:induction false} MasteryOrdered(m: map<string, real>, m': map<string, real>, skills: seq<string>,
                                          moved: seq<string>, delta: real)
    requires forall k | k in skills :: (if k in m then m[k] else 0.0) <= (if k in m' then m'[k] else 0.0)
    ensures var n, n' := NextMastery(m, moved, delta), NextMastery(m', moved, delta);
      && (forall k | k in moved :: k in n && k in n')
      && forall k | k in skills :: (if k in n then n[k] else 0.0) <= (if k in n' then n'[k] else 0.0)
    decreases |moved|
  {
    if moved != [] {
      var last := |moved| - 1;
      MasteryOrdered(m, m', skills, moved[..last], delta);
      assert moved == moved[..last] + [moved[last]];
    }
  }

  lemma {:induction false} SumOfEqual(m: map<string, real>, skills: seq<string>, x: real)
    requires forall k | k in skills :: k in m && m[k] == x
    ensures SumMastery(m, skills) == |skills| as real * x
  {
    if skills != [] {
      assert forall i | 0 <= i < |skills| :: skills[i] in skills;
      SumOfEqual(m, skills[1..], x);
      OneMore(|skills|, x);
      assert |skills[1..]| == |skills| - 1;
    } else {
      OneMore(1, x);
    }
  }

  lemma OneMore(n: nat, x: real)
    requires n > 0
    ensures n as real * x == (n - 1) as real * x + x
    ensures 0 as real * x == 0.0
  {
    assert n as real == (n - 1) as real + 1.0;
  }

  lemma MeanOf(n: real, x: real, sum: real)
    requires n > 0.0 && sum == n * x
    ensures sum / n == x
  {}

  /** When all skills asked for are mastered alike, each unit of mastery takes four tenths off the challenge. */
  lemma MasteredChallenge(s: Zpd, task: TaskSpec, e: Evidence, p: Params, x: real)
    requires task.skills != []
    requires forall k | k in task.skills :: k in After(s, task, e, p).mastery && After(s, task, e, p).mastery[k] == x
    ensures var c := After(s, task, e, p).challenge;
      Inner(c) ==> c == task.nominal + 0.1 * s.uncertainty + 0.4 * (0.5 - x)
  {
    hide MasteryDelta, SumMastery, Step, After, NextMastery;
    var m := After(s, task, e, p).mastery;
    ChallengeOf(s, task, e, p);
    SumOfEqual(m, task.skills, x);
    MeanOf(|task.skills| as real, x, SumMastery(m, task.skills));
    assert task.skills[0] in task.skills && task.skills[0] in m;
  }

  // ---------------------------------------------------------------- mastery

  /** A skill asked for once moves as the answer deserves, while it stays inside the unit interval. */
  lemma MasteryMoves(s: Zpd, task: TaskSpec, e: Evidence, p: Params, i: nat)
    requires i < |task.skills| && forall j | 0 <= j < |task.skills| && j != i :: task.skills[j] != task.skills[i]
    requires task.skills[i] in s.mastery
    ensures var was, d := s.mastery[task.skills[i]], p.deltas;
      && task.skills[i] in After(s, task, e, p).mastery
      && var now := After(s, task, e, p).mastery[task.skills[i]];
      && (e.correctness.Other? && 0.0 <= was <= 1.0 ==> now == was)
      && (Inner(now) ==>
            && (e.correctness.Correct? && !e.hintUsed ==> now - was == d.correctNoHint)
            && (e.correctness.Correct? && e.hintUsed ==> now - was == d.correctHint)
            && (e.correctness.Partial? && !e.hintUsed ==> now - was == d.partialNoHint)
            && (e.correctness.Partial? && e.hintUsed ==> now - was == d.partialHint)
            && (e.correctness.Incorrect? && e.repeatedError ==> now - was == d.repeatedError)
            && (e.correctness.Incorrect? && !e.repeatedError ==> now - was == d.incorrect))
  {
    hide NextMastery, After;
    ChallengeOf(s, task, e, p);
    MasteryAmount(s.mastery, task.skills, MasteryDelta(e, p.deltas), i);
  }

  // ---------------------------------------------------------------- uncertainty

  /** How a turn of this kind leaves the uncertainty. */
  function Left(s: Zpd, task: TaskSpec, e: Evidence, p: Params, c: Correctness, hint: bool, repeated: bool): real {
    After(s, task, e.(correctness := c, hintUsed := hint, repeatedError := repeated), p).uncertainty
  }

  /**
   The clearer the answer, the less uncertainty it leaves: an unaided correct answer least, then an aided
   one, one that is no attempt, a wrong one, a partial one, and a repeated error most.
   */
  lemma ClearAnswersSettle(s: Zpd, task: TaskSpec, e: Evidence, p: Params, hint: bool, repeated: bool)
    requires 0.0 <= s.uncertainty <= 1.0
    ensures var unaided := Left(s, task, e, p, Correct, false, repeated);
      var aided := Left(s, task, e, p, Correct, true, repeated);
      var other := Left(s, task, e, p, Other, hint, repeated);
      var wrong := Left(s, task, e, p, Incorrect, hint, false);
      var partial_ := Left(s, task, e, p, Partial, hint, repeated);
      var again := Left(s, task, e, p, Incorrect, hint, true);
      && unaided <= aided <= other <= wrong <= s.uncertainty <= partial_ <= again
      && (0.10 <= s.uncertainty <= 0.95 ==>
            && s.uncertainty - unaided == 0.10 && s.uncertainty - aided == 0.05
            && s.uncertainty - other == 0.03 && s.uncertainty - wrong == 0.02
            && partial_ - s.uncertainty == 0.02 && again - s.uncertainty == 0.05)
  {
    hide NextMastery, NextChallenge, NextAffect, NextWindow, DetectTier, Frustrated;
  }

  // ---------------------------------------------------------------- affect

  function Felt(s: Zpd, task: TaskSpec, e: Evidence, p: Params): Affect {
    After(s, task, e, p).affect
  }

  predicate InnerAffect(a: Affect) {
    0.0 < a.salience < 1.0 && -1.0 < a.valence < 1.0 && 0.0 < a.arousal < 1.0
  }

  lemma FeltIs(s: Zpd, task: TaskSpec, e: Evidence, p: Params)
    ensures Felt(s, task, e, p) == NextAffect(s.affect, e, p)
  {
    hide NextMastery, NextChallenge, NextAffect, NextWindow, DetectTier, Frustrated, NextUncertainty;
  }

  /** No attempt, on task, at an ordinary pace and with no sign of frustration, changes nothing. */
  lemma NothingFelt(s: Zpd, task: TaskSpec, e: Evidence, p: Params)
    requires ValidAffect(s.affect) && e.correctness.Other? && e.frustrationMarkers < 2 && e.offTaskRatio <= 0.5
    requires e.latency.Some? && 3.0 <= e.latency.value <= 30.0 && e.latency.value <= p.latencyThreshold
    ensures Felt(s, task, e, p) == s.affect
  {
    FeltIs(s, task, e, p);
  }

  /** All else equal: the better the answer, the better the mood, and only an unaided one holds the attention. */
  lemma AnswersFelt(s: Zpd, task: TaskSpec, e: Evidence, p: Params)
    ensures var unaided := Felt(s, task, e.(correctness := Correct, hintUsed := false), p);
      var aided := Felt(s, task, e.(correctness := Correct, hintUsed := true), p);
      var other := Felt(s, task, e.(correctness := Other), p);
      var partial_ := Felt(s, task, e.(correctness := Partial), p);
      var wrong := Felt(s, task, e.(correctness := Incorrect), p);
      && unaided.valence >= aided.valence >= other.valence >= partial_.valence >= wrong.valence
      && unaided.salience >= aided.salience == other.salience == partial_.salience == wrong.salience
      && unaided.arousal == aided.arousal == other.arousal == partial_.arousal == wrong.arousal
      && (InnerAffect(unaided) && InnerAffect(other) && InnerAffect(wrong) ==>
            && unaided.valence - other.valence == 0.10 && aided.valence - other.valence == 0.03
            && other.valence - partial_.valence == 0.02 && other.valence - wrong.valence == 0.08
            && unaided.salience - other.salience == 0.05)
  {
    hide Felt;
    FeltIs(s, task, e.(correctness := Correct, hintUsed := false), p);
    FeltIs(s, task, e.(correctness := Correct, hintUsed := true), p);
    FeltIs(s, task, e.(correctness := Other), p);
    FeltIs(s, task, e.(correctness := Partial), p);
    FeltIs(s, task, e.(correctness := Incorrect), p);
  }

  /** All else equal: two signs of frustration lower the mood and raise the arousal. */
  lemma FrustrationFelt(s: Zpd, task: TaskSpec, e: Evidence, p: Params, few: int, many: int)
    requires few < 2 <= many
    ensures var calm := Felt(s, task, e.(frustrationMarkers := few), p);
      var upset := Felt(s, task, e.(frustrationMarkers := many), p);
      && upset.valence <= calm.valence && upset.arousal >= calm.arousal && upset.salience == calm.salience
      && (InnerAffect(calm) && InnerAffect(upset) ==>
            calm.valence - upset.valence == 0.10 && upset.arousal - calm.arousal == 0.15)
  {
    hide Felt;
    FeltIs(s, task, e.(frustrationMarkers := few), p);
    FeltIs(s, task, e.(frustrationMarkers := many), p);
  }

  /** All else equal: being off task more than half the time lowers the salience, and nothing else. */
  lemma OffTaskFelt(s: Zpd, task: TaskSpec, e: Evidence, p: Params, on: real, off: real)
    requires on <= 0.5 < off
    ensures var calm := Felt(s, task, e.(offTaskRatio := on), p);
      var away := Felt(s, task, e.(offTaskRatio := off), p);
      && away.salience <= calm.salience && away.valence == calm.valence && away.arousal == calm.arousal
      && (InnerAffect(calm) && InnerAffect(away) ==> calm.salience - away.salience == 0.10)
  {
    hide Felt;
    FeltIs(s, task, e.(offTaskRatio := on), p);
    FeltIs(s, task, e.(offTaskRatio := off), p);
  }

  /**
   All else equal: a quick answer excites, one beyond half a minute dulls, and one beyond the threshold lowers
   the salience as well. A missing latency, or one of zero, counts as half a minute.
   */
  lemma PaceFelt(s: Zpd, task: TaskSpec, e: Evidence, p: Params, quick: real, usual: real, slow: real)
    requires quick != 0.0 && quick < 3.0 <= usual <= 30.0 < slow && usual <= p.latencyThreshold
    ensures var fast := Felt(s, task, e.(latency := Some(quick)), p);
      var steady := Felt(s, task, e.(latency := Some(usual)), p);
      var late := Felt(s, task, e.(latency := Some(slow)), p);
      && fast.arousal >= steady.arousal >= late.arousal
      && fast.salience == steady.salience >= late.salience
      && fast.valence == steady.valence == late.valence
      && (slow <= p.latencyThreshold ==> late.salience == steady.salience)
      && (InnerAffect(fast) && InnerAffect(steady) && InnerAffect(late) ==>
            && fast.arousal - steady.arousal == 0.05 && steady.arousal - late.arousal == 0.10
            && (slow > p.latencyThreshold ==> steady.salience - late.salience == 0.05))
    ensures Felt(s, task, e.(latency := None), p) == Felt(s, task, e.(latency := Some(0.0)), p)
         == Felt(s, task, e.(latency := Some(30.0)), p)
  {
    hide Felt;
    FeltIs(s, task, e.(latency := Some(quick)), p);
    FeltIs(s, task, e.(latency := Some(usual)), p);
    FeltIs(s, task, e.(latency := Some(slow)), p);
    FeltIs(s, task, e.(latency := None), p);
    FeltIs(s, task, e.(latency := Some(0.0)), p);
    FeltIs(s, task, e.(latency := Some(30.0)), p);
  }
}
