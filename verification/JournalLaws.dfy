/**
 Which turns of the journal are elevated, critical or of concern, told by the readings, deltas, baselines and
 thresholds alone, and what follows over runs.
 */
module JournalLaws {
  import opened Text
  import opened Journal

  // ---------------------------------------------------------------- what a turn shows

  /** The learned entry of a mentioned entity. */
  predicate Learned(turn: Turn, m: Mention, e: Entry) {
    turn.profile.Some? && m.entity in turn.profile.value.baseline && turn.profile.value.baseline[m.entity] == e
  }

  /** Nobody mentioned has an entry that is old enough for either check. */
  ghost predicate Cold(turn: Turn, t: Thresholds) {
    forall m <- turn.mentions, e | Learned(turn, m, e) ::
      e.sampleCount < t.minSamples && e.sampleCount < t.minShapeSamples
  }

  /** How far the delta takes an axis from its learned mean. */
  function Far(e: Entry, d: Signals, axis: Axis, t: Thresholds, f: Numerics): real {
    match axis
    case ValenceAxis => f.z(e.mean.valence + d.valence, e.mean.valence, e.variance.valence, t.varianceFloor)
    case ArousalAxis => f.z(e.mean.arousal + d.arousal, e.mean.arousal, e.variance.arousal, t.varianceFloor)
    case SalienceAxis => f.z(e.mean.salience + d.salience, e.mean.salience, e.variance.salience, t.varianceFloor)
  }

  function RunOf(e: Entry, axis: Axis): Rhythm {
    match axis case ValenceAxis => e.valence case ArousalAxis => e.arousal case SalienceAxis => e.salience
  }

  /** The run is longer than `k` times what the crossing rate, not below its floor, leads one to expect. */
  predicate TooLong(r: Rhythm, k: real, t: Thresholds) {
    var rate := if r.crossingRate > t.minCrossingRate then r.crossingRate else t.minCrossingRate;
    var length := if r.runLength >= 0 then r.runLength else -r.runLength;
    length as real * rate > k
  }

  ghost predicate BeyondEnvelope(e: Entry, d: Signals, k: real, t: Thresholds, f: Numerics) {
    e.sampleCount >= t.minSamples && exists axis :: Far(e, d, axis, t, f) > k
  }

  /** Valence is the axis that is furthest out, and too far. */
  ghost predicate ValenceBeyond(e: Entry, d: Signals, k: real, t: Thresholds, f: Numerics) {
    && e.sampleCount >= t.minSamples && Far(e, d, ValenceAxis, t, f) > k
    && forall axis :: Far(e, d, axis, t, f) <= Far(e, d, ValenceAxis, t, f)
  }

  ghost predicate BeyondRhythm(e: Entry, k: real, t: Thresholds) {
    e.sampleCount >= t.minShapeSamples && exists axis :: TooLong(RunOf(e, axis), k, t)
  }

  ghost predicate MentionsBeyond(turn: Turn, t: Thresholds, f: Numerics) {
    exists m <- turn.mentions, e | Learned(turn, m, e) ::
      BeyondEnvelope(e, m.delta, t.kSigmaTier1, t, f) || BeyondRhythm(e, t.kShapeTier1, t)
  }

  predicate PastLimits(turn: Turn, t: Thresholds) {
    turn.reading.arousal > t.arousalSpike || turn.reading.valence < t.valenceDrop
  }

  // ---------------------------------------------------------------- single checks

  lemma EnvelopeIs(turn: Turn, m: Mention, e: Entry, k: real, t: Thresholds, f: Numerics)
    requires Learned(turn, m, e)
    ensures var c := Envelope(turn, m, k, t, f);
      && (c.mature <==> e.sampleCount >= t.minSamples)
      && (c.triggered <==> BeyondEnvelope(e, m.delta, k, t, f))
      && (c.axis == Some(ValenceAxis) <==> ValenceBeyond(e, m.delta, k, t, f))
  {
    var seen := Observed(Some(e), m.delta, turn.reading);
    CheckIs(e, seen, m.delta, k, t, f);
  }

  lemma CheckIs(e: Entry, seen: Signals, d: Signals, k: real, t: Thresholds, f: Numerics)
    requires seen == Signals(e.mean.valence + d.valence, e.mean.arousal + d.arousal, e.mean.salience + d.salience)
    ensures var c := CheckEnvelope(Some(e), seen, k, t, f);
      && (c.mature <==> e.sampleCount >= t.minSamples)
      && (c.triggered <==> BeyondEnvelope(e, d, k, t, f))
      && (c.axis == Some(ValenceAxis) <==> ValenceBeyond(e, d, k, t, f))
  {
    forall axis ensures Distance(e, seen, axis, t, f) == Far(e, d, axis, t, f) {}
    EnvelopeNamesFurthest(e, seen, k, t, f);
    hide CheckEnvelope, Distance, Far;
  }

  lemma ShapeIs(turn: Turn, m: Mention, e: Entry, axis: Axis, k: real, t: Thresholds)
    requires Learned(turn, m, e)
    ensures var s := ShapeOf(turn, m, axis, k, t);
      && (s.mature <==> e.sampleCount >= t.minShapeSamples)
      && (s.triggered <==> s.mature && TooLong(RunOf(e, axis), k, t))
      && (s.downward <==> s.triggered && RunOf(e, axis).runLength <= 0)
  {
    var r := RunOf(e, axis);
    var rate := if t.minCrossingRate > r.crossingRate then t.minCrossingRate else r.crossingRate;
    var length := (if r.runLength < 0 then -r.runLength else r.runLength) as real;
    Multiplied(length, rate, k);
  }

  lemma Multiplied(x: real, rate: real, k: real)
    requires rate > 0.0
    ensures x > 1.0 / rate * k <==> x * rate > k
  {
    var y := 1.0 / rate;
    assert y * rate == 1.0;
    assert (x - y * k) * rate == x * rate - k;
    if x > y * k {
      assert (x - y * k) * rate > 0.0;
    } else {
      assert (y * k - x) * rate >= 0.0;
    }
  }

  lemma Unlearned(turn: Turn, m: Mention, k: real, t: Thresholds, f: Numerics)
    requires forall e :: !Learned(turn, m, e)
    ensures !Envelope(turn, m, k, t, f).mature && !Envelope(turn, m, k, t, f).triggered
    ensures Envelope(turn, m, k, t, f).axis.None?
    ensures forall axis :: !ShapeOf(turn, m, axis, k, t).mature && !ShapeOf(turn, m, axis, k, t).downward
  {
    if turn.profile.Some? && m.entity in turn.profile.value.baseline {
      assert Learned(turn, m, turn.profile.value.baseline[m.entity]);
    }
  }

  lemma AllAxes(axis: Axis)
    ensures axis in AXES
  {
    assert AXES[0] == ValenceAxis && AXES[1] == ArousalAxis && AXES[2] == SalienceAxis;
  }

  // ---------------------------------------------------------------- which turns are elevated

  lemma ColdIs(turn: Turn, t: Thresholds, f: Numerics)
    ensures Cold(turn, t) <==> !AnyMature(turn, t, f)
  {
    hide Envelope, ShapeOf, BeyondEnvelope, ValenceBeyond, TooLong, Learned;
    forall m <- turn.mentions ensures
      (exists e | Learned(turn, m, e) :: e.sampleCount >= t.minSamples || e.sampleCount >= t.minShapeSamples)
      <==> Envelope(turn, m, t.kSigmaTier1, t, f).mature
           || exists a <- AXES :: ShapeOf(turn, m, a, t.kShapeTier1, t).mature
    {
      MatureIs(turn, m, t, f);
    }
  }

  lemma MatureIs(turn: Turn, m: Mention, t: Thresholds, f: Numerics)
    ensures (exists e | Learned(turn, m, e) :: e.sampleCount >= t.minSamples || e.sampleCount >= t.minShapeSamples)
            <==> Envelope(turn, m, t.kSigmaTier1, t, f).mature
                 || exists a <- AXES :: ShapeOf(turn, m, a, t.kShapeTier1, t).mature
  {
    hide Envelope, ShapeOf, BeyondEnvelope, ValenceBeyond, TooLong;
    if e :| Learned(turn, m, e) {
      EnvelopeIs(turn, m, e, t.kSigmaTier1, t, f);
      AllAxes(ValenceAxis);
      forall a ensures ShapeOf(turn, m, a, t.kShapeTier1, t).mature <==> e.sampleCount >= t.minShapeSamples {
        ShapeIs(turn, m, e, a, t.kShapeTier1, t);
      }
      assert ShapeOf(turn, m, ValenceAxis, t.kShapeTier1, t).mature <==> e.sampleCount >= t.minShapeSamples;
    } else {
      Unlearned(turn, m, t.kSigmaTier1, t, f);
      Unlearned(turn, m, t.kShapeTier1, t, f);
    }
  }

  lemma BeyondIs(turn: Turn, m: Mention, t: Thresholds, f: Numerics)
    ensures (exists e | Learned(turn, m, e) ::
               BeyondEnvelope(e, m.delta, t.kSigmaTier1, t, f) || BeyondRhythm(e, t.kShapeTier1, t))
            <==> Envelope(turn, m, t.kSigmaTier1, t, f).triggered
                 || exists a <- AXES :: ShapeOf(turn, m, a, t.kShapeTier1, t).triggered
  {
    hide Envelope, ShapeOf, BeyondEnvelope, ValenceBeyond, TooLong;
    if e :| Learned(turn, m, e) {
      EnvelopeIs(turn, m, e, t.kSigmaTier1, t, f);
      forall a ensures a in AXES
        && (ShapeOf(turn, m, a, t.kShapeTier1, t).triggered <==>
              e.sampleCount >= t.minShapeSamples && TooLong(RunOf(e, a), t.kShapeTier1, t))
      {
        AllAxes(a);
        ShapeIs(turn, m, e, a, t.kShapeTier1, t);
      }
    } else {
      Unlearned(turn, m, t.kSigmaTier1, t, f);
      Unlearned(turn, m, t.kShapeTier1, t, f);
    }
  }

  /**
   A turn is elevated if and only if it takes some mentioned entity out of its learned envelope or rhythm or,
   when nobody mentioned is known well enough, its own reading is past the limits.
   */
  lemma ElevatedMeans(turn: Turn, t: Thresholds, f: Numerics)
    ensures Elevated(turn, t, f) <==> MentionsBeyond(turn, t, f) || (Cold(turn, t) && PastLimits(turn, t))
  {
    hide Envelope, ShapeOf, BeyondEnvelope, BeyondRhythm, Learned, AnyMature, Cold;
    ColdIs(turn, t, f);
    forall m <- turn.mentions ensures
      (exists e | Learned(turn, m, e) ::
         BeyondEnvelope(e, m.delta, t.kSigmaTier1, t, f) || BeyondRhythm(e, t.kShapeTier1, t))
      <==> Envelope(turn, m, t.kSigmaTier1, t, f).triggered
           || exists a <- AXES :: ShapeOf(turn, m, a, t.kShapeTier1, t).triggered
    {
      BeyondIs(turn, m, t, f);
    }
  }

  // ---------------------------------------------------------------- runs

  /** How many tier-1 turns a turn adds to the count behind a run. */
  function Added(turns: seq<Turn>, turn: Turn, sessions: int, t: Thresholds, f: Numerics): int {
    After(turns + [turn], sessions, t, f).tier1Count - After(turns, sessions, t, f).tier1Count
  }

  /** Behind any run, a turn after the warm-up counts if and only if it shows one of these; no warm-up turn does. */
  lemma TurnCountsIff(turns: seq<Turn>, turn: Turn, sessions: int, t: Thresholds, f: Numerics)
    ensures var shows := MentionsBeyond(turn, t, f) || (Cold(turn, t) && PastLimits(turn, t));
      && Added(turns, turn, sessions, t, f) == (if turn.warmupRemaining <= 0 && shows then 1 else 0)
      && (turn.warmupRemaining <= 0 ==>
            After(turns + [turn], sessions, t, f).sustained
            == if shows then After(turns, sessions, t, f).sustained + 1 else 0)
  {
    hide MentionsBeyond, Cold, PastLimits, Elevated, Step;
    assert (turns + [turn])[..|turns|] == turns;
    StepFields(After(turns, sessions, t, f), turn, t, f);
    ElevatedMeans(turn, t, f);
  }

  /** While nobody mentioned is known well enough, a turn counts exactly when its own reading is past a limit. */
  lemma ColdTurnCountsIff(turns: seq<Turn>, turn: Turn, sessions: int, t: Thresholds, f: Numerics)
    requires turn.warmupRemaining <= 0 && Cold(turn, t)
    ensures Added(turns, turn, sessions, t, f)
            == if turn.reading.arousal > t.arousalSpike || turn.reading.valence < t.valenceDrop then 1 else 0
  {
    hide Added, BeyondEnvelope, BeyondRhythm, Learned;
    TurnCountsIff(turns, turn, sessions, t, f);
    if MentionsBeyond(turn, t, f) {
      var m, e :| m in turn.mentions && Learned(turn, m, e)
        && (BeyondEnvelope(e, m.delta, t.kSigmaTier1, t, f) || BeyondRhythm(e, t.kShapeTier1, t));
      TooYoung(e, m.delta, t, f);
    }
  }

  lemma TooYoung(e: Entry, d: Signals, t: Thresholds, f: Numerics)
    requires e.sampleCount < t.minSamples && e.sampleCount < t.minShapeSamples
    ensures !BeyondEnvelope(e, d, t.kSigmaTier1, t, f) && !BeyondRhythm(e, t.kShapeTier1, t)
  {}

  /** Lowering the valence of such a turn, or raising its arousal, never makes it calm. */
  lemma WorseIsNoCalmer(turns: seq<Turn>, turn: Turn, reading: Signals, sessions: int, t: Thresholds, f: Numerics)
    requires turn.warmupRemaining <= 0 && Cold(turn, t)
    requires reading.valence <= turn.reading.valence && reading.arousal >= turn.reading.arousal
    ensures Added(turns, turn, sessions, t, f) <= Added(turns, turn.(reading := reading), sessions, t, f)
  {
    hide Added;
    var worse := turn.(reading := reading);
    assert Cold(worse, t) by {
      forall m <- worse.mentions, e | Learned(worse, m, e) ensures Learned(turn, m, e) {}
    }
    ColdTurnCountsIff(turns, turn, sessions, t, f);
    ColdTurnCountsIff(turns, worse, sessions, t, f);
  }

  /** Once somebody mentioned is known well enough, the reading itself does not matter. */
  lemma KnownTurnCountsIff(turns: seq<Turn>, turn: Turn, sessions: int, t: Thresholds, f: Numerics)
    requires turn.warmupRemaining <= 0 && !Cold(turn, t)
    ensures Added(turns, turn, sessions, t, f) == if MentionsBeyond(turn, t, f) then 1 else 0
  {
    hide Added, MentionsBeyond, Cold, PastLimits;
    TurnCountsIff(turns, turn, sessions, t, f);
  }

  predicate Quiet(turn: Turn, t: Thresholds) {
    && turn.mentions == [] && turn.reading.arousal <= t.arousalSpike
    && turn.reading.valence >= t.valenceDrop && turn.reading.valence >= t.valenceFloor
  }

  /** A run that mentions nobody and stays within the limits decides "ok" on every turn. */
  lemma QuietRunIsOk(turns: seq<Turn>, i: nat, sessions: int, t: Thresholds, f: Numerics)
    requires t.tier2Sustained > 0 && t.tier2Relational > 0 && i < |turns|
    requires forall turn <- turns :: Quiet(turn, t)
    ensures DecisionAt(turns, i, sessions, t, f).tier == Ok
  {
    hide Step, Elevated, Critical;
    assert turns[i] in turns;
    assert forall turn <- turns[..i] :: turn in turns;
    QuietRun(turns[..i], sessions, t, f);
    QuietStep(After(turns[..i], sessions, t, f), turns[i], t, f);
  }

  lemma {:induction false} QuietRun(turns: seq<Turn>, sessions: int, t: Thresholds, f: Numerics)
    requires t.tier2Sustained > 0 && t.tier2Relational > 0
    requires forall turn <- turns :: Quiet(turn, t)
    ensures var v := After(turns, sessions, t, f); v.entities == map[] && v.sustained == 0
  {
    hide Step, Elevated, Critical;
    if turns != [] {
      var n := |turns| - 1;
      assert turns[n] in turns && forall turn <- turns[..n] :: turn in turns;
      QuietRun(turns[..n], sessions, t, f);
      QuietStep(After(turns[..n], sessions, t, f), turns[n], t, f);
    }
  }

  lemma QuietStep(v: View, turn: Turn, t: Thresholds, f: Numerics)
    requires v.entities == map[] && v.sustained == 0 && t.tier2Sustained > 0 && t.tier2Relational > 0
    requires Quiet(turn, t)
    ensures var (v', d) := Step(v, turn, t, f); d.tier == Ok && v'.entities == map[] && v'.sustained == 0
  {
    hide Elevated, Critical, Concern;
    ElevatedMeans(turn, t, f);
    CriticalMeans(turn, t, f);
    assert Concerns(map[], turn, t, f) == {};
  }

  // ---------------------------------------------------------------- which turns are critical

  /** What about a mention asks for the safe person: a fall too far out, or a falling run too long. */
  ghost predicate FallsBeyond(turn: Turn, m: Mention, t: Thresholds, f: Numerics) {
    exists e | Learned(turn, m, e) ::
      || (m.delta.valence < 0.0 && ValenceBeyond(e, m.delta, t.kSigmaTier3, t, f))
      || (e.sampleCount >= t.minShapeSamples && e.valence.runLength <= 0 && TooLong(e.valence, t.kShapeTier3, t))
  }

  lemma FallsBeyondIs(turn: Turn, m: Mention, t: Thresholds, f: Numerics)
    ensures FallsBeyond(turn, m, t, f) <==> BelowEnvelope(turn, m, t, f) || FallingRun(turn, m, t)
  {
    hide Envelope, ShapeOf, ValenceBeyond, BeyondEnvelope, TooLong;
    if e :| Learned(turn, m, e) {
      EnvelopeIs(turn, m, e, t.kSigmaTier3, t, f);
      ShapeIs(turn, m, e, ValenceAxis, t.kShapeTier3, t);
    } else {
      Unlearned(turn, m, t.kSigmaTier3, t, f);
      Unlearned(turn, m, t.kShapeTier3, t, f);
    }
  }

  /** A turn is critical iff a mention falls too far or too long or, without baselines, the reading is low. */
  lemma CriticalMeans(turn: Turn, t: Thresholds, f: Numerics)
    ensures Critical(turn, t, f) <==>
            || (exists m <- turn.mentions :: FallsBeyond(turn, m, t, f))
            || (Cold(turn, t) && turn.reading.valence < t.valenceFloor)
  {
    hide BelowEnvelope, FallingRun, FallsBeyond, Cold, AnyMature;
    ColdIs(turn, t, f);
    forall m <- turn.mentions
      ensures FallsBeyond(turn, m, t, f) <==> BelowEnvelope(turn, m, t, f) || FallingRun(turn, m, t)
    {
      FallsBeyondIs(turn, m, t, f);
    }
  }

  /** The turn on which tier 3 fires shows one of these, and names a safe person who accepted. */
  lemma AlertHasCause(turns: seq<Turn>, i: nat, sessions: int, t: Thresholds, f: Numerics)
    requires i < |turns| && DecisionAt(turns, i, sessions, t, f).tier == Tier3
    ensures || (exists m <- turns[i].mentions :: FallsBeyond(turns[i], m, t, f))
            || (Cold(turns[i], t) && turns[i].reading.valence < t.valenceFloor)
    ensures turns[i].warmupRemaining <= 0 && turns[i].profile.Some? && turns[i].profile.value.handshake
  {
    hide DecisionAt, FallsBeyond, Cold, Critical;
    Tier3FiresFirst(turns, i, sessions, t, f);
    CriticalMeans(turns[i], t, f);
  }

  // ---------------------------------------------------------------- which entities are of concern

  /** An entity is of concern by its learned envelope if it is known well enough, and else by its mean valence. */
  lemma ConcernMeans(turn: Turn, entity: string, s: Stored, t: Thresholds, f: Numerics)
    ensures var known := turn.profile.Some? && entity in turn.profile.value.baseline
                         && turn.profile.value.baseline[entity].sampleCount >= t.minSamples;
      && (known ==> (Concern(turn, entity, s, t, f) <==>
                       ValenceBeyond(turn.profile.value.baseline[entity], s.mean, t.kSigmaTier1, t, f)))
      && (!known ==> (Concern(turn, entity, s, t, f) <==> s.mean.valence < t.valenceDrop))
  {
    hide CheckEnvelope, ValenceBeyond, BeyondEnvelope;
    if turn.profile.Some? && entity in turn.profile.value.baseline {
      var e := turn.profile.value.baseline[entity];
      CheckIs(e, Observed(Some(e), s.mean, turn.reading), s.mean, t.kSigmaTier1, t, f);
    }
  }

  // ---------------------------------------------------------------- what is recorded

  /** The record of the alert, field by field. */
  lemma RecordOfAlert(turns: seq<Turn>, i: nat, sessions: int, t: Thresholds, f: Numerics)
    requires i < |turns| && DecisionAt(turns, i, sessions, t, f).tier == Tier3 && turns[i].persistence
    ensures turns[i].profile.Some?
    ensures var records, turn := After(turns, sessions, t, f).escalations, turns[i];
      && |records| == 1
      && records[0].target == turn.profile.value.safePerson
      && records[0].reading.valence == f.round4(turn.reading.valence)
      && records[0].reading.arousal == f.round4(turn.reading.arousal)
      && records[0].reading.salience == f.round4(turn.reading.salience)
      && records[0].sessions == sessions
      && (records[0].tier2Count == 1 <==> FiredBefore(turns, i, Tier2, sessions, t, f))
      && records[0].tier2Count in {0, 1}
  {
    hide After, DecisionAt, Live, ElevatedTurns, FiredBefore;
    EscalationTellsHistory(turns, i, sessions, t, f);
  }
}
