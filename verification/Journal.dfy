/**
 The journal's intervention cascade (model-packs/education/controllers/journal_adapters.py) with the two
 baseline checks it calls (model-packs/assistant/domain-lib/affect_monitor.py), as a machine over turns.
 */
module Journal {
  import opened Text

  // ---------------------------------------------------------------- inputs

  datatype Signals = Signals(valence: real, arousal: real, salience: real)

  /** One entity of `entity_mentions` with its deltas; a delta that is absent is read as 0. */
  datatype Mention = Mention(entity: string, delta: Signals)

  datatype Rhythm = Rhythm(crossingRate: real, runLength: int)

  /** An entry of the relational baseline. */
  datatype Entry = Entry(mean: Signals, variance: Signals, sampleCount: int,
                         valence: Rhythm, arousal: Rhythm, salience: Rhythm)

  /** An unassigned safe person is the empty string. */
  datatype Profile = Profile(baseline: map<string, Entry>, safePerson: string, handshake: bool)

  /** `persistence`: there is both an adapter and a session to write a record to. */
  datatype Turn = Turn(reading: Signals, mentions: seq<Mention>, warmupRemaining: int,
                       profile: Option<Profile>, advisory: Option<string>, persistence: bool)
  {
    predicate WarmUp() { warmupRemaining > 0 }

    function Baseline(entity: string): Option<Entry> {
      if profile.Some? && entity in profile.value.baseline then Some(profile.value.baseline[entity]) else None
    }

    predicate SafePersonReady() { profile.Some? && profile.value.safePerson != "" && profile.value.handshake }

    predicate OffersAdvisory() { profile.Some? && advisory.Some? }
  }

  datatype RawThresholds = Thresholds(
    kSigmaTier1: real, kSigmaTier3: real, minSamples: int, varianceFloor: real,
    kShapeTier1: real, kShapeTier3: real, minShapeSamples: int, minCrossingRate: real,
    arousalSpike: real, valenceDrop: real, valenceFloor: real,
    tier2Sustained: int, tier2Relational: int, tier3CrossSessions: int)

  const DEFAULTS := Thresholds(2.0, 3.0, 5, 0.001, 2.0, 3.0, 10, 0.05, 0.35, -0.30, -0.60, 3, 2, 2)

  /** The floor on the crossing rate keeps the expected run length from dividing by zero. */
  type Thresholds = t: RawThresholds | t.minCrossingRate > 0.0 witness DEFAULTS

  /** The distance of an observation from a mean, given the variance and its floor; and `round(x, 4)`. */
  datatype Numerics = Numerics(z: (real, real, real, real) -> real, round4: real -> real) {
    function Rounded(s: Signals): Signals {
      Signals(round4(s.valence), round4(s.arousal), round4(s.salience))
    }
  }

  // ---------------------------------------------------------------- the two baseline checks

  datatype Axis = ValenceAxis | ArousalAxis | SalienceAxis

  datatype Check = Check(triggered: bool, axis: Option<Axis>, mature: bool)

  /** `check_relational_deviation`: the first axis with the largest distance. */
  function CheckEnvelope(entry: Option<Entry>, seen: Signals, k: real, t: Thresholds, f: Numerics): (c: Check)
    ensures c.triggered ==> c.mature && c.axis.Some?
  {
    if entry.None? || entry.value.sampleCount < t.minSamples then Check(false, None, false)
    else
      var e := entry.value;
      var zv := f.z(seen.valence, e.mean.valence, e.variance.valence, t.varianceFloor);
      var za := f.z(seen.arousal, e.mean.arousal, e.variance.arousal, t.varianceFloor);
      var zs := f.z(seen.salience, e.mean.salience, e.variance.salience, t.varianceFloor);
      var (axis, worst) := if zv >= za && zv >= zs then (ValenceAxis, zv)
                           else if za >= zs then (ArousalAxis, za) else (SalienceAxis, zs);
      Check(worst > k, if worst > k then Some(axis) else None, true)
  }

  function Distance(e: Entry, seen: Signals, axis: Axis, t: Thresholds, f: Numerics): real {
    match axis
    case ValenceAxis => f.z(seen.valence, e.mean.valence, e.variance.valence, t.varianceFloor)
    case ArousalAxis => f.z(seen.arousal, e.mean.arousal, e.variance.arousal, t.varianceFloor)
    case SalienceAxis => f.z(seen.salience, e.mean.salience, e.variance.salience, t.varianceFloor)
  }

  /** A check fires iff the entry is old enough and some axis is further out than `k`; it names the furthest. */
  lemma EnvelopeNamesFurthest(e: Entry, seen: Signals, k: real, t: Thresholds, f: Numerics)
    ensures var c := CheckEnvelope(Some(e), seen, k, t, f);
      && (c.mature <==> e.sampleCount >= t.minSamples)
      && (c.triggered <==> c.mature && exists axis :: Distance(e, seen, axis, t, f) > k)
      && (c.axis.Some? <==> c.triggered)
      && (c.triggered ==> forall axis :: Distance(e, seen, axis, t, f) <= Distance(e, seen, c.axis.value, t, f))
      && (c.triggered && c.axis.value != ValenceAxis ==>
            Distance(e, seen, ValenceAxis, t, f) < Distance(e, seen, c.axis.value, t, f))
  {
    var c := CheckEnvelope(Some(e), seen, k, t, f);
    if c.triggered {
      assert Distance(e, seen, c.axis.value, t, f) > k;
    }
  }

  /** The distance looks at the observation and the mean only through their difference. */
  ghost predicate ByResidual(f: Numerics, d: (real, real, real) -> real) {
    forall o, m, v, w :: f.z(o, m, v, w) == d(o - m, v, w)
  }

  /** With a distance that only looks at the residual, a mention is judged on its deltas alone. */
  lemma EnvelopeSeesDeltas(e: Entry, mean: Signals, delta: Signals, reading: Signals, reading': Signals, k: real,
                           t: Thresholds, f: Numerics, d: (real, real, real) -> real)
    requires ByResidual(f, d)
    ensures CheckEnvelope(Some(e), Observed(Some(e), delta, reading), k, t, f)
         == CheckEnvelope(Some(e.(mean := mean)), Observed(Some(e.(mean := mean)), delta, reading'), k, t, f)
  {
    hide ByResidual;
    Residual(e.mean.valence, mean.valence, delta.valence, e.variance.valence, t, f, d);
    Residual(e.mean.arousal, mean.arousal, delta.arousal, e.variance.arousal, t, f, d);
    Residual(e.mean.salience, mean.salience, delta.salience, e.variance.salience, t, f, d);
  }

  lemma Residual(m: real, n: real, delta: real, variance: real, t: Thresholds, f: Numerics,
                 d: (real, real, real) -> real)
    requires ByResidual(f, d)
    ensures f.z(m + delta, m, variance, t.varianceFloor) == f.z(n + delta, n, variance, t.varianceFloor)
  {
    assert (m + delta) - m == delta == (n + delta) - n;
  }

  datatype Shape = Shape(triggered: bool, downward: bool, mature: bool)

  /** `check_shape_deviation`: a run longer than `k` times the expected run length. */
  function CheckShape(r: Rhythm, sampleCount: int, k: real, t: Thresholds): (s: Shape)
    ensures s.triggered ==> s.mature
    ensures s.mature <==> sampleCount >= t.minShapeSamples
    ensures s.downward ==> s.triggered && r.runLength <= 0
    ensures s.triggered && k >= 0.0 ==> r.runLength != 0 && (s.downward <==> r.runLength < 0)
  {
    if sampleCount < t.minShapeSamples then Shape(false, false, false)
    else
      var rate := if t.minCrossingRate > r.crossingRate then t.minCrossingRate else r.crossingRate;
      var triggered := (if r.runLength < 0 then -r.runLength else r.runLength) as real > 1.0 / rate * k;
      Shape(triggered, triggered && r.runLength <= 0, true)
  }

  function AxisRhythm(e: Entry, axis: Axis): Rhythm {
    match axis case ValenceAxis => e.valence case ArousalAxis => e.arousal case SalienceAxis => e.salience
  }

  const AXES := [ValenceAxis, ArousalAxis, SalienceAxis]

  function Observed(entry: Option<Entry>, delta: Signals, reading: Signals): Signals {
    if entry.None? then reading
    else var m := entry.value.mean;
         Signals(m.valence + delta.valence, m.arousal + delta.arousal, m.salience + delta.salience)
  }

  // ---------------------------------------------------------------- what one turn says

  function Envelope(turn: Turn, m: Mention, k: real, t: Thresholds, f: Numerics): Check {
    var entry := turn.Baseline(m.entity);
    CheckEnvelope(entry, Observed(entry, m.delta, turn.reading), k, t, f)
  }

  function ShapeOf(turn: Turn, m: Mention, axis: Axis, k: real, t: Thresholds): (s: Shape)
    ensures s.triggered ==> s.mature
  {
    var entry := turn.Baseline(m.entity);
    if entry.None? then Shape(false, false, false)
    else CheckShape(AxisRhythm(entry.value, axis), entry.value.sampleCount, k, t)
  }

  predicate EnvelopeBroken(turn: Turn, t: Thresholds, f: Numerics) {
    exists m <- turn.mentions :: Envelope(turn, m, t.kSigmaTier1, t, f).triggered
  }

  predicate ShapeBroken(turn: Turn, t: Thresholds) {
    exists m <- turn.mentions, a <- AXES :: ShapeOf(turn, m, a, t.kShapeTier1, t).triggered
  }

  /** Some mentioned entity has a baseline old enough for one of the checks. */
  predicate AnyMature(turn: Turn, t: Thresholds, f: Numerics) {
    || (exists m <- turn.mentions :: Envelope(turn, m, t.kSigmaTier1, t, f).mature)
    || (exists m <- turn.mentions, a <- AXES :: ShapeOf(turn, m, a, t.kShapeTier1, t).mature)
  }

  /** A tier-1 turn: outside the learned envelope or rhythm, or past the cold-start thresholds. */
  predicate Elevated(turn: Turn, t: Thresholds, f: Numerics) {
    || EnvelopeBroken(turn, t, f)
    || ShapeBroken(turn, t)
    || (!AnyMature(turn, t, f) && (turn.reading.arousal > t.arousalSpike || turn.reading.valence < t.valenceDrop))
  }

  predicate BelowEnvelope(turn: Turn, m: Mention, t: Thresholds, f: Numerics) {
    var entry := turn.Baseline(m.entity);
    && entry.Some?
    && Envelope(turn, m, t.kSigmaTier3, t, f).axis == Some(ValenceAxis)
    && m.delta.valence < 0.0
  }

  predicate FallingRun(turn: Turn, m: Mention, t: Thresholds) {
    ShapeOf(turn, m, ValenceAxis, t.kShapeTier3, t).downward
  }

  /** The valence test of tier 3. */
  predicate Critical(turn: Turn, t: Thresholds, f: Numerics) {
    || (exists m <- turn.mentions :: BelowEnvelope(turn, m, t, f))
    || (!AnyMature(turn, t, f) && turn.reading.valence < t.valenceFloor)
    || (exists m <- turn.mentions :: FallingRun(turn, m, t))
  }

  /** Everything tier 3 asks of a turn itself, apart from the latch. */
  predicate Tier3Due(turn: Turn, sessions: int, t: Thresholds, f: Numerics) {
    !turn.WarmUp() && Critical(turn, t, f) && sessions >= t.tier3CrossSessions && turn.SafePersonReady()
  }

  // ---------------------------------------------------------------- the state

  /** The stored signals of an entity: two running means, the first salience, and the number of turns. */
  datatype Stored = Stored(mean: Signals, turns: nat)

  function Mentioned(entities: map<string, Stored>, m: Mention): map<string, Stored> {
    if m.entity !in entities then entities[m.entity := Stored(m.delta, 1)]
    else
      var was := entities[m.entity];
      var n := was.turns + 1;
      var mean :=
        Signals((was.mean.valence * (n - 1) as real + m.delta.valence) / n as real,
                (was.mean.arousal * (n - 1) as real + m.delta.arousal) / n as real, was.mean.salience);
      entities[m.entity := Stored(mean, n)]
  }

  function Accumulated(entities: map<string, Stored>, mentions: seq<Mention>): map<string, Stored> {
    if mentions == [] then entities
    else Mentioned(Accumulated(entities, mentions[..|mentions| - 1]), mentions[|mentions| - 1])
  }

  predicate Concern(turn: Turn, entity: string, s: Stored, t: Thresholds, f: Numerics) {
    var entry := turn.Baseline(entity);
    if entry.Some? && entry.value.sampleCount >= t.minSamples then
      CheckEnvelope(entry, Observed(entry, s.mean, turn.reading), t.kSigmaTier1, t, f).axis == Some(ValenceAxis)
    else s.mean.valence < t.valenceDrop
  }

  function Concerns(entities: map<string, Stored>, turn: Turn, t: Thresholds, f: Numerics): set<string> {
    set h | h in entities && Concern(turn, h, entities[h], t, f)
  }

  /** `sessions` is `cross_session_elevation_count`, which no code writes. */
  datatype View = View(entities: map<string, Stored>, sustained: int, tier1Count: int, sessions: int,
                       optInPending: bool, safePersonAlerted: bool, advisorySurfaced: bool,
                       escalations: seq<Escalation>)

  /** The aggregates an escalation record carries, and whom it is for. */
  datatype Escalation = Escalation(target: string, reading: Signals, tier1Count: int, tier2Count: int,
                                   sessions: int)

  datatype Tier = Ok | Tier1 | Tier2 | Tier3

  datatype Decision = Decision(tier: Tier, warmupGate: bool, advisory: Option<string>)

  /** The state of a new module, apart from the cross-session count that its configuration gives. */
  function Fresh(sessions: int): View {
    View(map[], 0, 0, sessions, false, false, false, [])
  }

  /** The count in `initial_module_state`. */
  const SHIPPED_SESSIONS := 0

  /** What `journal_domain_step` makes of the state, in one expression per field. */
  function Step(v: View, turn: Turn, t: Thresholds, f: Numerics): (View, Decision) {
    var advisory := if turn.OffersAdvisory() && !v.advisorySurfaced then turn.advisory else None;
    var w := v.(entities := Accumulated(v.entities, turn.mentions),
                advisorySurfaced := v.advisorySurfaced || advisory.Some?);
    if turn.WarmUp() then (w, Decision(Ok, true, advisory))
    else
      var elevated := Elevated(turn, t, f);
      var (u, tier) := Settle(w.(sustained := if elevated then v.sustained + 1 else 0,
                                 tier1Count := v.tier1Count + if elevated then 1 else 0), elevated, turn, t, f);
      (u, Decision(tier, false, advisory))
  }

  /** The decision cascade, once the counters are updated. */
  function Settle(u: View, elevated: bool, turn: Turn, t: Thresholds, f: Numerics): (View, Tier) {
    if !u.safePersonAlerted && Tier3Due(turn, u.sessions, t, f) then
      (u.(safePersonAlerted := true, escalations := u.escalations + Records(u, turn, f)), Tier3)
    else if !u.optInPending
            && (u.sustained >= t.tier2Sustained || |Concerns(u.entities, turn, t, f)| >= t.tier2Relational) then
      (u.(optInPending := true), Tier2)
    else (u, if elevated then Tier1 else Ok)
  }

  /** `_create_wellness_escalation`: nothing is written without a persistence adapter. */
  function Records(u: View, turn: Turn, f: Numerics): seq<Escalation>
    requires turn.SafePersonReady()
  {
    if !turn.persistence then []
    else [Escalation(turn.profile.value.safePerson, f.Rounded(turn.reading), u.tier1Count,
                     if u.optInPending then 1 else 0, u.sessions)]
  }

  // ---------------------------------------------------------------- the implementation

  /** The module state, mutated in place, with the records its escalations were written to. */
  class State {
    var entities: map<string, Stored>
    var sustained: int
    var tier1Count: int
    var sessions: int
    var optInPending: bool
    var safePersonAlerted: bool
    var advisorySurfaced: bool
    var escalations: seq<Escalation>

    function Now(): View
      reads this
    {
      View(entities, sustained, tier1Count, sessions, optInPending, safePersonAlerted, advisorySurfaced, escalations)
    }

    constructor (sessions: int)
      ensures Now() == Fresh(sessions)
    {
      entities, sustained, tier1Count, this.sessions, escalations := map[], 0, 0, sessions, [];
      optInPending, safePersonAlerted, advisorySurfaced := false, false, false;
    }

    method Accumulate(mentions: seq<Mention>)
      modifies this`entities
      ensures entities == Accumulated(old(entities), mentions)
    {
      for i := 0 to |mentions|
        invariant entities == Accumulated(old(entities), mentions[..i])
      {
        entities := Mentioned(entities, mentions[i]);
        assert mentions[..i + 1][..i] == mentions[..i];
      }
      assert mentions[..|mentions|] == mentions;
    }

    /** The tier-1 tests in order, each reached only when the earlier ones did not fire. */
    static method TierOne(turn: Turn, t: Thresholds, f: Numerics) returns (elevated: bool, mature: bool)
      ensures elevated == Elevated(turn, t, f)
      ensures mature == AnyMature(turn, t, f)
    {
      hide CheckEnvelope, CheckShape, ShapeOf;
      elevated, mature := EnvelopeLoop(turn, t, f);
      if !elevated {
        var shape, shapeMature := ShapeLoop(turn, t);
        elevated, mature := shape, mature || shapeMature;
      }
      if !elevated && !mature {
        elevated := turn.reading.arousal > t.arousalSpike || turn.reading.valence < t.valenceDrop;
      }
    }

    static method EnvelopeLoop(turn: Turn, t: Thresholds, f: Numerics) returns (broken: bool, mature: bool)
      ensures broken == EnvelopeBroken(turn, t, f)
      ensures mature == exists m <- turn.mentions :: Envelope(turn, m, t.kSigmaTier1, t, f).mature
    {
      broken, mature := false, false;
      for i := 0 to |turn.mentions|
        invariant !broken
        invariant forall m <- turn.mentions[..i] :: !Envelope(turn, m, t.kSigmaTier1, t, f).triggered
        invariant mature == exists m <- turn.mentions[..i] :: Envelope(turn, m, t.kSigmaTier1, t, f).mature
      {
        var check := Envelope(turn, turn.mentions[i], t.kSigmaTier1, t, f);
        mature := mature || check.mature;
        if check.triggered {
          broken := true;
          break;
        }
        assert turn.mentions[..i + 1] == turn.mentions[..i] + [turn.mentions[i]];
      }
      assert turn.mentions[..|turn.mentions|] == turn.mentions;
    }

    static method ShapeLoop(turn: Turn, t: Thresholds) returns (broken: bool, mature: bool)
      ensures broken == ShapeBroken(turn, t)
      ensures mature == exists m <- turn.mentions, a <- AXES :: ShapeOf(turn, m, a, t.kShapeTier1, t).mature
    {
      hide ShapeOf;
      broken, mature := false, false;
      for i := 0 to |turn.mentions|
        invariant !broken
        invariant forall m <- turn.mentions[..i], a <- AXES :: !ShapeOf(turn, m, a, t.kShapeTier1, t).triggered
        invariant mature == exists m <- turn.mentions[..i], a <- AXES :: ShapeOf(turn, m, a, t.kShapeTier1, t).mature
      {
        ghost var before := mature;
        var m := turn.mentions[i];
        for j := 0 to |AXES|
          invariant !broken
          invariant forall a <- AXES[..j] :: !ShapeOf(turn, m, a, t.kShapeTier1, t).triggered
          invariant mature == (before || exists a <- AXES[..j] :: ShapeOf(turn, m, a, t.kShapeTier1, t).mature)
        {
          var shape := ShapeOf(turn, m, AXES[j], t.kShapeTier1, t);
          mature := mature || shape.mature;
          if shape.triggered {
            broken := true;
            break;
          }
          assert AXES[..j + 1] == AXES[..j] + [AXES[j]];
        }
        if broken { break; }
        assert AXES[..|AXES|] == AXES;
        assert turn.mentions[..i + 1] == turn.mentions[..i] + [m];
      }
      assert turn.mentions[..|turn.mentions|] == turn.mentions;
    }

    /** The valence test of tier 3: the envelope, the cold-start floor, then the rhythm. */
    static method TierThree(turn: Turn, mature: bool, t: Thresholds, f: Numerics) returns (critical: bool)
      requires mature == AnyMature(turn, t, f)
      ensures critical == Critical(turn, t, f)
    {
      hide AnyMature, BelowEnvelope, FallingRun;
      critical := false;
      for i := 0 to |turn.mentions|
        invariant !critical
        invariant forall m <- turn.mentions[..i] :: !BelowEnvelope(turn, m, t, f)
      {
        if BelowEnvelope(turn, turn.mentions[i], t, f) {
          critical := true;
          break;
        }
      }
      if !critical && !mature {
        critical := turn.reading.valence < t.valenceFloor;
      }
      if !critical {
        for i := 0 to |turn.mentions|
          invariant !critical
          invariant forall m <- turn.mentions[..i] :: !FallingRun(turn, m, t)
        {
          if FallingRun(turn, turn.mentions[i], t) {
            critical := true;
            break;
          }
        }
      }
    }

    method CountConcerns(turn: Turn, t: Thresholds, f: Numerics) returns (count: nat)
      ensures count == |Concerns(entities, turn, t, f)|
    {
      hide Concern;
      count := 0;
      var todo := entities.Keys;
      ghost var counted: set<string> := {};
      while todo != {}
        invariant todo <= entities.Keys
        invariant counted == set h | h in entities && h !in todo && Concern(turn, h, entities[h], t, f)
        invariant count == |counted|
        decreases |todo|
      {
        var h :| h in todo;
        todo := todo - {h};
        if Concern(turn, h, entities[h], t, f) {
          count := count + 1;
          counted := counted + {h};
        }
      }
      assert counted == Concerns(entities, turn, t, f);
    }

    /** `journal_domain_step` */
    method DomainStep(turn: Turn, t: Thresholds, f: Numerics) returns (decision: Decision)
      modifies this
      ensures (Now(), decision) == Step(old(Now()), turn, t, f)
    {
      hide Elevated, AnyMature, Accumulated, Settle;
      var advisory := None;
      if turn.OffersAdvisory() && !advisorySurfaced {
        advisory, advisorySurfaced := turn.advisory, true;
      }
      Accumulate(turn.mentions);
      if turn.WarmUp() {
        return Decision(Ok, true, advisory);
      }
      var elevated, mature := TierOne(turn, t, f);
      if elevated {
        sustained, tier1Count := sustained + 1, tier1Count + 1;
      } else {
        sustained := 0;
      }
      var tier := Respond(turn, elevated, mature, t, f);
      decision := Decision(tier, false, advisory);
    }

    /** The tests of tiers 2 and 3 and the decision cascade. */
    method Respond(turn: Turn, elevated: bool, mature: bool, t: Thresholds, f: Numerics) returns (tier: Tier)
      requires !turn.WarmUp() && mature == AnyMature(turn, t, f)
      modifies this
      ensures (Now(), tier) == Settle(old(Now()), elevated, turn, t, f)
    {
      hide AnyMature, Critical, Concerns;
      var concerns := CountConcerns(turn, t, f);
      var tier2 := !optInPending && (sustained >= t.tier2Sustained || concerns >= t.tier2Relational);
      var critical := TierThree(turn, mature, t, f);
      if !safePersonAlerted && critical && sessions >= t.tier3CrossSessions && turn.SafePersonReady() {
        safePersonAlerted := true;
        if turn.persistence {
          escalations := escalations + [Escalation(turn.profile.value.safePerson, f.Rounded(turn.reading), tier1Count,
                                                   if optInPending then 1 else 0, sessions)];
        }
        assert escalations == old(escalations) + Records(old(Now()), turn, f);
        return Tier3;
      }
      if tier2 {
        optInPending := true;
        return Tier2;
      }
      tier := if elevated then Tier1 else Ok;
    }
  }

  // ---------------------------------------------------------------- runs

  function After(turns: seq<Turn>, sessions: int, t: Thresholds, f: Numerics): View {
    if turns == [] then Fresh(sessions)
    else Step(After(turns[..|turns| - 1], sessions, t, f), turns[|turns| - 1], t, f).0
  }

  /** The decision of turn `i` of the run. */
  function DecisionAt(turns: seq<Turn>, i: nat, sessions: int, t: Thresholds, f: Numerics): Decision
    requires i < |turns|
  {
    Step(After(turns[..i], sessions, t, f), turns[i], t, f).1
  }

  predicate FiredBefore(turns: seq<Turn>, n: nat, tier: Tier, sessions: int, t: Thresholds, f: Numerics)
    requires n <= |turns|
  {
    exists i | 0 <= i < n :: DecisionAt(turns, i, sessions, t, f).tier == tier
  }

  /** The turns after the warm-up. */
  function Live(turns: seq<Turn>): seq<Turn> {
    if turns == [] then []
    else if turns[|turns| - 1].WarmUp() then Live(turns[..|turns| - 1])
    else Live(turns[..|turns| - 1]) + [turns[|turns| - 1]]
  }

  /** The length of the longest tail of tier-1 turns. */
  function Trailing(turns: seq<Turn>, t: Thresholds, f: Numerics): nat {
    if turns == [] || !Elevated(turns[|turns| - 1], t, f) then 0
    else Trailing(turns[..|turns| - 1], t, f) + 1
  }

  function ElevatedTurns(turns: seq<Turn>, t: Thresholds, f: Numerics): nat {
    if turns == [] then 0
    else ElevatedTurns(turns[..|turns| - 1], t, f) + if Elevated(turns[|turns| - 1], t, f) then 1 else 0
  }

  function AllMentions(turns: seq<Turn>): seq<Mention> {
    if turns == [] then [] else AllMentions(turns[..|turns| - 1]) + turns[|turns| - 1].mentions
  }

  /** One step, field by field, and when tier 3 fires. */
  lemma StepFields(v: View, turn: Turn, t: Thresholds, f: Numerics)
    ensures var (v', d) := Step(v, turn, t, f);
      && v'.sustained == (if turn.WarmUp() then v.sustained else if Elevated(turn, t, f) then v.sustained + 1 else 0)
      && v'.tier1Count == v.tier1Count + (if !turn.WarmUp() && Elevated(turn, t, f) then 1 else 0)
      && (d.tier == Tier3 <==> !v.safePersonAlerted && Tier3Due(turn, v.sessions, t, f))
      && v'.sessions == v.sessions
      && v'.safePersonAlerted == (v.safePersonAlerted || d.tier == Tier3)
      && v'.optInPending == (v.optInPending || d.tier == Tier2)
      && v'.entities == Accumulated(v.entities, turn.mentions)
      && v'.advisorySurfaced == (v.advisorySurfaced || turn.OffersAdvisory())
      && d.advisory == (if turn.OffersAdvisory() && !v.advisorySurfaced then turn.advisory else None)
      && (d.tier != Tier3 ==> v'.escalations == v.escalations)
      && (d.tier == Tier3 ==>
            v'.escalations == v.escalations + Records(v.(tier1Count := v'.tier1Count), turn, f))
  {
    hide Elevated, Critical, Concerns, Accumulated;
  }

  /** No turn writes the cross-session count. */
  lemma {:induction false} SessionsKept(turns: seq<Turn>, sessions: int, t: Thresholds, f: Numerics)
    ensures After(turns, sessions, t, f).sessions == sessions
  {
    hide Step;
    if turns != [] {
      SessionsKept(turns[..|turns| - 1], sessions, t, f);
      StepFields(After(turns[..|turns| - 1], sessions, t, f), turns[|turns| - 1], t, f);
    }
  }

  lemma CountsAfter(turns: seq<Turn>, turn: Turn, t: Thresholds, f: Numerics)
    ensures Trailing(turns + [turn], t, f) == if Elevated(turn, t, f) then Trailing(turns, t, f) + 1 else 0
    ensures ElevatedTurns(turns + [turn], t, f)
            == ElevatedTurns(turns, t, f) + if Elevated(turn, t, f) then 1 else 0
  {
    hide Elevated;
    assert (turns + [turn])[..|turns|] == turns;
  }

  /** The counters are recounts of the turns after the warm-up. */
  lemma {:induction false} CountersAreRecounts(turns: seq<Turn>, sessions: int, t: Thresholds, f: Numerics)
    ensures After(turns, sessions, t, f).sustained == Trailing(Live(turns), t, f)
    ensures After(turns, sessions, t, f).tier1Count == ElevatedTurns(Live(turns), t, f)
  {
    hide Elevated, Step;
    if turns != [] {
      var n := |turns| - 1;
      CountersAreRecounts(turns[..n], sessions, t, f);
      StepFields(After(turns[..n], sessions, t, f), turns[n], t, f);
      CountsAfter(Live(turns[..n]), turns[n], t, f);
    }
  }

  /** The latch of tier 3 is down until the first turn that is due. */
  lemma {:induction false} AlertLatch(turns: seq<Turn>, sessions: int, t: Thresholds, f: Numerics)
    ensures After(turns, sessions, t, f).safePersonAlerted <==> exists turn <- turns :: Tier3Due(turn, sessions, t, f)
  {
    hide Tier3Due, Step;
    if turns != [] {
      var n := |turns| - 1;
      AlertLatch(turns[..n], sessions, t, f);
      SessionsKept(turns[..n], sessions, t, f);
      StepFields(After(turns[..n], sessions, t, f), turns[n], t, f);
      assert turns == turns[..n] + [turns[n]];
    }
  }

  /** Tier 3 fires on the first turn that is due, and on no other. */
  lemma Tier3FiresFirst(turns: seq<Turn>, i: nat, sessions: int, t: Thresholds, f: Numerics)
    requires i < |turns|
    ensures DecisionAt(turns, i, sessions, t, f).tier == Tier3 <==>
            Tier3Due(turns[i], sessions, t, f) && forall j | 0 <= j < i :: !Tier3Due(turns[j], sessions, t, f)
  {
    hide Tier3Due, Step, After;
    AlertLatch(turns[..i], sessions, t, f);
    SessionsKept(turns[..i], sessions, t, f);
    StepFields(After(turns[..i], sessions, t, f), turns[i], t, f);
    assert forall j | 0 <= j < i :: turns[..i][j] == turns[j];
  }

  lemma Tier3AtMostOnce(turns: seq<Turn>, i: nat, j: nat, sessions: int, t: Thresholds, f: Numerics)
    requires i < |turns| && j < |turns|
    requires DecisionAt(turns, i, sessions, t, f).tier == Tier3
    ensures DecisionAt(turns, j, sessions, t, f).tier == Tier3 ==> i == j
    ensures !turns[i].WarmUp() && sessions >= t.tier3CrossSessions
    ensures turns[i].profile.Some? && turns[i].profile.value.safePerson != "" && turns[i].profile.value.handshake
  {
    hide Elevated, Critical, Concerns, Accumulated, DecisionAt;
    Tier3FiresFirst(turns, i, sessions, t, f);
    Tier3FiresFirst(turns, j, sessions, t, f);
  }

  /** The condition of tier 2 from the history alone. */
  predicate Tier2Wanted(turns: seq<Turn>, i: nat, t: Thresholds, f: Numerics)
    requires i < |turns|
  {
    && !turns[i].WarmUp()
    && (|| Trailing(Live(turns[..i + 1]), t, f) >= t.tier2Sustained
        || |Concerns(Accumulated(map[], AllMentions(turns[..i + 1])), turns[i], t, f)| >= t.tier2Relational)
  }

  lemma {:induction false} OptInLatch(turns: seq<Turn>, n: nat, sessions: int, t: Thresholds, f: Numerics)
    requires n <= |turns|
    ensures After(turns[..n], sessions, t, f).optInPending <==> FiredBefore(turns, n, Tier2, sessions, t, f)
  {
    hide Tier3Due, Step;
    if n != 0 {
      OptInLatch(turns, n - 1, sessions, t, f);
      StepFields(After(turns[..n - 1], sessions, t, f), turns[n - 1], t, f);
      assert turns[..n][..n - 1] == turns[..n - 1];
      assert DecisionAt(turns, n - 1, sessions, t, f)
             == Step(After(turns[..n - 1], sessions, t, f), turns[n - 1], t, f).1;
    }
  }

  /** Tier 2 fires on the first turn that wants it and is not taken by tier 3. */
  lemma Tier2FiresOnce(turns: seq<Turn>, i: nat, sessions: int, t: Thresholds, f: Numerics)
    requires i < |turns|
    ensures DecisionAt(turns, i, sessions, t, f).tier == Tier2 <==>
            && Tier2Wanted(turns, i, t, f)
            && DecisionAt(turns, i, sessions, t, f).tier != Tier3
            && !FiredBefore(turns, i, Tier2, sessions, t, f)
  {
    hide Elevated, Tier3Due, Concerns, Accumulated, Live, Trailing;
    OptInLatch(turns, i, sessions, t, f);
    CountersAreRecounts(turns[..i + 1], sessions, t, f);
    MentionsAccumulate(turns[..i + 1], sessions, t, f);
    assert turns[..i + 1][..i] == turns[..i];
  }

  lemma {:induction false} LiveTurns(turns: seq<Turn>, turn: Turn)
    ensures turn in Live(turns) <==> turn in turns && !turn.WarmUp()
    ensures Live(Live(turns)) == Live(turns)
  {
    if turns != [] {
      var n := |turns| - 1;
      LiveTurns(turns[..n], turn);
      assert turns == turns[..n] + [turns[n]];
      assert (Live(turns[..n]) + [turns[n]])[..|Live(turns[..n])|] == Live(turns[..n]);
    }
  }

  /**
   A warm-up turn fires no tier, and leaves no trace in what later turns are judged by except the entity
   means and the advisory: counters and alert are those of the run without the warm-up.
   */
  lemma WarmUpIsInvisible(turns: seq<Turn>, i: nat, sessions: int, t: Thresholds, f: Numerics)
    requires i < |turns|
    ensures DecisionAt(turns, i, sessions, t, f).warmupGate <==> turns[i].WarmUp()
    ensures turns[i].WarmUp() ==> DecisionAt(turns, i, sessions, t, f).tier == Ok
    ensures var all, live := After(turns, sessions, t, f), After(Live(turns), sessions, t, f);
      && all.sustained == live.sustained && all.tier1Count == live.tier1Count
      && all.safePersonAlerted == live.safePersonAlerted
  {
    hide Settle, Accumulated, Tier3Due, After, Live;
    CountersAreRecounts(turns, sessions, t, f);
    CountersAreRecounts(Live(turns), sessions, t, f);
    LiveTurns(turns, turns[i]);
    AlertLatch(turns, sessions, t, f);
    AlertLatch(Live(turns), sessions, t, f);
    forall turn ensures turn in Live(turns) <==> turn in turns && !turn.WarmUp() {
      LiveTurns(turns, turn);
    }
    forall turn: Turn ensures Tier3Due(turn, sessions, t, f) ==> !turn.WarmUp() {
      DueIsLive(turn, sessions, t, f);
    }
  }

  lemma DueIsLive(turn: Turn, sessions: int, t: Thresholds, f: Numerics)
    ensures Tier3Due(turn, sessions, t, f) ==> !turn.WarmUp()
  {
    hide Critical;
  }

  // ---------------------------------------------------------------- the cross-session count

  /** A turn that is critical unless the floor leaves the range of valence: below it, and nobody is mentioned. */
  function PlainlyCritical(t: Thresholds): Turn {
    var valence := if t.valenceFloor > -1.0 then -1.0 else t.valenceFloor - 1.0;
    Turn(Signals(valence, 0.0, 0.0), [], 0, Some(Profile(map[], "someone", true)), None, true)
  }

  lemma PlainlyCriticalDue(sessions: int, t: Thresholds, f: Numerics)
    requires sessions >= t.tier3CrossSessions
    ensures Tier3Due(PlainlyCritical(t), sessions, t, f)
  {}

  /** Whether tier 3 can ever fire is settled by the count in the configuration: no turn raises it. */
  lemma AlertPossibleIff(sessions: int, t: Thresholds, f: Numerics)
    ensures (exists turns: seq<Turn>, i: nat ::
               i < |turns| && DecisionAt(turns, i, sessions, t, f).tier == Tier3)
            <==> sessions >= t.tier3CrossSessions
  {
    hide Tier3Due, DecisionAt;
    if sessions >= t.tier3CrossSessions {
      var turns := [PlainlyCritical(t)];
      PlainlyCriticalDue(sessions, t, f);
      Tier3FiresFirst(turns, 0, sessions, t, f);
      assert DecisionAt(turns, 0, sessions, t, f).tier == Tier3;
    } else {
      forall turns: seq<Turn>, i: nat | i < |turns| ensures DecisionAt(turns, i, sessions, t, f).tier != Tier3 {
        if DecisionAt(turns, i, sessions, t, f).tier == Tier3 {
          Tier3AtMostOnce(turns, i, i, sessions, t, f);
        }
      }
    }
  }

  /** With the shipped count and threshold nobody is ever alerted and no escalation is ever written. */
  lemma ShippedNeverAlerts(turns: seq<Turn>, i: nat, t: Thresholds, f: Numerics)
    requires i < |turns| && t.tier3CrossSessions == DEFAULTS.tier3CrossSessions
    ensures DecisionAt(turns, i, SHIPPED_SESSIONS, t, f).tier != Tier3
    ensures After(turns, SHIPPED_SESSIONS, t, f).escalations == []
  {
    hide Step, After, DecisionAt, Critical;
    var s := SHIPPED_SESSIONS;
    AlertPossibleIff(s, t, f);
    AlertLatch(turns, s, t, f);
    NoEscalationBefore(turns, s, t, f);
  }

  /** An advisory is shown on the first turn that offers one, and only then. */
  lemma AdvisoryShownOnce(turns: seq<Turn>, i: nat, sessions: int, t: Thresholds, f: Numerics)
    requires i < |turns|
    ensures DecisionAt(turns, i, sessions, t, f).advisory.Some? <==>
            turns[i].OffersAdvisory() && forall j | 0 <= j < i :: !turns[j].OffersAdvisory()
    ensures DecisionAt(turns, i, sessions, t, f).advisory.Some? ==>
            DecisionAt(turns, i, sessions, t, f).advisory == turns[i].advisory
  {
    hide Step, After;
    AdvisoryLatch(turns[..i], sessions, t, f);
    StepFields(After(turns[..i], sessions, t, f), turns[i], t, f);
    assert forall j | 0 <= j < i :: turns[..i][j] == turns[j];
  }

  lemma {:induction false} AdvisoryLatch(turns: seq<Turn>, sessions: int, t: Thresholds, f: Numerics)
    ensures After(turns, sessions, t, f).advisorySurfaced <==> exists turn <- turns :: turn.OffersAdvisory()
  {
    hide Step;
    if turns != [] {
      var n := |turns| - 1;
      AdvisoryLatch(turns[..n], sessions, t, f);
      StepFields(After(turns[..n], sessions, t, f), turns[n], t, f);
      assert turns == turns[..n] + [turns[n]];
    }
  }

  // ---------------------------------------------------------------- escalation records

  /** The record a tier-3 turn should leave, from the history alone. */
  function RecordOf(turns: seq<Turn>, i: nat, sessions: int, t: Thresholds, f: Numerics): seq<Escalation>
    requires i < |turns| && Tier3Due(turns[i], sessions, t, f)
  {
    if !turns[i].persistence then []
    else [Escalation(turns[i].profile.value.safePerson, f.Rounded(turns[i].reading),
                     ElevatedTurns(Live(turns[..i + 1]), t, f),
                     if FiredBefore(turns, i, Tier2, sessions, t, f) then 1 else 0, sessions)]
  }

  /** The decision of a turn and the record it leaves do not depend on later turns. */
  lemma HistoryIsEnough(turns: seq<Turn>, n: nat, i: nat, sessions: int, t: Thresholds, f: Numerics)
    requires i < n <= |turns|
    ensures DecisionAt(turns[..n], i, sessions, t, f) == DecisionAt(turns, i, sessions, t, f)
    ensures Tier3Due(turns[i], sessions, t, f) ==>
              RecordOf(turns[..n], i, sessions, t, f) == RecordOf(turns, i, sessions, t, f)
  {
    hide Step, After, Tier3Due, Live, ElevatedTurns;
    assert turns[..n][..i + 1] == turns[..i + 1];
    assert forall j | 0 <= j <= i :: turns[..n][..j] == turns[..j];
    assert forall j | 0 <= j <= i :: DecisionAt(turns[..n], j, sessions, t, f) == DecisionAt(turns, j, sessions, t, f);
  }

  /** At most one record is ever written: that of the turn tier 3 fired on, with recounted aggregates. */
  lemma {:induction false} EscalationTellsHistory(turns: seq<Turn>, i: nat, sessions: int, t: Thresholds, f: Numerics)
    requires i < |turns| && DecisionAt(turns, i, sessions, t, f).tier == Tier3
    ensures Tier3Due(turns[i], sessions, t, f)
    ensures After(turns, sessions, t, f).escalations == RecordOf(turns, i, sessions, t, f)
  {
    hide Step, Tier3Due, Records, RecordOf, DecisionAt, Live, ElevatedTurns;
    var n := |turns| - 1;
    Tier3FiresFirst(turns, i, sessions, t, f);
    if i < n {
      HistoryIsEnough(turns, n, i, sessions, t, f);
      EscalationTellsHistory(turns[..n], i, sessions, t, f);
      Tier3FiresFirst(turns, n, sessions, t, f);
      StepFields(After(turns[..n], sessions, t, f), turns[n], t, f);
      DecisionIs(turns, n, sessions, t, f);
    } else {
      NoEscalationBefore(turns[..n], sessions, t, f);
      AlertLatch(turns[..n], sessions, t, f);
      LastRecord(turns, sessions, t, f);
    }
  }

  /** Tier 3 spends its one alert whether or not a record can be written. */
  lemma AlertWithoutRecord(turns: seq<Turn>, i: nat, sessions: int, t: Thresholds, f: Numerics)
    requires i < |turns| && DecisionAt(turns, i, sessions, t, f).tier == Tier3
    ensures After(turns, sessions, t, f).safePersonAlerted
    ensures After(turns, sessions, t, f).escalations == [] <==> !turns[i].persistence
  {
    hide After, DecisionAt, Tier3Due, Live, ElevatedTurns, FiredBefore;
    EscalationTellsHistory(turns, i, sessions, t, f);
    AlertLatch(turns, sessions, t, f);
  }

  lemma DecisionIs(turns: seq<Turn>, i: nat, sessions: int, t: Thresholds, f: Numerics)
    requires i < |turns|
    ensures DecisionAt(turns, i, sessions, t, f) == Step(After(turns[..i], sessions, t, f), turns[i], t, f).1
  {}

  lemma LastRecord(turns: seq<Turn>, sessions: int, t: Thresholds, f: Numerics)
    requires turns != [] && DecisionAt(turns, |turns| - 1, sessions, t, f).tier == Tier3
    requires After(turns[..|turns| - 1], sessions, t, f).escalations == []
    ensures Tier3Due(turns[|turns| - 1], sessions, t, f)
    ensures After(turns, sessions, t, f).escalations == RecordOf(turns, |turns| - 1, sessions, t, f)
  {
    hide Step, Tier3Due, Live, ElevatedTurns, FiredBefore;
    var n := |turns| - 1;
    StepFields(After(turns[..n], sessions, t, f), turns[n], t, f);
    CountersAreRecounts(turns, sessions, t, f);
    OptInLatch(turns, n, sessions, t, f);
    SessionsKept(turns[..n], sessions, t, f);
    assert turns[..n + 1] == turns;
  }

  lemma {:induction false} NoEscalationBefore(turns: seq<Turn>, sessions: int, t: Thresholds, f: Numerics)
    ensures !After(turns, sessions, t, f).safePersonAlerted ==> After(turns, sessions, t, f).escalations == []
  {
    hide Step, Tier3Due;
    if turns != [] {
      NoEscalationBefore(turns[..|turns| - 1], sessions, t, f);
      StepFields(After(turns[..|turns| - 1], sessions, t, f), turns[|turns| - 1], t, f);
    }
  }

  // ---------------------------------------------------------------- entity means

  function Of(mentions: seq<Mention>, entity: string): seq<Signals> {
    if mentions == [] then []
    else
      var before := Of(mentions[..|mentions| - 1], entity);
      var m := mentions[|mentions| - 1];
      if m.entity == entity then before + [m.delta] else before
  }

  function ValenceSum(deltas: seq<Signals>): real {
    if deltas == [] then 0.0 else ValenceSum(deltas[..|deltas| - 1]) + deltas[|deltas| - 1].valence
  }

  function ArousalSum(deltas: seq<Signals>): real {
    if deltas == [] then 0.0 else ArousalSum(deltas[..|deltas| - 1]) + deltas[|deltas| - 1].arousal
  }

  lemma {:induction false} AccumulatedConcat(entities: map<string, Stored>, a: seq<Mention>, b: seq<Mention>)
    ensures Accumulated(entities, a + b) == Accumulated(Accumulated(entities, a), b)
    decreases |b|
  {
    if b == [] {
      assert a + b == a;
    } else {
      AccumulatedConcat(entities, a, b[..|b| - 1]);
      assert (a + b)[..|a + b| - 1] == a + b[..|b| - 1];
    }
  }

  /** The stored entities are those of one pass over every mention, those of the warm-up included. */
  lemma {:induction false} MentionsAccumulate(turns: seq<Turn>, sessions: int, t: Thresholds, f: Numerics)
    ensures After(turns, sessions, t, f).entities == Accumulated(map[], AllMentions(turns))
  {
    hide Step;
    if turns != [] {
      var n := |turns| - 1;
      MentionsAccumulate(turns[..n], sessions, t, f);
      StepFields(After(turns[..n], sessions, t, f), turns[n], t, f);
      AccumulatedConcat(map[], AllMentions(turns[..n]), turns[n].mentions);
    }
  }

  /** What should be stored for an entity whose mentions carried these deltas. */
  predicate IsMean(stored: Stored, deltas: seq<Signals>) {
    && deltas != []
    && stored.turns == |deltas|
    && stored.mean.valence == ValenceSum(deltas) / |deltas| as real
    && stored.mean.arousal == ArousalSum(deltas) / |deltas| as real
    && stored.mean.salience == deltas[0].salience
  }

  lemma MeanStep(entities: map<string, Stored>, deltas: seq<Signals>, m: Mention)
    requires m.entity in entities <==> deltas != []
    requires m.entity in entities ==> IsMean(entities[m.entity], deltas)
    ensures IsMean(Mentioned(entities, m)[m.entity], deltas + [m.delta])
  {
    var longer := deltas + [m.delta];
    assert longer[..|deltas|] == deltas;
    assert ValenceSum(longer) == ValenceSum(deltas) + m.delta.valence;
    assert ArousalSum(longer) == ArousalSum(deltas) + m.delta.arousal;
    if deltas != [] {
      RunningMean(ValenceSum(deltas), |deltas|, m.delta.valence);
      RunningMean(ArousalSum(deltas), |deltas|, m.delta.arousal);
    }
  }

  lemma {:induction false} StoredIsMean(mentions: seq<Mention>, entity: string)
    ensures var deltas := Of(mentions, entity);
      var stored := Accumulated(map[], mentions);
      && (entity in stored <==> deltas != [])
      && (entity in stored ==> IsMean(stored[entity], deltas))
  {
    hide IsMean;
    if mentions != [] {
      var n := |mentions| - 1;
      StoredIsMean(mentions[..n], entity);
      if mentions[n].entity == entity {
        MeanStep(Accumulated(map[], mentions[..n]), Of(mentions[..n], entity), mentions[n]);
      }
    }
  }

  lemma RunningMean(sum: real, n: nat, x: real)
    requires n > 0
    ensures (sum / n as real * (n + 1 - 1) as real + x) / (n + 1) as real == (sum + x) / (n + 1) as real
  {
    assert sum / n as real * n as real == sum;
  }

  /** Over any run, what is stored for an entity is the exact mean of its deltas over all its mentions. */
  lemma EntityMeans(turns: seq<Turn>, entity: string, sessions: int, t: Thresholds, f: Numerics)
    ensures var deltas := Of(AllMentions(turns), entity);
      var stored := After(turns, sessions, t, f).entities;
      && (entity in stored <==> deltas != [])
      && (entity in stored ==>
            && stored[entity].turns == |deltas|
            && stored[entity].mean.valence == ValenceSum(deltas) / |deltas| as real
            && stored[entity].mean.arousal == ArousalSum(deltas) / |deltas| as real)
  {
    hide After, Accumulated, Of, AllMentions, ValenceSum, ArousalSum;
    MentionsAccumulate(turns, sessions, t, f);
    StoredIsMean(AllMentions(turns), entity);
  }
}
