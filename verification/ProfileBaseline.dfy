/**
 The baselines that the education serializer keeps on a learner's profile
 (model-packs/education/controllers/education_profile_serializer.py): the learner's own moving average
 with per-module signatures, and the per-entity averages of the affect monitor.
 */
module ProfileBaseline {
  import opened Text
  import Affect
  import Journal

  type Reading = Affect.Reading
  type Rounding = Affect.Rounding

  const ALPHA := 0.1

  // ---------------------------------------------------------------- the learner's baseline

  /** The affect of a turn; an axis that is missing is read as a default. */
  datatype Seen = Seen(salience: Option<real>, valence: Option<real>, arousal: Option<real>) {
    function Over(absent: Reading): Reading {
      Affect.Reading(if salience.Some? then salience.value else absent.salience,
                     if valence.Some? then valence.value else absent.valence,
                     if arousal.Some? then arousal.value else absent.arousal)
    }

    function On(axis: Affect.AxisName): Option<real> {
      match axis
      case SalienceAxis => salience
      case ValenceAxis => valence
      case ArousalAxis => arousal
    }
  }

  const NEUTRAL := Affect.Reading(0.5, 0.0, 0.5)

  /** What a module shows of a learner: its last reading, and how far that is from the baseline. */
  datatype Signature = Signature(reading: Reading, delta: Reading)

  datatype Baseline = Baseline(mean: Reading, sampleCount: int, perModule: map<string, Signature>)

  function Mixed(x: Reading, mean: Reading, round: Rounding): Reading {
    Affect.Reading(round(Affect.Mix(ALPHA, x.salience, mean.salience)),
                   round(Affect.Mix(ALPHA, x.valence, mean.valence)),
                   round(Affect.Mix(ALPHA, x.arousal, mean.arousal)))
  }

  function Apart(x: Reading, mean: Reading, round: Rounding): Reading {
    Affect.Reading(round(x.salience - mean.salience), round(x.valence - mean.valence), round(x.arousal - mean.arousal))
  }

  /** `_update_affect_baseline`; no module is the empty string. */
  function Updated(b: Option<Baseline>, seen: Seen, moduleKey: string, round: Rounding): Baseline {
    if b.None? then Baseline(seen.Over(NEUTRAL), 1, map[])
    else
      var x := seen.Over(b.value.mean);
      var mean := Mixed(x, b.value.mean, round);
      Baseline(mean, b.value.sampleCount + 1,
               if moduleKey == "" then b.value.perModule
               else b.value.perModule[moduleKey := Signature(x, Apart(x, mean, round))])
  }

  // ---------------------------------------------------------------- the entities' baselines

  type Entry = Journal.Entry
  type Signals = Journal.Signals

  /** `_initial_run` and `_update_rhythm` with their parameters, as functions of a residual. */
  datatype RhythmRules = RhythmRules(first: real -> Journal.Rhythm, next: (real, Journal.Rhythm) -> Journal.Rhythm)

  function Moved(mean: real, shift: real, lo: real, hi: real, round: Rounding): real {
    round(Affect.Clamp(mean + shift, lo, hi))
  }

  /** Each axis moved by its delta times the smoothing factor, and kept in its range. */
  function MovedAll(mean: Reading, delta: Signals, round: Rounding): Signals {
    Journal.Signals(Moved(mean.valence, ALPHA * delta.valence, -1.0, 1.0, round),
                    Moved(mean.arousal, ALPHA * delta.arousal, 0.0, 1.0, round),
                    Moved(mean.salience, ALPHA * delta.salience, 0.0, 1.0, round))
  }

  /** The smoothed squared residual of one axis. */
  function Smoothed(residual: real, variance: real, round: Rounding): real {
    var square := residual * residual;
    round(Affect.Mix(ALPHA, square, variance))
  }

  function Spread(delta: Signals, variance: Signals, round: Rounding): Signals {
    Journal.Signals(Smoothed(delta.valence, variance.valence, round), Smoothed(delta.arousal, variance.arousal, round),
                    Smoothed(delta.salience, variance.salience, round))
  }

  /** `update_relational_baseline`: a new entity starts from the learner's own baseline. */
  function NextEntry(was: Option<Entry>, delta: Signals, seed: Reading, rules: RhythmRules, round: Rounding): Entry {
    if was.None? then
      var v := round(0.04);
      Journal.Entry(MovedAll(seed, delta, round), Journal.Signals(v, v, v), 1,
                    rules.first(delta.valence), rules.first(delta.arousal), rules.first(delta.salience))
    else
      var e := was.value;
      Journal.Entry(MovedAll(Affect.Reading(e.mean.salience, e.mean.valence, e.mean.arousal), delta, round),
                    Spread(delta, e.variance, round), e.sampleCount + 1,
                    rules.next(delta.valence, e.valence), rules.next(delta.arousal, e.arousal),
                    rules.next(delta.salience, e.salience))
  }

  function Find<T>(m: map<string, T>, key: string): Option<T> {
    if key in m then Some(m[key]) else None
  }

  /** The loop over the entities of the state, all of them independent of one another. */
  function Relational(entries: map<string, Entry>, deltas: map<string, Signals>, seed: Reading, rules: RhythmRules,
                      round: Rounding): map<string, Entry> {
    map h | h in entries.Keys + deltas.Keys ::
      if h in deltas then NextEntry(Find(entries, h), deltas[h], seed, rules, round) else entries[h]
  }

  // ---------------------------------------------------------------- the serializer

  datatype Learning = Learning(affect: Option<Baseline>, relational: map<string, Entry>)

  /** The orchestrator's state: a dataclass, or a dictionary that may carry the journal's entity signals. */
  datatype OrchState =
    | DataclassState(affect: Option<Seen>)
    | DictState(affect: Option<Seen>, entities: map<string, Signals>)

  class Profile {
    var learning: Option<Learning>

    constructor (learning: Option<Learning>)
      ensures this.learning == learning
    {
      this.learning := learning;
    }

    /** The baseline part of `education_serialize_profile`. */
    method Serialize(state: OrchState, moduleKey: string, rules: RhythmRules, round: Rounding)
      modifies this
      ensures learning == AfterSave(old(learning), state, moduleKey, rules, round)
    {
      hide Updated;
      if state.affect.Some? && learning.Some? {
        learning := Some(learning.value.(affect := Some(Updated(learning.value.affect, state.affect.value, moduleKey,
                                                                round))));
      }
      if state.DictState? && state.entities != map[] {
        var held := if learning.Some? then learning.value else Learning(None, map[]);
        var entries := UpdateEntities(held.relational, state.entities, SeedOf(held), rules, round);
        learning := Some(held.(relational := entries));
      }
    }

    static method UpdateEntities(before: map<string, Entry>, deltas: map<string, Signals>, seed: Reading,
                                 rules: RhythmRules, round: Rounding)
      returns (entries: map<string, Entry>)
      ensures entries == Relational(before, deltas, seed, rules, round)
    {
      hide Relational;
      entries := before;
      var todo := deltas.Keys;
      NoEntities(before, deltas - todo, seed, rules, round);
      while todo != {}
        invariant todo <= deltas.Keys
        invariant entries == Relational(before, deltas - todo, seed, rules, round)
        decreases |todo|
      {
        var h :| h in todo;
        OneEntity(before, deltas, todo, h, seed, rules, round);
        todo := todo - {h};
        entries := entries[h := NextEntry(Find(entries, h), deltas[h], seed, rules, round)];
      }
      assert deltas - todo == deltas;
    }
  }

  lemma NoEntities(before: map<string, Entry>, none: map<string, Signals>, seed: Reading, rules: RhythmRules,
                   round: Rounding)
    requires none.Keys == {}
    ensures Relational(before, none, seed, rules, round) == before
  {}

  lemma OneEntity(before: map<string, Entry>, deltas: map<string, Signals>, todo: set<string>, h: string,
                  seed: Reading, rules: RhythmRules, round: Rounding)
    requires h in todo && h in deltas
    ensures var entries := Relational(before, deltas - todo, seed, rules, round);
      Relational(before, deltas - (todo - {h}), seed, rules, round)
      == entries[h := NextEntry(Find(entries, h), deltas[h], seed, rules, round)]
  {
    hide NextEntry;
  }

  function SeedOf(held: Learning): Reading {
    if held.affect.Some? then held.affect.value.mean else NEUTRAL
  }

  function AfterSave(learning: Option<Learning>, state: OrchState, moduleKey: string, rules: RhythmRules,
                     round: Rounding): Option<Learning> {
    var seen := if state.affect.Some? && learning.Some? then
        Some(learning.value.(affect := Some(Updated(learning.value.affect, state.affect.value, moduleKey, round))))
      else learning;
    if state.DictState? && state.entities != map[] then
      var held := if seen.Some? then seen.value else Learning(None, map[]);
      Some(held.(relational := Relational(held.relational, state.entities, SeedOf(held), rules, round)))
    else seen
  }

  // ---------------------------------------------------------------- the learner's baseline over a run

  /** The affect that one turn shows, and the module it is shown in. */
  datatype Visit = Visit(seen: Seen, moduleKey: string)

  /** The baseline after a run of saves from a profile without one. */
  function AfterVisits(visits: seq<Visit>, round: Rounding): Option<Baseline> {
    if visits == [] then None
    else
      var n := |visits| - 1;
      Some(Updated(AfterVisits(visits[..n], round), visits[n].seen, visits[n].moduleKey, round))
  }

  /** What is shown on an axis after the first visit; turns that do not show it are passed over. */
  function Shown(visits: seq<Visit>, axis: Affect.AxisName): seq<real> {
    if |visits| <= 1 then []
    else
      var before, x := Shown(visits[..|visits| - 1], axis), visits[|visits| - 1].seen.On(axis);
      if x.Some? then before + [x.value] else before
  }

  function First(visits: seq<Visit>, axis: Affect.AxisName): real
    requires visits != []
  {
    Affect.On(visits[0].seen.Over(NEUTRAL), axis)
  }

  /** An error that later turns cannot carry past its bound: none yet, or one on the grid. */
  predicate Close(alpha: real, mean: real, exact: real) {
    && -Affect.HALF_UNIT <= alpha * (mean - exact) <= Affect.HALF_UNIT
    && (mean == exact || Affect.OnGrid(mean))
  }

  lemma EqualIsClose(alpha: real, mean: real)
    ensures Close(alpha, mean, mean)
  {
    assert alpha * 0.0 == 0.0;
  }

  lemma ShownStaysClose(alpha: real, x: real, mean: real, exact: real, round: Rounding)
    requires 0.0 < alpha <= 1.0 && Affect.RoundsTo6(round) && Close(alpha, mean, exact)
    ensures Close(alpha, round(Affect.Mix(alpha, x, mean)), Affect.Mix(alpha, x, exact))
  {
    hide Affect.OnGrid, Affect.Mix;
    var y := Affect.Mix(alpha, x, mean);
    assert Affect.OnGrid(round(y));
    Affect.MixError(alpha, x, mean, exact, round(y));
  }

  lemma AbsentStaysClose(alpha: real, mean: real, exact: real, round: Rounding)
    requires 0.0 < alpha <= 1.0 && Affect.RoundsTo6(round) && Close(alpha, mean, exact)
    ensures Close(alpha, round(Affect.Mix(alpha, mean, mean)), exact)
  {
    hide Affect.OnGrid;
    assert Affect.Mix(alpha, mean, mean) == mean;
    assert Affect.OnGrid(round(mean));
    if mean == exact {
      Smaller(alpha, round(mean) - mean);
    } else {
      Affect.GridGap(mean, round(mean));
      Affect.GridGap(round(mean), mean);
    }
  }

  lemma Smaller(alpha: real, d: real)
    requires 0.0 < alpha <= 1.0 && -Affect.HALF_UNIT <= d <= Affect.HALF_UNIT
    ensures -Affect.HALF_UNIT <= alpha * d <= Affect.HALF_UNIT
  {
    Affect.MulNonnegative(alpha, Affect.HALF_UNIT - d);
    Affect.MulNonnegative(alpha, Affect.HALF_UNIT + d);
    assert alpha * (Affect.HALF_UNIT - d) == alpha * Affect.HALF_UNIT - alpha * d;
    assert alpha * (Affect.HALF_UNIT + d) == alpha * Affect.HALF_UNIT + alpha * d;
    Affect.MulNonnegative(1.0 - alpha, Affect.HALF_UNIT);
  }

  lemma OneVisit(b: Baseline, visit: Visit, round: Rounding, axis: Affect.AxisName)
    ensures var b' := Updated(Some(b), visit.seen, visit.moduleKey, round);
      var mean, x := Affect.On(b.mean, axis), visit.seen.On(axis);
      && Affect.On(b'.mean, axis) == round(Affect.Mix(ALPHA, if x.Some? then x.value else mean, mean))
      && b'.sampleCount == b.sampleCount + 1
  {
    hide Affect.Mix;
  }

  lemma {:induction false} StaysClose(visits: seq<Visit>, round: Rounding, axis: Affect.AxisName)
    requires visits != [] && Affect.RoundsTo6(round)
    ensures var b := AfterVisits(visits, round);
      && b.Some? && b.value.sampleCount == |visits|
      && Close(ALPHA, Affect.On(b.value.mean, axis), Affect.Exact(First(visits, axis), Shown(visits, axis), ALPHA))
  {
    hide Affect.RoundsTo6, Affect.Mix, Updated, Close;
    var n := |visits| - 1;
    if n == 0 {
      FirstVisit(visits[0], round, axis);
      EqualIsClose(ALPHA, First(visits, axis));
      assert visits[..0] == [];
    } else {
      StaysClose(visits[..n], round, axis);
      var b := AfterVisits(visits[..n], round).value;
      var exact := Affect.Exact(First(visits, axis), Shown(visits[..n], axis), ALPHA);
      OneVisit(b, visits[n], round, axis);
      var x := visits[n].seen.On(axis);
      if x.Some? {
        ShownStaysClose(ALPHA, x.value, Affect.On(b.mean, axis), exact, round);
        assert Shown(visits, axis)[..|Shown(visits[..n], axis)|] == Shown(visits[..n], axis);
      } else {
        AbsentStaysClose(ALPHA, Affect.On(b.mean, axis), exact, round);
      }
    }
  }

  lemma FirstVisit(visit: Visit, round: Rounding, axis: Affect.AxisName)
    ensures var b := Updated(None, visit.seen, visit.moduleKey, round);
      && b.sampleCount == 1 && b.perModule == map[]
      && Affect.On(b.mean, axis) == Affect.On(visit.seen.Over(NEUTRAL), axis)
  {}

  /**
   Over every run, whatever modules are visited and whichever axes a turn shows, the baseline of an axis
   is within 0.000005 of the exact average of what was shown on it.
   */
  lemma BaselineNearExact(visits: seq<Visit>, round: Rounding, axis: Affect.AxisName)
    requires visits != [] && Affect.RoundsTo6(round)
    ensures var b := AfterVisits(visits, round);
      && b.Some? && b.value.sampleCount == |visits|
      && Abs(Affect.On(b.value.mean, axis) - Affect.Exact(First(visits, axis), Shown(visits, axis), ALPHA)) <= 0.000005
  {
    hide AfterVisits, Affect.Exact, Affect.RoundsTo6, Affect.OnGrid;
    StaysClose(visits, round, axis);
    Affect.DivideBound(ALPHA, Affect.On(AfterVisits(visits, round).value.mean, axis)
                              - Affect.Exact(First(visits, axis), Shown(visits, axis), ALPHA));
  }

  // ---------------------------------------------------------------- module signatures over a run

  /** The last visit to a module after the first visit of all. */
  function LastIn(visits: seq<Visit>, m: string): (i: Option<nat>)
    ensures i.Some? ==> 1 <= i.value < |visits| && visits[i.value].moduleKey == m
    ensures i.Some? ==> forall j | i.value < j < |visits| :: visits[j].moduleKey != m
    ensures i.None? ==> forall j | 1 <= j < |visits| :: visits[j].moduleKey != m
  {
    if |visits| <= 1 then None
    else if visits[|visits| - 1].moduleKey == m then Some(|visits| - 1)
    else LastIn(visits[..|visits| - 1], m)
  }

  function SignatureAt(visits: seq<Visit>, i: nat, round: Rounding): Signature
    requires 1 <= i < |visits|
  {
    var before := AfterVisits(visits[..i], round).value.mean;
    var x := visits[i].seen.Over(before);
    Signature(x, Apart(x, AfterVisits(visits[..i + 1], round).value.mean, round))
  }

  lemma EarlierSignature(visits: seq<Visit>, n: nat, i: nat, round: Rounding)
    requires 1 <= i < n <= |visits|
    ensures SignatureAt(visits[..n], i, round) == SignatureAt(visits, i, round)
  {
    assert visits[..n][..i] == visits[..i];
    assert visits[..n][..i + 1] == visits[..i + 1];
  }

  lemma SignatureStep(visits: seq<Visit>, m: string, round: Rounding)
    requires visits != []
    ensures var n, perModule := |visits| - 1, AfterVisits(visits, round).value.perModule;
      if n == 0 then perModule == map[]
      else if visits[n].moduleKey == m && m != "" then m in perModule && perModule[m] == SignatureAt(visits, n, round)
      else
        var before := AfterVisits(visits[..n], round).value.perModule;
        (m in perModule <==> m in before) && (m in perModule ==> perModule[m] == before[m])
  {
    hide Mixed, Apart, Seen.Over;
    assert visits[..|visits|] == visits;
  }

  /** A module has a signature iff it was visited after the first visit of all, and it is that of the last visit. */
  lemma {:induction false} SignaturesAreLast(visits: seq<Visit>, m: string, round: Rounding)
    requires visits != []
    ensures var perModule, last := AfterVisits(visits, round).value.perModule, LastIn(visits, m);
      && (m in perModule <==> m != "" && exists i | 1 <= i < |visits| :: visits[i].moduleKey == m)
      && (m in perModule ==> last.Some? && perModule[m] == SignatureAt(visits, last.value, round))
  {
    hide Updated, AfterVisits, SignatureAt;
    var n := |visits| - 1;
    SignatureStep(visits, m, round);
    if n > 0 {
      SignaturesAreLast(visits[..n], m, round);
      var last := LastIn(visits[..n], m);
      if last.Some? {
        EarlierSignature(visits, n, last.value, round);
      }
    }
  }

  /**
   The delta of a signature is measured from the baseline that already contains the reading: nine tenths of
   the distance from the one before, to within two roundings.
   */
  lemma SignatureIsDampened(visits: seq<Visit>, i: nat, round: Rounding, axis: Affect.AxisName)
    requires 1 <= i < |visits| && Affect.RoundsTo6(round)
    ensures var s, before := SignatureAt(visits, i, round), AfterVisits(visits[..i], round).value.mean;
      && s.reading == visits[i].seen.Over(before)
      && Abs(Affect.On(s.delta, axis) - 0.9 * (Affect.On(s.reading, axis) - Affect.On(before, axis)))
         <= 2.0 * Affect.HALF_UNIT
  {
    hide Affect.OnGrid, Seen.Over;
    assert visits[..i + 1][..i] == visits[..i];
  }

  // ---------------------------------------------------------------- entities over a run

  predicate InRange(s: Signals) {
    -1.0 <= s.valence <= 1.0 && 0.0 <= s.arousal <= 1.0 && 0.0 <= s.salience <= 1.0
  }

  /** Whatever the deltas, an entry that is written is in the range of its axes. */
  lemma WrittenInRange(was: Option<Entry>, delta: Signals, seed: Reading, rules: RhythmRules, round: Rounding)
    requires Affect.RoundsTo6(round)
    ensures InRange(NextEntry(was, delta, seed, rules, round).mean)
  {
    hide Affect.RoundsTo6;
    if was.Some? {
      var mean := was.value.mean;
      MovedInRange(Affect.Reading(mean.salience, mean.valence, mean.arousal), delta, round);
    }
    MovedInRange(seed, delta, round);
  }

  lemma MovedInRange(mean: Reading, delta: Signals, round: Rounding)
    requires Affect.RoundsTo6(round)
    ensures InRange(MovedAll(mean, delta, round))
  {
    hide Affect.RoundsTo6, Affect.OnGrid, Affect.Clamp;
    Affect.EndsOnGrid();
    Affect.RoundStaysIn(round, Affect.Clamp(mean.valence + ALPHA * delta.valence, -1.0, 1.0), -1.0, 1.0);
    Affect.RoundStaysIn(round, Affect.Clamp(mean.arousal + ALPHA * delta.arousal, 0.0, 1.0), 0.0, 1.0);
    Affect.RoundStaysIn(round, Affect.Clamp(mean.salience + ALPHA * delta.salience, 0.0, 1.0), 0.0, 1.0);
  }

  /** A new entity starts from the seed, with a variance of 0.04 and one sample. */
  lemma NewEntry(delta: Signals, seed: Reading, rules: RhythmRules, round: Rounding)
    ensures var e := NextEntry(None, delta, seed, rules, round);
      && e.sampleCount == 1
      && e.variance.valence == e.variance.arousal == e.variance.salience == round(0.04)
      && e.valence == rules.first(delta.valence) && e.arousal == rules.first(delta.arousal)
      && e.salience == rules.first(delta.salience)
      && (-1.0 <= seed.valence + 0.1 * delta.valence <= 1.0 ==>
            e.mean.valence == round(seed.valence + 0.1 * delta.valence))
      && (0.0 <= seed.arousal + 0.1 * delta.arousal <= 1.0 ==>
            e.mean.arousal == round(seed.arousal + 0.1 * delta.arousal))
      && (0.0 <= seed.salience + 0.1 * delta.salience <= 1.0 ==>
            e.mean.salience == round(seed.salience + 0.1 * delta.salience))
  {}

  lemma SmoothedSquare(residual: real, square: real, variance: real, round: Rounding)
    requires square == residual * residual
    ensures Smoothed(residual, variance, round) == round(Affect.Mix(ALPHA, square, variance))
  {}

  /** A known one moves from its own means, with its own variances and rhythms, and one more sample. */
  lemma KnownEntry(was: Entry, delta: Signals, seed: Reading, rules: RhythmRules, round: Rounding)
    ensures var e := NextEntry(Some(was), delta, seed, rules, round);
      && e.sampleCount == was.sampleCount + 1
      && e.variance.valence == Smoothed(delta.valence, was.variance.valence, round)
      && e.variance.arousal == Smoothed(delta.arousal, was.variance.arousal, round)
      && e.variance.salience == Smoothed(delta.salience, was.variance.salience, round)
      && e.valence == rules.next(delta.valence, was.valence) && e.arousal == rules.next(delta.arousal, was.arousal)
      && e.salience == rules.next(delta.salience, was.salience)
      && (-1.0 <= was.mean.valence + 0.1 * delta.valence <= 1.0 ==>
            e.mean.valence == round(was.mean.valence + 0.1 * delta.valence))
      && (0.0 <= was.mean.arousal + 0.1 * delta.arousal <= 1.0 ==>
            e.mean.arousal == round(was.mean.arousal + 0.1 * delta.arousal))
      && (0.0 <= was.mean.salience + 0.1 * delta.salience <= 1.0 ==>
            e.mean.salience == round(was.mean.salience + 0.1 * delta.salience))
  {
    hide Smoothed;
  }

  /** A save touches the baseline only when affect is shown, and an entity only when it is in the state. */
  lemma SaveTouches(learning: Option<Learning>, state: OrchState, moduleKey: string, rules: RhythmRules,
                    round: Rounding, h: string)
    ensures var after := AfterSave(learning, state, moduleKey, rules, round);
      && (learning.None? && (state.DataclassState? || state.entities == map[]) ==> after.None?)
      && (learning.Some? ==> after.Some?)
      && (learning.Some? && state.affect.None? ==> after.value.affect == learning.value.affect)
      && (learning.None? && after.Some? ==> after.value.affect.None?)
      && (learning.Some? && (state.DataclassState? || h !in state.entities) ==>
            && (h in after.value.relational <==> h in learning.value.relational)
            && (h in after.value.relational ==> after.value.relational[h] == learning.value.relational[h]))
      && (state.DictState? && h in state.entities ==> after.Some? && h in after.value.relational)
  {
    hide NextEntry, Updated;
  }

  /** A save that shows affect is one more visit on the profile. */
  lemma SaveIsVisit(visits: seq<Visit>, learning: Option<Learning>, state: OrchState, moduleKey: string,
                    rules: RhythmRules, round: Rounding)
    requires learning.Some? && learning.value.affect == AfterVisits(visits, round) && state.affect.Some?
    ensures var after := AfterSave(learning, state, moduleKey, rules, round);
      && after.Some?
      && after.value.affect == AfterVisits(visits + [Visit(state.affect.value, moduleKey)], round)
  {
    hide Updated, Relational;
    var visit := Visit(state.affect.value, moduleKey);
    assert (visits + [visit])[..|visits|] == visits;
  }

  /** What a save makes of an entity in the state: seeded by the baseline the save leaves, or neutral without one. */
  lemma SaveSeedsByBaseline(learning: Option<Learning>, state: OrchState, moduleKey: string, rules: RhythmRules,
                            round: Rounding, h: string)
    requires state.DictState? && h in state.entities
    ensures var after := AfterSave(learning, state, moduleKey, rules, round);
      && after.Some? && h in after.value.relational
      && var was := if learning.Some? && h in learning.value.relational then Some(learning.value.relational[h])
                    else None;
         var seed := if after.value.affect.Some? then after.value.affect.value.mean else Affect.Reading(0.5, 0.0, 0.5);
         after.value.relational[h] == NextEntry(was, state.entities[h], seed, rules, round)
  {
    hide NextEntry, Updated;
  }

  function DeltasOf(entities: map<string, Journal.Stored>): map<string, Signals> {
    map h | h in entities :: entities[h].mean
  }

  /** The entries after a journal run that saves the profile after every turn; `seeds` are the learner's baselines. */
  function AfterSaves(turns: seq<Journal.Turn>, sessions: int, t: Journal.Thresholds, f: Journal.Numerics,
                      seeds: nat -> Reading, rules: RhythmRules, round: Rounding): map<string, Entry> {
    if turns == [] then map[]
    else
      var n := |turns| - 1;
      Relational(AfterSaves(turns[..n], sessions, t, f, seeds, rules, round),
                 DeltasOf(Journal.After(turns, sessions, t, f).entities), seeds(n), rules, round)
  }

  predicate Mentions(turn: Journal.Turn, entity: string) {
    exists m <- turn.mentions :: m.entity == entity
  }

  /** The turns since an entity was first mentioned, that one included. */
  function SinceFirst(turns: seq<Journal.Turn>, entity: string): nat {
    if turns == [] then 0
    else
      var before := SinceFirst(turns[..|turns| - 1], entity);
      if before > 0 || Mentions(turns[|turns| - 1], entity) then before + 1 else 0
  }

  lemma {:induction false} AccumulatedKeys(entities: map<string, Journal.Stored>, mentions: seq<Journal.Mention>,
                                           entity: string)
    ensures entity in Journal.Accumulated(entities, mentions) <==>
            entity in entities || exists m <- mentions :: m.entity == entity
  {
    if mentions != [] {
      var n := |mentions| - 1;
      AccumulatedKeys(entities, mentions[..n], entity);
      assert mentions == mentions[..n] + [mentions[n]];
    }
  }

  lemma {:induction false} EntityHeldSinceFirst(turns: seq<Journal.Turn>, sessions: int, t: Journal.Thresholds,
                                                f: Journal.Numerics, entity: string)
    ensures entity in Journal.After(turns, sessions, t, f).entities <==> SinceFirst(turns, entity) > 0
  {
    hide Journal.Step, Journal.Accumulated;
    if turns != [] {
      var n := |turns| - 1;
      EntityHeldSinceFirst(turns[..n], sessions, t, f, entity);
      Journal.StepFields(Journal.After(turns[..n], sessions, t, f), turns[n], t, f);
      AccumulatedKeys(Journal.After(turns[..n], sessions, t, f).entities, turns[n].mentions, entity);
    }
  }

  /**
   An entity's sample count is the number of saves since it was first mentioned, however often it was
   mentioned: the saved state still carries every entity of earlier turns.
   */
  lemma {:induction false} SavesCountAsMentions(turns: seq<Journal.Turn>, sessions: int, t: Journal.Thresholds,
                                                f: Journal.Numerics, seeds: nat -> Reading, rules: RhythmRules,
                                                round: Rounding, entity: string)
    ensures var entries := AfterSaves(turns, sessions, t, f, seeds, rules, round);
      && (entity in entries <==> SinceFirst(turns, entity) > 0)
      && (entity in entries ==> entries[entity].sampleCount == SinceFirst(turns, entity))
  {
    hide Journal.After, MovedAll, Spread;
    if turns != [] {
      SavesCountAsMentions(turns[..|turns| - 1], sessions, t, f, seeds, rules, round, entity);
      EntityHeldSinceFirst(turns, sessions, t, f, entity);
      EntityHeldSinceFirst(turns[..|turns| - 1], sessions, t, f, entity);
    }
  }

  lemma {:induction false} SinceFirstIs(turns: seq<Journal.Turn>, entity: string, i: nat)
    requires i < |turns| && Mentions(turns[i], entity)
    requires forall j | 0 <= j < i :: !Mentions(turns[j], entity)
    ensures SinceFirst(turns, entity) == |turns| - i
  {
    hide Mentions;
    var n := |turns| - 1;
    if i < n {
      SinceFirstIs(turns[..n], entity, i);
    } else {
      NeverMentioned(turns[..n], entity);
    }
  }

  lemma {:induction false} NeverMentioned(turns: seq<Journal.Turn>, entity: string)
    requires forall j | 0 <= j < |turns| :: !Mentions(turns[j], entity)
    ensures SinceFirst(turns, entity) == 0
  {
    hide Mentions;
    if turns != [] {
      NeverMentioned(turns[..|turns| - 1], entity);
    }
  }

  /** So a single mention is enough for a mature entry, once enough turns have passed. */
  lemma OneMentionMatures(turns: seq<Journal.Turn>, sessions: int, t: Journal.Thresholds, f: Journal.Numerics,
                          seeds: nat -> Reading, rules: RhythmRules, round: Rounding, entity: string, i: nat)
    requires i < |turns| && Mentions(turns[i], entity)
    requires forall j | 0 <= j < i :: !Mentions(turns[j], entity)
    ensures var entries := AfterSaves(turns, sessions, t, f, seeds, rules, round);
      && entity in entries
      && (entries[entity].sampleCount >= t.minSamples <==> |turns| - i >= t.minSamples)
  {
    hide AfterSaves, Mentions;
    SinceFirstIs(turns, entity, i);
    SavesCountAsMentions(turns, sessions, t, f, seeds, rules, round, entity);
  }
}
