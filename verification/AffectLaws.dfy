/**
 What the evidence of an assistant turn does to the reading, one kind of evidence at a time and all else
 equal: which way each axis goes, and how far while nothing is cut off.
 */
module AffectLaws {
  import opened Text
  import opened Affect

  /** The reading is off the ends of every range, so nothing was cut off. */
  predicate Inner(r: Reading) {
    0.0 < r.salience < 1.0 && -1.0 < r.valence < 1.0 && 0.0 < r.arousal < 1.0
  }

  /** Evidence of nothing in particular leaves the reading as it is. */
  lemma NothingHappens(prev: Reading, e: Evidence, p: Params)
    requires ValidReading(prev) && p.latencyLow <= 5.0 <= p.latencyHigh
    requires e.status.OtherStatus? && e.satisfaction.Unknown? && e.latency.None? && e.offTask <= 0.5
    requires e.intentSwitches < 3
    ensures UpdateAffect(prev, e, p) == prev
  {}

  /** A completed task lifts engagement and mood, and an abandoned one lowers them and raises the arousal. */
  lemma StatusMoves(prev: Reading, e: Evidence, p: Params)
    ensures var done := UpdateAffect(prev, e.(status := Completed), p);
      var open_ := UpdateAffect(prev, e.(status := OtherStatus), p);
      var dropped := UpdateAffect(prev, e.(status := Abandoned), p);
      && dropped.salience <= open_.salience <= done.salience
      && dropped.valence <= open_.valence <= done.valence
      && dropped.arousal >= open_.arousal == done.arousal
      && (Inner(done) && Inner(open_) && Inner(dropped) ==>
            && done.salience - open_.salience == 0.06 && open_.salience - dropped.salience == 0.10
            && done.valence - open_.valence == 0.10
            && open_.valence - dropped.valence == (if e.toolRequested then 0.17 else 0.12)
            && dropped.arousal - open_.arousal == 0.04)
  {}

  /** Being content lifts engagement and mood, discontent lowers them, and being neutral lifts the mood a little. */
  lemma SatisfactionMoves(prev: Reading, e: Evidence, p: Params)
    ensures var good := UpdateAffect(prev, e.(satisfaction := Positive), p);
      var even_ := UpdateAffect(prev, e.(satisfaction := Neutral), p);
      var unknown := UpdateAffect(prev, e.(satisfaction := Unknown), p);
      var bad := UpdateAffect(prev, e.(satisfaction := Negative), p);
      && bad.salience <= unknown.salience == even_.salience <= good.salience
      && bad.valence <= unknown.valence <= even_.valence <= good.valence
      && bad.arousal == unknown.arousal == even_.arousal == good.arousal
      && (Inner(good) && Inner(unknown) && Inner(bad) ==>
            && good.salience - unknown.salience == 0.04 && unknown.salience - bad.salience == 0.06
            && good.valence - unknown.valence == 0.08 && unknown.valence - bad.valence == 0.10
            && even_.valence - unknown.valence == 0.01)
  {}

  /** Being off task more than half the time lowers the engagement, and nothing else. */
  lemma OffTaskMoves(prev: Reading, e: Evidence, p: Params, on: real, off: real)
    requires on <= 0.5 < off
    ensures var there := UpdateAffect(prev, e.(offTask := on), p);
      var away := UpdateAffect(prev, e.(offTask := off), p);
      && away.salience <= there.salience && away.valence == there.valence && away.arousal == there.arousal
      && (Inner(there) && Inner(away) ==> there.salience - away.salience == 0.08)
  {}

  /** A quick answer excites, and a slow one dulls and disengages; none, or one of zero seconds, counts as five. */
  lemma PaceMoves(prev: Reading, e: Evidence, p: Params, quick: real, usual: real, slow: real)
    requires quick != 0.0 && usual != 0.0 && slow != 0.0
    requires quick < p.latencyLow <= usual <= p.latencyHigh < slow
    ensures var fast := UpdateAffect(prev, e.(latency := Some(quick)), p);
      var steady := UpdateAffect(prev, e.(latency := Some(usual)), p);
      var late := UpdateAffect(prev, e.(latency := Some(slow)), p);
      && fast.arousal >= steady.arousal >= late.arousal
      && fast.salience == steady.salience >= late.salience
      && fast.valence == steady.valence == late.valence
      && (Inner(fast) && Inner(steady) && Inner(late) ==>
            && fast.arousal - steady.arousal == 0.06 && steady.arousal - late.arousal == 0.08
            && steady.salience - late.salience == 0.05)
    ensures UpdateAffect(prev, e.(latency := None), p) == UpdateAffect(prev, e.(latency := Some(0.0)), p)
         == UpdateAffect(prev, e.(latency := Some(5.0)), p)
  {
    PaceNudges(e, p, quick, usual, slow);
    hide Nudge;
  }

  lemma PaceNudges(e: Evidence, p: Params, quick: real, usual: real, slow: real)
    requires quick != 0.0 && usual != 0.0 && slow != 0.0
    requires quick < p.latencyLow <= usual <= p.latencyHigh < slow
    ensures var fast := Nudge(e.(latency := Some(quick)), p);
      var steady := Nudge(e.(latency := Some(usual)), p);
      var late := Nudge(e.(latency := Some(slow)), p);
      && fast == steady.(arousal := steady.arousal + 0.06)
      && late == steady.(arousal := steady.arousal - 0.08, salience := steady.salience - 0.05)
    ensures Nudge(e.(latency := None), p) == Nudge(e.(latency := Some(0.0)), p)
         == Nudge(e.(latency := Some(5.0)), p)
  {}

  /** Three switches of intent cost engagement and raise the arousal, by the amounts of the parameters. */
  lemma SwitchingMoves(prev: Reading, e: Evidence, p: Params, few: int, many: int)
    requires few < 3 <= many
    ensures var settled := UpdateAffect(prev, e.(intentSwitches := few), p);
      var searching := UpdateAffect(prev, e.(intentSwitches := many), p);
      && searching.valence == settled.valence
      && (p.switchPenalty >= 0.0 ==> searching.salience <= settled.salience)
      && (p.switchBoost >= 0.0 ==> searching.arousal >= settled.arousal)
      && (Inner(settled) && Inner(searching) ==>
            && settled.salience - searching.salience == p.switchPenalty
            && searching.arousal - settled.arousal == p.switchBoost)
  {}

  /** Asking for a tool before giving up costs mood; on a task that is not given up it changes nothing. */
  lemma ToolMoves(prev: Reading, e: Evidence, p: Params)
    ensures var without := UpdateAffect(prev, e.(toolRequested := false), p);
      var with_ := UpdateAffect(prev, e.(toolRequested := true), p);
      && with_.salience == without.salience && with_.arousal == without.arousal && with_.valence <= without.valence
      && (!e.status.Abandoned? ==> with_ == without)
      && (e.status.Abandoned? && Inner(with_) && Inner(without) ==> without.valence - with_.valence == 0.05)
  {}

  /** The better the start, the better the reading: evidence never reverses an order. */
  lemma StartMatters(prev: Reading, prev': Reading, e: Evidence, p: Params)
    requires prev.salience <= prev'.salience && prev.valence <= prev'.valence && prev.arousal <= prev'.arousal
    ensures var r, r' := UpdateAffect(prev, e, p), UpdateAffect(prev', e, p);
      && r.salience <= r'.salience && r.valence <= r'.valence && r.arousal <= r'.arousal
      && (Inner(r) && Inner(r') ==>
            && r'.salience - r.salience == prev'.salience - prev.salience
            && r'.valence - r.valence == prev'.valence - prev.valence
            && r'.arousal - r.arousal == prev'.arousal - prev.arousal)
  {
    hide Nudge;
  }

  // ---------------------------------------------------------------- the baseline

  /** The alarm names the first of the fastest axes, in the order salience, valence, arousal. */
  lemma AlarmNamesFirstFastest(b: Baseline, p: Params)
    requires DriftAxis(b, p).Some?
    ensures var s, v, a := Abs(b.salience.mean - b.salience.prev), Abs(b.valence.mean - b.valence.prev),
                           Abs(b.arousal.mean - b.arousal.prev);
      match DriftAxis(b, p).value
      case SalienceAxis => s >= v && s >= a && s >= p.threshold
      case ValenceAxis => v > s && v >= a && v >= p.threshold
      case ArousalAxis => a > s && a > v && a >= p.threshold
  {}

  /** Behind a run of `n` turns there are `n` more samples, and before enough of them the alarm is silent. */
  lemma {:induction false} SamplesAreTurns(m: Monitor, e: Evidence, p: Params, round: Rounding, n: nat)
    ensures MonitorAfter(m, e, p, round, n).baseline.sampleCount == m.baseline.sampleCount + n
    ensures m.baseline.sampleCount + n < p.minSamples ==> DriftAxis(MonitorAfter(m, e, p, round, n).baseline, p).None?
  {
    hide UpdateAffect, UpdateAxis;
    if n > 0 {
      SamplesAreTurns(m, e, p, round, n - 1);
    }
  }

  lemma SquareOf(x: real, mean: real, d: real)
    requires x - mean == d || x - mean == -d
    ensures (x - mean) * (x - mean) == d * d
  {
    var y := x - mean;
    assert y * y == d * d;
  }

  lemma VarianceIs(a: Axis, x: real, square: real, alpha: real, round: Rounding)
    requires square == (x - a.mean) * (x - a.mean)
    ensures UpdateAxis(a, x, alpha, round).variance == round(Mix(alpha, square, a.variance))
  {
    hide Mix;
  }

  /** The variance sees how far a reading is from the mean, not on which side; the old mean is remembered. */
  lemma VarianceSeesDistance(a: Axis, x: real, d: real, square: real, alpha: real, round: Rounding)
    requires (x == a.mean + d || x == a.mean - d) && square == d * d
    ensures UpdateAxis(a, x, alpha, round).variance == round(Mix(alpha, square, a.variance))
    ensures UpdateAxis(a, x, alpha, round).prev == a.mean
  {
    hide Mix;
    SquareOf(x, a.mean, d);
    VarianceIs(a, x, square, alpha, round);
  }
}
