/**
 The affect monitor of the assistant pack (model-packs/assistant/domain-lib/affect_monitor.py): the
 per-turn reading, the rounded moving-average baseline, and the drift alarm.
 */
module Affect {
  import opened Text

  // ---------------------------------------------------------------- rounding to six decimals

  type Rounding = real -> real

  const GRID := 1000000.0
  const HALF_UNIT := 0.0000005

  predicate OnGrid(x: real) {
    (x * GRID).Floor as real == x * GRID
  }

  /** `round(x, 6)` for some way of breaking ties: a grid point at most half a unit away. */
  ghost predicate RoundsTo6(round: Rounding) {
    forall x: real :: OnGrid(round(x)) && -HALF_UNIT <= round(x) - x <= HALF_UNIT
  }

  lemma GridGap(x: real, y: real)
    requires OnGrid(x) && OnGrid(y) && x - y <= HALF_UNIT
    ensures x <= y
  {
    var i, j := (x * GRID).Floor, (y * GRID).Floor;
    assert i as real - j as real == (x - y) * GRID;
    assert (x - y) * GRID <= 0.5;
    assert (i - j) as real <= 0.5;
  }

  /** Rounding never leaves an interval whose ends are on the grid. */
  lemma RoundStaysIn(round: Rounding, x: real, lo: real, hi: real)
    requires RoundsTo6(round) && OnGrid(lo) && OnGrid(hi) && lo <= x <= hi
    ensures lo <= round(x) <= hi
  {
    assert OnGrid(round(x));
    GridGap(round(x), hi);
    GridGap(lo, round(x));
  }

  // ---------------------------------------------------------------- readings

  datatype Reading = Reading(salience: real, valence: real, arousal: real)

  predicate ValidReading(r: Reading) {
    0.0 <= r.salience <= 1.0 && -1.0 <= r.valence <= 1.0 && 0.0 <= r.arousal <= 1.0
  }

  datatype TaskStatus = Completed | Abandoned | OtherStatus
  datatype Satisfaction = Positive | Negative | Neutral | Unknown

  datatype Evidence = Evidence(status: TaskStatus, satisfaction: Satisfaction, toolRequested: bool,
                               latency: Option<real>, offTask: real, intentSwitches: int)

  datatype Params = Params(alpha: real, threshold: real, minSamples: int, latencyLow: real, latencyHigh: real,
                           switchPenalty: real, switchBoost: real)

  function Clamp(value: real, lo: real, hi: real): (r: real)
    ensures lo <= hi ==> lo <= r <= hi
  {
    var m := if hi < value then hi else value;
    if m > lo then m else lo
  }

  /** What the evidence of a turn adds to each axis. */
  function Nudge(e: Evidence, p: Params): Reading {
    var latency := if e.latency.None? || e.latency.value == 0.0 then 5.0 else e.latency.value;
    var switching := e.intentSwitches >= 3;
    var dSalience := (match e.status case Completed => 0.06 case Abandoned => -0.10 case OtherStatus => 0.0)
                     + (if e.offTask > 0.5 then -0.08 else 0.0)
                     + (if latency > p.latencyHigh then -0.05 else 0.0)
                     + (match e.satisfaction case Positive => 0.04 case Negative => -0.06 case _ => 0.0)
                     - (if switching then p.switchPenalty else 0.0);
    var dValence := (match e.status case Completed => 0.10 case Abandoned => -0.12 case OtherStatus => 0.0)
                    + (match e.satisfaction case Positive => 0.08 case Negative => -0.10
                       case Neutral => 0.01 case Unknown => 0.0)
                    + (if e.status.Abandoned? && e.toolRequested then -0.05 else 0.0);
    var dArousal := (if latency < p.latencyLow then 0.06 else if latency > p.latencyHigh then -0.08 else 0.0)
                    + (if switching then p.switchBoost else 0.0)
                    + (if e.status.Abandoned? then 0.04 else 0.0);
    Reading(dSalience, dValence, dArousal)
  }

  /** `update_affect` */
  function UpdateAffect(prev: Reading, e: Evidence, p: Params): (r: Reading)
    ensures ValidReading(r)
  {
    var d := Nudge(e, p);
    Reading(Clamp(prev.salience + d.salience, 0.0, 1.0), Clamp(prev.valence + d.valence, -1.0, 1.0),
            Clamp(prev.arousal + d.arousal, 0.0, 1.0))
  }

  // ---------------------------------------------------------------- the baseline

  /** The moving average of one axis, its previous value, and the smoothed squared residual. */
  datatype Axis = Axis(mean: real, prev: real, variance: real) {
    function Velocity(): real { mean - prev }
  }

  datatype Baseline = Baseline(salience: Axis, valence: Axis, arousal: Axis, sampleCount: int)

  function Mix(alpha: real, x: real, mean: real): real {
    alpha * x + (1.0 - alpha) * mean
  }

  function UpdateAxis(a: Axis, x: real, alpha: real, round: Rounding): Axis {
    Axis(round(Mix(alpha, x, a.mean)), a.mean, round(Mix(alpha, (x - a.mean) * (x - a.mean), a.variance)))
  }

  /** `update_baseline`, without the rhythm fields and the per-module signatures. */
  function UpdateBaseline(b: Baseline, r: Reading, alpha: real, round: Rounding): Baseline {
    Baseline(UpdateAxis(b.salience, r.salience, alpha, round), UpdateAxis(b.valence, r.valence, alpha, round),
             UpdateAxis(b.arousal, r.arousal, alpha, round), b.sampleCount + 1)
  }

  // ---------------------------------------------------------------- drift

  datatype AxisName = SalienceAxis | ValenceAxis | ArousalAxis

  function On(r: Reading, axis: AxisName): real {
    match axis
    case SalienceAxis => r.salience
    case ValenceAxis => r.valence
    case ArousalAxis => r.arousal
  }

  function AxisOf(b: Baseline, axis: AxisName): Axis {
    match axis
    case SalienceAxis => b.salience
    case ValenceAxis => b.valence
    case ArousalAxis => b.arousal
  }

  function Low(axis: AxisName): real { if axis.ValenceAxis? then -1.0 else 0.0 }

  function Magnitude(b: Baseline, axis: AxisName): real {
    Abs(AxisOf(b, axis).Velocity())
  }

  /** The first axis with the largest velocity. */
  function WorstAxis(b: Baseline): AxisName {
    var s, v, a := Magnitude(b, SalienceAxis), Magnitude(b, ValenceAxis), Magnitude(b, ArousalAxis);
    if v <= s && a <= s then SalienceAxis else if a <= v then ValenceAxis else ArousalAxis
  }

  lemma WorstIsWorst(b: Baseline, axis: AxisName)
    ensures Magnitude(b, axis) <= Magnitude(b, WorstAxis(b))
  {
    match axis {
      case SalienceAxis =>
      case ValenceAxis =>
      case ArousalAxis =>
    }
  }

  /** `compute_drift`: the worst axis, when enough samples are in and it reaches the threshold. */
  function DriftAxis(b: Baseline, p: Params): Option<AxisName> {
    var worst := WorstAxis(b);
    if b.sampleCount < p.minSamples || Magnitude(b, worst) < p.threshold then None else Some(worst)
  }

  /** The alarm is raised exactly when some axis moves fast enough, and names a fastest axis. */
  lemma DriftAlarm(b: Baseline, p: Params)
    ensures DriftAxis(b, p).Some? <==>
              b.sampleCount >= p.minSamples && exists axis :: Magnitude(b, axis) >= p.threshold
    ensures DriftAxis(b, p).Some? ==> forall axis :: Magnitude(b, axis) <= Magnitude(b, DriftAxis(b, p).value)
  {
    hide Magnitude, WorstAxis;
    forall axis ensures Magnitude(b, axis) <= Magnitude(b, WorstAxis(b)) {
      WorstIsWorst(b, axis);
    }
  }

  // ---------------------------------------------------------------- stored against exact averages

  function Stored(a: Axis, xs: seq<real>, alpha: real, round: Rounding): Axis {
    if xs == [] then a
    else UpdateAxis(Stored(a, xs[..|xs| - 1], alpha, round), xs[|xs| - 1], alpha, round)
  }

  /** The moving average without any rounding. */
  function Exact(mean: real, xs: seq<real>, alpha: real): real {
    if xs == [] then mean else Mix(alpha, xs[|xs| - 1], Exact(mean, xs[..|xs| - 1], alpha))
  }

  lemma MixError(alpha: real, x: real, m: real, n: real, rounded: real)
    requires 0.0 < alpha <= 1.0 && -HALF_UNIT <= alpha * (m - n) <= HALF_UNIT
    requires -HALF_UNIT <= rounded - Mix(alpha, x, m) <= HALF_UNIT
    ensures -HALF_UNIT <= alpha * (rounded - Mix(alpha, x, n)) <= HALF_UNIT
  {
    hide Mix;
    MixDifference(alpha, x, m, n);
    Combine(alpha, rounded - Mix(alpha, x, m), m - n, rounded - Mix(alpha, x, n), HALF_UNIT);
  }

  lemma MixDifference(alpha: real, x: real, m: real, n: real)
    ensures Mix(alpha, x, m) - Mix(alpha, x, n) == (1.0 - alpha) * (m - n)
  {}

  lemma Combine(alpha: real, e: real, d: real, sum: real, h: real)
    requires 0.0 < alpha <= 1.0
    requires -h <= alpha * d <= h && -h <= e <= h
    requires sum == e + (1.0 - alpha) * d
    ensures -h <= alpha * sum <= h
  {
    var t, q := alpha * d, 1.0 - alpha;
    MulNonnegative(alpha, h - e);
    MulNonnegative(alpha, h + e);
    MulNonnegative(q, h - t);
    MulNonnegative(q, h + t);
    assert alpha * (q * d) == q * t;
    var whole := alpha * sum;
    assert whole == alpha * (e + q * d) == alpha * e + q * t;
    assert alpha * (h - e) + q * (h - t) == h - whole;
    assert alpha * (h + e) + q * (h + t) == h + whole;
  }

  lemma MulNonnegative(x: real, y: real)
    requires x >= 0.0 && y >= 0.0
    ensures x * y >= 0.0
  {}

  /** Over every run the stored average is within HALF_UNIT / alpha of the exact one. */
  lemma {:induction false} RoundingErrorBounded(a: Axis, xs: seq<real>, alpha: real, round: Rounding)
    requires RoundsTo6(round) && 0.0 < alpha <= 1.0
    ensures Abs(Stored(a, xs, alpha, round).mean - Exact(a.mean, xs, alpha)) <= HALF_UNIT / alpha
    ensures -HALF_UNIT <= alpha * (Stored(a, xs, alpha, round).mean - Exact(a.mean, xs, alpha)) <= HALF_UNIT
  {
    hide Mix, OnGrid;
    if xs == [] {
      assert alpha * 0.0 == 0.0;
    } else {
      var front, x := xs[..|xs| - 1], xs[|xs| - 1];
      RoundingErrorBounded(a, front, alpha, round);
      var m, n := Stored(a, front, alpha, round).mean, Exact(a.mean, front, alpha);
      MixError(alpha, x, m, n, round(Mix(alpha, x, m)));
    }
    DivideBound(alpha, Stored(a, xs, alpha, round).mean - Exact(a.mean, xs, alpha));
  }

  lemma DivideBound(alpha: real, d: real)
    requires alpha > 0.0 && -HALF_UNIT <= alpha * d <= HALF_UNIT
    ensures Abs(d) <= HALF_UNIT / alpha
  {
    DivideUpper(alpha, d, HALF_UNIT);
    Negated(alpha, d);
    DivideUpper(alpha, -d, HALF_UNIT);
  }

  lemma DivideUpper(alpha: real, d: real, h: real)
    requires alpha > 0.0 && alpha * d <= h
    ensures d <= h / alpha
  {
    var q := h / alpha;
    assert alpha * q == h;
    assert alpha * (d - q) == alpha * d - alpha * q;
    if d > q {
      MulPositive(alpha, d - q);
    }
  }

  lemma Negated(x: real, y: real)
    ensures x * -y == -(x * y)
  {}

  lemma MulPositive(x: real, y: real)
    requires x > 0.0 && y > 0.0
    ensures x * y > 0.0
  {}

  lemma MixBetween(alpha: real, x: real, m: real, lo: real, hi: real)
    requires 0.0 <= alpha <= 1.0 && lo <= x <= hi && lo <= m <= hi
    ensures lo <= Mix(alpha, x, m) <= hi
  {
    assert alpha * (x - lo) >= 0.0 && (1.0 - alpha) * (m - lo) >= 0.0;
    assert alpha * (hi - x) >= 0.0 && (1.0 - alpha) * (hi - m) >= 0.0;
  }

  /** The stored average never leaves the range of its axis. */
  lemma {:induction false} StoredStaysInRange(a: Axis, xs: seq<real>, alpha: real, round: Rounding, lo: real, hi: real)
    requires RoundsTo6(round) && 0.0 <= alpha <= 1.0 && OnGrid(lo) && OnGrid(hi)
    requires lo <= a.mean <= hi && forall i | 0 <= i < |xs| :: lo <= xs[i] <= hi
    ensures lo <= Stored(a, xs, alpha, round).mean <= hi
  {
    hide Mix, OnGrid;
    if xs != [] {
      var front, x := xs[..|xs| - 1], xs[|xs| - 1];
      StoredStaysInRange(a, front, alpha, round, lo, hi);
      var m := Stored(a, front, alpha, round).mean;
      MixBetween(alpha, x, m, lo, hi);
      RoundStaysIn(round, Mix(alpha, x, m), lo, hi);
    }
  }

  /** One assistant turn on the affect part of the state: reading first, then baseline. */
  datatype Monitor = Monitor(reading: Reading, baseline: Baseline)

  function MonitorTurn(m: Monitor, e: Evidence, p: Params, round: Rounding): Monitor {
    var reading := UpdateAffect(m.reading, e, p);
    Monitor(reading, UpdateBaseline(m.baseline, reading, p.alpha, round))
  }

  predicate InRange(b: Baseline) {
    0.0 <= b.salience.mean <= 1.0 && -1.0 <= b.valence.mean <= 1.0 && 0.0 <= b.arousal.mean <= 1.0
  }

  /** Any evidence whatever keeps the baseline of every axis in range. */
  lemma TurnStaysInRange(m: Monitor, e: Evidence, p: Params, round: Rounding)
    requires RoundsTo6(round) && 0.0 <= p.alpha <= 1.0 && InRange(m.baseline)
    ensures InRange(MonitorTurn(m, e, p, round).baseline) && ValidReading(MonitorTurn(m, e, p, round).reading)
  {
    hide UpdateAffect, Mix, OnGrid;
    var r, b := UpdateAffect(m.reading, e, p), m.baseline;
    EndsOnGrid();
    MixBetween(p.alpha, r.salience, b.salience.mean, 0.0, 1.0);
    RoundStaysIn(round, Mix(p.alpha, r.salience, b.salience.mean), 0.0, 1.0);
    MixBetween(p.alpha, r.valence, b.valence.mean, -1.0, 1.0);
    RoundStaysIn(round, Mix(p.alpha, r.valence, b.valence.mean), -1.0, 1.0);
    MixBetween(p.alpha, r.arousal, b.arousal.mean, 0.0, 1.0);
    RoundStaysIn(round, Mix(p.alpha, r.arousal, b.arousal.mean), 0.0, 1.0);
  }

  lemma EndsOnGrid()
    ensures OnGrid(0.0) && OnGrid(1.0) && OnGrid(-1.0)
  {}

  // ---------------------------------------------------------------- a constant reading

  function Constantly(c: real, n: nat): (xs: seq<real>)
    ensures |xs| == n && forall i | 0 <= i < n :: xs[i] == c
  {
    seq(n, _ => c)
  }

  /** The exact change of the average in turn `n + 1` of a constant reading. */
  function Velocity(mean: real, c: real, alpha: real, n: nat): real {
    Exact(mean, Constantly(c, n + 1), alpha) - Exact(mean, Constantly(c, n), alpha)
  }

  function Power(x: real, n: nat): real {
    if n == 0 then 1.0 else x * Power(x, n - 1)
  }

  lemma ExactStep(mean: real, c: real, alpha: real, n: nat)
    ensures Exact(mean, Constantly(c, n + 1), alpha) == Mix(alpha, c, Exact(mean, Constantly(c, n), alpha))
  {
    hide Mix;
    assert Constantly(c, n + 1)[..n] == Constantly(c, n);
  }

  /** Each turn shrinks the exact velocity by the factor 1 - alpha. */
  lemma VelocityShrinks(mean: real, c: real, alpha: real, n: nat)
    ensures Velocity(mean, c, alpha, n + 1) == (1.0 - alpha) * Velocity(mean, c, alpha, n)
  {
    hide Exact, Mix;
    ExactStep(mean, c, alpha, n);
    ExactStep(mean, c, alpha, n + 1);
    MixDifference(alpha, c, Exact(mean, Constantly(c, n + 1), alpha), Exact(mean, Constantly(c, n), alpha));
  }

  lemma {:induction false} VelocityIs(mean: real, c: real, alpha: real, n: nat)
    ensures Velocity(mean, c, alpha, n) == Power(1.0 - alpha, n) * Velocity(mean, c, alpha, 0)
  {
    hide Velocity;
    if n > 0 {
      VelocityIs(mean, c, alpha, n - 1);
      VelocityShrinks(mean, c, alpha, n - 1);
      var q, p, v := 1.0 - alpha, Power(1.0 - alpha, n - 1), Velocity(mean, c, alpha, 0);
      assert q * (p * v) == (q * p) * v;
    }
  }

  /** Bernoulli's inequality, which bounds a power without logarithms. */
  lemma {:induction false} PowerDecays(alpha: real, n: nat)
    requires 0.0 < alpha <= 1.0
    ensures Power(1.0 - alpha, n) >= 0.0
    ensures Power(1.0 - alpha, n) * (1.0 + (n as real) * alpha) <= 1.0
  {
    if n > 0 {
      PowerDecays(alpha, n - 1);
      BernoulliStep(alpha, Power(1.0 - alpha, n - 1), (n - 1) as real);
    }
  }

  lemma BernoulliStep(alpha: real, p: real, k: real)
    requires 0.0 < alpha <= 1.0 && p >= 0.0 && k >= 0.0 && p * (1.0 + k * alpha) <= 1.0
    ensures (1.0 - alpha) * p >= 0.0
    ensures ((1.0 - alpha) * p) * (1.0 + (k + 1.0) * alpha) <= 1.0
  {
    var u := 1.0 + k * alpha;
    assert 1.0 + (k + 1.0) * alpha == u + alpha;
    assert (1.0 - alpha) * (u + alpha) == u - alpha * alpha * (k + 1.0);
    assert alpha * alpha * (k + 1.0) >= 0.0;
    var w := alpha * alpha * (k + 1.0);
    assert p * w >= 0.0;
    assert ((1.0 - alpha) * p) * (u + alpha) == p * ((1.0 - alpha) * (u + alpha)) == p * u - p * w;
  }

  /** After `n` turns the exact velocity is below `t` as soon as n * alpha * t exceeds the first one. */
  lemma ExactAlarmStops(mean: real, c: real, alpha: real, t: real, n: nat)
    requires 0.0 < alpha <= 1.0 && t > 0.0
    requires (n as real) * (alpha * t) >= Abs(Velocity(mean, c, alpha, 0))
    ensures Abs(Velocity(mean, c, alpha, n)) < t
  {
    hide Velocity, Power;
    VelocityIs(mean, c, alpha, n);
    PowerDecays(alpha, n);
    DecayBelow(Power(1.0 - alpha, n), Velocity(mean, c, alpha, 0), n as real, alpha, t);
  }

  lemma DecayBelow(p: real, v: real, n: real, alpha: real, t: real)
    requires p >= 0.0 && n >= 0.0 && alpha > 0.0 && t > 0.0
    requires p * (1.0 + n * alpha) <= 1.0 && n * (alpha * t) >= Abs(v)
    ensures Abs(p * v) < t
  {
    var w := Abs(v);
    assert Abs(p * v) == p * w by {
      if v < 0.0 {
        assert p * v == -(p * w);
      }
      assert p * w >= 0.0;
    }
    var m := n * alpha;
    assert n * (alpha * t) == m * t;
    assert p * w <= p * (m * t) by {
      assert p * (m * t - w) >= 0.0;
    }
    assert p * (m * t) == (p * m) * t;
    assert p * (1.0 + m) <= 1.0;
    assert p * (1.0 + m) == p + p * m;
    if p == 0.0 {
      assert p * w == 0.0;
    } else {
      assert p * m < 1.0;
      assert (1.0 - p * m) * t > 0.0;
    }
  }

  /**
   The alarm that the code raises looks at the stored, rounded averages. When the threshold is above
   the rounding noise of one unit / alpha, that alarm stops as well, for every axis and for good.
   */
  lemma StoredAlarmStops(a: Axis, c: real, alpha: real, round: Rounding, threshold: real, n: nat)
    requires RoundsTo6(round) && 0.0 < alpha <= 1.0
    requires alpha * threshold > 2.0 * HALF_UNIT
    requires (n as real) * (alpha * threshold - 2.0 * HALF_UNIT) >= Abs(Velocity(a.mean, c, alpha, 0))
    ensures Abs(Stored(a, Constantly(c, n + 1), alpha, round).Velocity()) < threshold
  {
    hide Stored, Exact, Velocity;
    var xs, ys := Constantly(c, n + 1), Constantly(c, n);
    assert xs[..n] == ys;
    RoundingErrorBounded(a, xs, alpha, round);
    RoundingErrorBounded(a, ys, alpha, round);
    var q := HALF_UNIT / alpha;
    var t := threshold - 2.0 * q;
    assert alpha * q == HALF_UNIT;
    assert alpha * t == alpha * threshold - 2.0 * HALF_UNIT;
    assert t > 0.0;
    ExactAlarmStops(a.mean, c, alpha, t, n);
    PrevIsMean(a, c, alpha, round, n);
    ClosePoints(Stored(a, xs, alpha, round).mean, Stored(a, ys, alpha, round).mean,
                Exact(a.mean, xs, alpha), Exact(a.mean, ys, alpha), q, t);
    VelocityDef(a.mean, c, alpha, n);
  }

  lemma VelocityDef(mean: real, c: real, alpha: real, n: nat)
    ensures Velocity(mean, c, alpha, n)
            == Exact(mean, Constantly(c, n + 1), alpha) - Exact(mean, Constantly(c, n), alpha)
  {}

  lemma PrevIsMean(a: Axis, c: real, alpha: real, round: Rounding, n: nat)
    ensures Stored(a, Constantly(c, n + 1), alpha, round).prev == Stored(a, Constantly(c, n), alpha, round).mean
  {
    assert Constantly(c, n + 1)[..n] == Constantly(c, n);
  }

  lemma ClosePoints(s: real, s': real, e: real, e': real, q: real, t: real)
    requires Abs(s - e) <= q && Abs(s' - e') <= q
    ensures Abs(e - e') < t ==> Abs(s - s') < t + 2.0 * q
  {}

  // ---------------------------------------------------------------- a run of unchanging evidence

  /** `n` turns of the same evidence. */
  function MonitorAfter(m: Monitor, e: Evidence, p: Params, round: Rounding, n: nat): Monitor {
    if n == 0 then m else MonitorTurn(MonitorAfter(m, e, p, round, n - 1), e, p, round)
  }

  function Times(n: nat, d: real): real {
    n as real * d
  }

  /** `n` steps of `d` from `v`, stopped at the ends of the range. */
  function Travelled(v: real, d: real, n: nat, lo: real): real {
    Clamp(v + Times(n, d), lo, 1.0)
  }

  /** The readings climb or fall by the same amount every turn until they reach an end of the range. */
  lemma {:induction false} ReadingAfter(m: Monitor, e: Evidence, p: Params, round: Rounding, n: nat, axis: AxisName)
    requires ValidReading(m.reading)
    ensures On(MonitorAfter(m, e, p, round, n).reading, axis)
            == Travelled(On(m.reading, axis), On(Nudge(e, p), axis), n, Low(axis))
  {
    hide Nudge, MonitorTurn, Travelled, Clamp;
    if n == 0 {
      NotYetMoved(On(m.reading, axis), On(Nudge(e, p), axis), Low(axis));
    } else {
      ReadingAfter(m, e, p, round, n - 1, axis);
      ReadingMoves(MonitorAfter(m, e, p, round, n - 1), e, p, round, axis);
      OneFurther(On(m.reading, axis), On(Nudge(e, p), axis), n, Low(axis));
    }
  }

  lemma ReadingMoves(m: Monitor, e: Evidence, p: Params, round: Rounding, axis: AxisName)
    ensures On(MonitorTurn(m, e, p, round).reading, axis)
            == Clamp(On(m.reading, axis) + On(Nudge(e, p), axis), Low(axis), 1.0)
  {
    hide Nudge, Clamp, UpdateBaseline;
  }

  lemma NotYetMoved(v: real, d: real, lo: real)
    requires lo <= v <= 1.0
    ensures Travelled(v, d, 0, lo) == v
  {}

  lemma OneFurther(v: real, d: real, n: nat, lo: real)
    requires lo <= v <= 1.0 && n > 0
    ensures Clamp(Travelled(v, d, n - 1, lo) + d, lo, 1.0) == Travelled(v, d, n, lo)
  {
    hide Times;
    OneMore(n, d);
    Grows(0, n - 1, d);
  }

  lemma OneMore(n: nat, d: real)
    requires n > 0
    ensures Times(n, d) == Times(n - 1, d) + d
  {
    assert n as real == (n - 1) as real + 1.0;
  }

  lemma {:induction false} Grows(k: nat, n: nat, d: real)
    requires k <= n
    ensures Times(0, d) == 0.0
    ensures if d > 0.0 then Times(k, d) <= Times(n, d) else if d < 0.0 then Times(k, d) >= Times(n, d)
            else Times(n, d) == 0.0
  {
    hide Times;
    Nothing(d);
    if n > k {
      Grows(k, n - 1, d);
      OneMore(n, d);
    } else if n > 0 {
      Grows(0, n - 1, d);
      OneMore(n, d);
    }
  }

  lemma Nothing(d: real)
    ensures Times(0, d) == 0.0
  {}

  /** The smallest number of turns known to take `rate` per turn past `distance`. */
  function TurnsFor(distance: real, rate: real): (n: nat)
    requires distance >= 0.0 && rate > 0.0
    ensures n as real * rate >= distance
  {
    var q := distance / rate;
    assert q * rate == distance;
    NonnegativeQuotient(distance, rate);
    Scaled(q, (q.Floor + 1) as real, rate);
    q.Floor + 1
  }

  lemma NonnegativeQuotient(x: real, y: real)
    requires x >= 0.0 && y > 0.0
    ensures x / y >= 0.0
  {}

  lemma Scaled(x: real, y: real, k: real)
    requires x <= y && k >= 0.0
    ensures x * k <= y * k
  {
    MulNonnegative(y - x, k);
  }

  /** After so many steps of `d` the whole range is crossed, unless nothing moves. */
  function TurnsAcross(d: real): (n: nat)
    ensures d > 0.0 ==> Times(n, d) >= 2.0
    ensures d < 0.0 ==> Times(n, d) <= -2.0
  {
    if d == 0.0 then 0
    else
      var n := TurnsFor(2.0, Abs(d));
      Across(n, d, Abs(d));
      n
  }

  lemma Across(n: nat, d: real, rate: real)
    requires rate == Abs(d) && n as real * rate >= 2.0
    ensures if d > 0.0 then Times(n, d) >= 2.0 else Times(n, d) <= -2.0
  {
    if d <= 0.0 {
      Negated(n as real, d);
    }
  }

  function SettledFrom(e: Evidence, p: Params, axis: AxisName): nat {
    TurnsAcross(On(Nudge(e, p), axis))
  }

  lemma ReadingSettles(m: Monitor, e: Evidence, p: Params, round: Rounding, n: nat, n': nat, axis: AxisName)
    requires ValidReading(m.reading) && SettledFrom(e, p, axis) <= n <= n'
    ensures On(MonitorAfter(m, e, p, round, n').reading, axis) == On(MonitorAfter(m, e, p, round, n).reading, axis)
  {
    hide Nudge, MonitorAfter, Travelled, SettledFrom;
    ReadingAfter(m, e, p, round, n, axis);
    ReadingAfter(m, e, p, round, n', axis);
    AtAnEnd(On(m.reading, axis), e, p, n, axis);
    AtAnEnd(On(m.reading, axis), e, p, n', axis);
  }

  lemma AtAnEnd(v: real, e: Evidence, p: Params, n: nat, axis: AxisName)
    requires Low(axis) <= v <= 1.0 && SettledFrom(e, p, axis) <= n
    ensures var d := On(Nudge(e, p), axis);
      Travelled(v, d, n, Low(axis)) == if d > 0.0 then 1.0 else if d < 0.0 then Low(axis) else v
  {
    hide Nudge, On, Travelled, TurnsAcross;
    TravelledFar(v, On(Nudge(e, p), axis), n, Low(axis));
  }

  lemma TravelledFar(v: real, d: real, n: nat, lo: real)
    requires -1.0 <= lo <= v <= 1.0 && TurnsAcross(d) <= n
    ensures Travelled(v, d, n, lo) == if d > 0.0 then 1.0 else if d < 0.0 then lo else v
  {
    hide TurnsAcross, Times;
    Grows(TurnsAcross(d), n, d);
  }

  /** From then on the baseline of the axis is the stored average of a constant reading. */
  lemma {:induction false} BaselineAfter(m: Monitor, e: Evidence, p: Params, round: Rounding, n: nat, k: nat,
                                         axis: AxisName)
    requires ValidReading(m.reading) && SettledFrom(e, p, axis) <= n
    ensures AxisOf(MonitorAfter(m, e, p, round, n + k).baseline, axis)
            == Stored(AxisOf(MonitorAfter(m, e, p, round, n).baseline, axis),
                      Constantly(On(MonitorAfter(m, e, p, round, n).reading, axis), k), p.alpha, round)
  {
    hide UpdateAffect, UpdateAxis, SettledFrom;
    if k > 0 {
      BaselineAfter(m, e, p, round, n, k - 1, axis);
      ReadingSettles(m, e, p, round, n, n + k, axis);
      var c := On(MonitorAfter(m, e, p, round, n).reading, axis);
      assert Constantly(c, k)[..k - 1] == Constantly(c, k - 1);
    }
  }

  lemma {:induction false} RunStaysInRange(m: Monitor, e: Evidence, p: Params, round: Rounding, n: nat)
    requires RoundsTo6(round) && 0.0 <= p.alpha <= 1.0 && InRange(m.baseline) && ValidReading(m.reading)
    ensures InRange(MonitorAfter(m, e, p, round, n).baseline) && ValidReading(MonitorAfter(m, e, p, round, n).reading)
  {
    hide RoundsTo6, MonitorTurn;
    if n > 0 {
      RunStaysInRange(m, e, p, round, n - 1);
      TurnStaysInRange(MonitorAfter(m, e, p, round, n - 1), e, p, round);
    }
  }

  /** What the threshold leaves above the rounding noise, scaled by alpha. */
  function Slack(p: Params): real {
    p.alpha * p.threshold - 2.0 * HALF_UNIT
  }

  /** A number of turns that depends on the evidence and the parameters, not on where the run starts. */
  function AxisQuietFrom(e: Evidence, p: Params, axis: AxisName): nat
    requires Slack(p) > 0.0
  {
    SettledFrom(e, p, axis) + TurnsFor(2.0, Slack(p)) + 1
  }

  lemma AxisFallsQuiet(m: Monitor, e: Evidence, p: Params, round: Rounding, n: nat, axis: AxisName)
    requires RoundsTo6(round) && 0.0 < p.alpha <= 1.0 && Slack(p) > 0.0
    requires InRange(m.baseline) && ValidReading(m.reading) && n >= AxisQuietFrom(e, p, axis)
    ensures Magnitude(MonitorAfter(m, e, p, round, n).baseline, axis) < p.threshold
  {
    hide RoundsTo6, MonitorAfter, SettledFrom, Stored, Velocity, Constantly, TurnsFor, Nudge;
    var start := SettledFrom(e, p, axis);
    var k := n - start - 1;
    RunStaysInRange(m, e, p, round, start);
    BaselineAfter(m, e, p, round, start, k + 1, axis);
    assert start + (k + 1) == n;
    var a := AxisOf(MonitorAfter(m, e, p, round, start).baseline, axis);
    var c := On(MonitorAfter(m, e, p, round, start).reading, axis);
    var slack := Slack(p);
    FirstVelocity(a.mean, c, p.alpha);
    assert k >= TurnsFor(2.0, slack);
    Scaled(TurnsFor(2.0, slack) as real, k as real, slack);
    assert k as real * slack >= 2.0;
    StoredAlarmStops(a, c, p.alpha, round, p.threshold, k);
  }

  lemma FirstVelocity(mean: real, c: real, alpha: real)
    requires 0.0 < alpha <= 1.0 && -1.0 <= mean <= 1.0 && -1.0 <= c <= 1.0
    ensures Abs(Velocity(mean, c, alpha, 0)) <= 2.0
  {
    assert Velocity(mean, c, alpha, 0) == Mix(alpha, c, mean) - mean by {
      assert Constantly(c, 1)[..0] == [];
      assert Constantly(c, 0) == [];
    }
    MixBetween(alpha, c, mean, -1.0, 1.0);
  }

  function QuietFrom(e: Evidence, p: Params): (n: nat)
    requires Slack(p) > 0.0
    ensures forall axis :: AxisQuietFrom(e, p, axis) <= n
  {
    AxisQuietFrom(e, p, SalienceAxis) + AxisQuietFrom(e, p, ValenceAxis) + AxisQuietFrom(e, p, ArousalAxis)
  }

  /**
   While the evidence stays the same the drift alarm is silent from a turn on that can be told beforehand,
   wherever the run starts: what still moves is then below the threshold.
   */
  lemma UnchangingEvidenceFallsQuiet(m: Monitor, e: Evidence, p: Params, round: Rounding, n: nat)
    requires RoundsTo6(round) && 0.0 < p.alpha <= 1.0 && Slack(p) > 0.0
    requires InRange(m.baseline) && ValidReading(m.reading) && n >= QuietFrom(e, p)
    ensures DriftAxis(MonitorAfter(m, e, p, round, n).baseline, p).None?
  {
    hide RoundsTo6, MonitorAfter, AxisQuietFrom, QuietFrom, Magnitude, WorstAxis;
    var b := MonitorAfter(m, e, p, round, n).baseline;
    AxisFallsQuiet(m, e, p, round, n, WorstAxis(b));
  }
}
