/**
 The zone-of-proximal-development monitor (model-packs/education/domain-lib/zpd_monitor_v0_2.py):
 the per-turn step, and the proof that the rolling window is a recount of the history.
 */
module ZpdMonitor {
  import opened Text

  datatype Correctness = Correct | Incorrect | Partial | Other

  /** The structured evidence of one turn; an absent field has the default the source reads for it. */
  datatype Evidence = Evidence(
    correctness: Correctness,
    hintUsed: bool,
    repeatedError: bool,
    frustrationMarkers: int,
    latency: Option<real>,
    offTaskRatio: real,
    solveElapsed: Option<real>)

  datatype TaskSpec = TaskSpec(nominal: real, skills: seq<string>)

  datatype Affect = Affect(salience: real, valence: real, arousal: real)

  datatype Window = Window(
    windowTurns: int,
    attempts: int,
    consecutiveIncorrect: int,
    hintCount: int,
    outsidePct: real,
    consecutiveOutside: int,
    outsideFlags: seq<bool>,
    hintFlags: seq<bool>)

  datatype Band = Band(min: real, max: real)

  /** The fields of `LearningState` proper. */
  datatype Zpd = Zpd(affect: Affect, mastery: map<string, real>, band: Band, window: Window,
                     challenge: real, uncertainty: real)

  datatype MasteryDeltas = MasteryDeltas(correctNoHint: real, correctHint: real, partialNoHint: real,
                                         partialHint: real, incorrect: real, repeatedError: real)

  /** `DEFAULT_PARAMS` with the overrides applied. */
  datatype Params = Params(
    minor: real,
    major: real,
    persistence: int,
    windowTurns: int,
    latencyThreshold: real,
    minTurnsBeforeEscalation: int,
    deltas: MasteryDeltas)

  const ZPD_TOLERANCE := 0.01

  datatype Tier = Ok | Minor | Major

  /** `action` is None, `zpd_scaffold` or `zpd_intervene_or_escalate`, one for each tier. */
  datatype Decision = Decision(tier: Tier, frustration: bool, driftPct: real, challenge: real,
                               outsideBand: bool, windowTurnsFilled: int)

  /** `max(lo, min(hi, value))` */
  function Clamp(value: real, lo: real, hi: real): (r: real)
    ensures lo <= hi ==> lo <= r <= hi
    ensures lo <= value <= hi ==> r == value
  {
    var m := if hi < value then hi else value;
    if m > lo then m else lo
  }

  function ClampedAffect(salience: real, valence: real, arousal: real): (a: Affect)
    ensures ValidAffect(a)
    ensures ValidAffect(Affect(salience, valence, arousal)) ==> a == Affect(salience, valence, arousal)
  {
    Affect(Clamp(salience, 0.0, 1.0), Clamp(valence, -1.0, 1.0), Clamp(arousal, 0.0, 1.0))
  }

  predicate ValidAffect(a: Affect) {
    0.0 <= a.salience <= 1.0 && -1.0 <= a.valence <= 1.0 && 0.0 <= a.arousal <= 1.0
  }

  // ---------------------------------------------------------------- estimators

  predicate Frustrated(w: Window, e: Evidence) {
    || w.consecutiveIncorrect >= 3
    || w.hintCount >= 3
    || e.frustrationMarkers >= 2
    || (e.repeatedError && w.consecutiveIncorrect >= 2)
  }

  function NextUncertainty(u: real, e: Evidence): (r: real)
    ensures 0.0 <= r <= 1.0
  {
    var delta :=
      if e.correctness.Correct? && !e.hintUsed then -0.10
      else if e.correctness.Incorrect? && e.repeatedError then 0.05
      else if e.correctness.Partial? then 0.02
      else if e.correctness.Correct? then -0.05
      else if e.correctness.Incorrect? then -0.02
      else -0.03;
    Clamp(u + delta, 0.0, 1.0)
  }

  function SumMastery(mastery: map<string, real>, skills: seq<string>): real {
    if skills == [] then 0.0
    else (if skills[0] in mastery then mastery[skills[0]] else 0.5) + SumMastery(mastery, skills[1..])
  }

  function NextChallenge(task: TaskSpec, mastery: map<string, real>, uncertainty: real): (r: real)
    ensures 0.0 <= r <= 1.0
  {
    var mean := if task.skills != [] && mastery != map[]
                then SumMastery(mastery, task.skills) / (|task.skills| as real) else 0.5;
    Clamp(task.nominal + (0.5 - mean) * 0.4 + uncertainty * 0.1, 0.0, 1.0)
  }

  function NextAffect(a: Affect, e: Evidence, p: Params): (r: Affect)
    ensures ValidAffect(r)
  {
    // `... or 30.0`: a latency of zero is read as absent
    var latency := if e.latency.None? || e.latency.value == 0.0 then 30.0 else e.latency.value;
    var unaided := e.correctness.Correct? && !e.hintUsed;
    var dSalience := (if e.offTaskRatio > 0.5 then -0.10 else 0.0)
                     + (if latency > p.latencyThreshold then -0.05 else 0.0)
                     + (if unaided then 0.05 else 0.0);
    var dValence := (if unaided then 0.10
                     else if e.correctness.Correct? then 0.03
                     else if e.correctness.Incorrect? then -0.08
                     else if e.correctness.Partial? then -0.02 else 0.0)
                    + (if e.frustrationMarkers >= 2 then -0.10 else 0.0);
    var dArousal := (if latency < 3.0 then 0.05 else if latency > 30.0 then -0.10 else 0.0)
                    + (if e.frustrationMarkers >= 2 then 0.15 else 0.0);
    ClampedAffect(a.salience + dSalience, a.valence + dValence, a.arousal + dArousal)
  }

  function MasteryDelta(e: Evidence, d: MasteryDeltas): real {
    match e.correctness
    case Correct => if e.hintUsed then d.correctHint else d.correctNoHint
    case Partial => if e.hintUsed then d.partialHint else d.partialNoHint
    case Incorrect => if e.repeatedError then d.repeatedError else d.incorrect
    case Other => 0.0
  }

  predicate ValidMastery(m: map<string, real>) {
    forall k | k in m :: 0.0 <= m[k] <= 1.0
  }

  function Raise(m: map<string, real>, skill: string, delta: real): (r: map<string, real>)
    ensures ValidMastery(m) ==> ValidMastery(r)
  {
    m[skill := Clamp((if skill in m then m[skill] else 0.0) + delta, 0.0, 1.0)]
  }

  /** One skill after another; a skill listed twice is updated twice. */
  function NextMastery(m: map<string, real>, skills: seq<string>, delta: real): (r: map<string, real>)
    ensures ValidMastery(m) ==> ValidMastery(r)
    decreases |skills|
  {
    if skills == [] then m
    else Raise(NextMastery(m, skills[..|skills| - 1], delta), skills[|skills| - 1], delta)
  }

  /** Exactly the required skills are touched, and each of them is known afterwards. */
  lemma {:induction false} MasteryFrame(m: map<string, real>, skills: seq<string>, delta: real)
    ensures forall k :: k in NextMastery(m, skills, delta) <==> k in m || k in skills
    ensures forall k | k in m && k !in skills :: NextMastery(m, skills, delta)[k] == m[k]
    decreases |skills|
  {
    if skills != [] {
      var n := |skills| - 1;
      MasteryFrame(m, skills[..n], delta);
      assert skills == skills[..n] + [skills[n]];
    }
  }

  /** A skill listed once moves by the delta, from zero if it was unknown, and is cut off at the ends. */
  lemma {:induction false} MasteryAmount(m: map<string, real>, skills: seq<string>, delta: real, i: nat)
    requires i < |skills| && forall j | 0 <= j < |skills| && j != i :: skills[j] != skills[i]
    ensures var was := if skills[i] in m then m[skills[i]] else 0.0;
      && skills[i] in NextMastery(m, skills, delta)
      && NextMastery(m, skills, delta)[skills[i]] == Clamp(was + delta, 0.0, 1.0)
    decreases |skills|
  {
    var n := |skills| - 1;
    if i < n {
      MasteryAmount(m, skills[..n], delta, i);
    } else {
      MasteryFrame(m, skills[..n], delta);
    }
  }

  /** `update_mastery`, the loop over a copy of the dictionary. */
  method UpdateMastery(m: map<string, real>, task: TaskSpec, e: Evidence, d: MasteryDeltas)
    returns (r: map<string, real>)
    ensures r == NextMastery(m, task.skills, MasteryDelta(e, d))
  {
    hide Raise, MasteryDelta;
    var delta := MasteryDelta(e, d);
    r := m;
    for i := 0 to |task.skills|
      invariant r == NextMastery(m, task.skills[..i], delta)
    {
      ghost var done := task.skills[..i + 1];
      assert done[..i] == task.skills[..i] && done[i] == task.skills[i];
      r := Raise(r, task.skills[i], delta);
    }
    assert task.skills[..|task.skills|] == task.skills;
  }

  // ---------------------------------------------------------------- the rolling window

  /** `flags[:n]`; a negative bound counts from the end. */
  function Prefix<T>(s: seq<T>, n: int): seq<T> {
    if n >= |s| then s
    else if n >= 0 then s[..n]
    else if |s| + n >= 0 then s[..|s| + n] else []
  }

  function Count(flags: seq<bool>): (n: nat)
    ensures n <= |flags|
    ensures n == 0 <==> true !in flags
  {
    if flags == [] then 0 else (if flags[0] then 1 else 0) + Count(flags[1..])
  }

  /** Off-task turns are recorded as inside the band. */
  predicate Recorded(outside: bool, e: Evidence) {
    outside && e.offTaskRatio < 0.8
  }

  function Share(flags: seq<bool>): real {
    Count(flags) as real / (if |flags| == 0 then 1 else |flags|) as real
  }

  /** `update_zpd_window` */
  function NextWindow(w: Window, outside: bool, e: Evidence, windowTurns: int): Window {
    var recorded := Recorded(outside, e);
    var outsideFlags := Prefix([recorded] + w.outsideFlags, windowTurns);
    var hintFlags := Prefix([e.hintUsed] + w.hintFlags, windowTurns);
    Window(windowTurns, w.attempts + 1,
           if e.correctness.Incorrect? then w.consecutiveIncorrect + 1 else 0,
           Count(hintFlags), Share(outsideFlags),
           if recorded then w.consecutiveOutside + 1 else 0,
           outsideFlags, hintFlags)
  }

  /** `_detect_drift` */
  function DetectTier(w: Window, frustration: bool, p: Params): Tier {
    var mayEscalate := frustration && w.attempts >= p.minTurnsBeforeEscalation;
    if w.outsidePct >= p.major || w.consecutiveOutside >= p.persistence || mayEscalate then Major
    else if w.outsidePct >= p.minor || frustration then Minor
    else Ok
  }

  predicate OutsideBand(challenge: real, band: Band) {
    challenge < band.min - ZPD_TOLERANCE || challenge > band.max + ZPD_TOLERANCE
  }

  predicate ValidZpd(s: Zpd) {
    ValidAffect(s.affect) && ValidMastery(s.mastery) && 0.0 <= s.challenge <= 1.0 && 0.0 <= s.uncertainty <= 1.0
  }

  /** `zpd_monitor_step` */
  function Step(s: Zpd, task: TaskSpec, e: Evidence, p: Params): (r: (Zpd, Decision))
    ensures ValidZpd(s) ==> ValidZpd(r.0)
    ensures r.0.band == s.band
    ensures r.0.window == NextWindow(s.window, r.1.outsideBand, e, p.windowTurns)
    ensures r.1.tier == DetectTier(r.0.window, Frustrated(r.0.window, e), p)
    ensures r.1.windowTurnsFilled == s.window.attempts + 1
  {
    var mastery := NextMastery(s.mastery, task.skills, MasteryDelta(e, p.deltas));
    var challenge := NextChallenge(task, mastery, s.uncertainty);
    var affect := NextAffect(s.affect, e, p);
    var outside := OutsideBand(challenge, s.band);
    var window := NextWindow(s.window, outside, e, p.windowTurns);
    var frustration := Frustrated(window, e);
    (Zpd(affect, mastery, s.band, window, challenge, NextUncertainty(s.uncertainty, e)),
     Decision(DetectTier(window, frustration, p), frustration, window.outsidePct, challenge, outside, window.attempts))
  }

  // ---------------------------------------------------------------- the window recounts the history

  /** What one turn feeds into the window. */
  datatype Turn = Turn(outside: bool, evidence: Evidence)

  const FRESH := Window(10, 0, 0, 0, 0.0, 0, [], [])

  function WindowAfter(w: Window, turns: seq<Turn>, windowTurns: int): Window {
    if turns == [] then w
    else
      var last := turns[|turns| - 1];
      NextWindow(WindowAfter(w, turns[..|turns| - 1], windowTurns), last.outside, last.evidence, windowTurns)
  }

  /** The last `n` elements, most recent first. */
  function Latest<T>(s: seq<T>, n: nat): (r: seq<T>)
    ensures |r| == if n <= |s| then n else |s|
    ensures forall i | 0 <= i < |r| :: r[i] == s[|s| - 1 - i]
  {
    if n == 0 || s == [] then [] else [s[|s| - 1]] + Latest(s[..|s| - 1], n - 1)
  }

  function RecordedFlags(turns: seq<Turn>): (r: seq<bool>)
    ensures |r| == |turns|
  {
    seq(|turns|, i requires 0 <= i < |turns| => Recorded(turns[i].outside, turns[i].evidence))
  }

  function HintFlags(turns: seq<Turn>): (r: seq<bool>)
    ensures |r| == |turns|
  {
    seq(|turns|, i requires 0 <= i < |turns| => turns[i].evidence.hintUsed)
  }

  function IncorrectFlags(turns: seq<Turn>): (r: seq<bool>)
    ensures |r| == |turns|
  {
    seq(|turns|, i requires 0 <= i < |turns| => turns[i].evidence.correctness.Incorrect?)
  }

  /** Length of the unbroken run of `true` at the end. */
  function TrailingRun(flags: seq<bool>): nat {
    if flags == [] || !flags[|flags| - 1] then 0 else 1 + TrailingRun(flags[..|flags| - 1])
  }

  /** The whole window as a function of the history, with nothing carried from turn to turn. */
  function Recount(turns: seq<Turn>, windowTurns: nat): Window {
    var outside := Latest(RecordedFlags(turns), windowTurns);
    var hints := Latest(HintFlags(turns), windowTurns);
    Window(windowTurns, |turns|, TrailingRun(IncorrectFlags(turns)), Count(hints), Share(outside),
           TrailingRun(RecordedFlags(turns)), outside, hints)
  }

  lemma LatestPush<T>(s: seq<T>, x: T, n: nat)
    ensures Latest(s + [x], n) == Prefix([x] + Latest(s, n), n)
  {
    assert (s + [x])[..|s|] == s;
    var r := Prefix([x] + Latest(s, n), n);
    assert |r| == |Latest(s + [x], n)|;
  }

  /** From a fresh window, the stored window always equals the recount of the last turns. */
  lemma {:induction false} WindowIsRecount(turns: seq<Turn>, windowTurns: nat)
    requires turns != []
    ensures WindowAfter(FRESH, turns, windowTurns) == Recount(turns, windowTurns)
  {
    hide Count, Share, Latest, Prefix, TrailingRun;
    var n := |turns| - 1;
    var before, last := turns[..n], turns[n];
    assert RecordedFlags(turns) == RecordedFlags(before) + [Recorded(last.outside, last.evidence)];
    assert HintFlags(turns) == HintFlags(before) + [last.evidence.hintUsed];
    assert IncorrectFlags(turns) == IncorrectFlags(before) + [last.evidence.correctness.Incorrect?];
    LatestPush(RecordedFlags(before), Recorded(last.outside, last.evidence), windowTurns);
    LatestPush(HintFlags(before), last.evidence.hintUsed, windowTurns);
    RunPush(RecordedFlags(before), Recorded(last.outside, last.evidence));
    RunPush(IncorrectFlags(before), last.evidence.correctness.Incorrect?);
    if before == [] {
      EmptyHistory(windowTurns);
    } else {
      WindowIsRecount(before, windowTurns);
    }
  }

  lemma EmptyHistory(windowTurns: nat)
    ensures var r := Recount([], windowTurns);
            r.outsideFlags == [] && r.hintFlags == [] && r.consecutiveIncorrect == 0 && r.consecutiveOutside == 0
  {}

  lemma RunPush(flags: seq<bool>, x: bool)
    ensures TrailingRun(flags + [x]) == if x then TrailingRun(flags) + 1 else 0
  {
    assert (flags + [x])[..|flags|] == flags;
  }

  /** The tier of the last turn, read off the history alone. */
  lemma TierOfHistory(turns: seq<Turn>, p: Params)
    requires turns != [] && p.windowTurns >= 0
    ensures var w := WindowAfter(FRESH, turns, p.windowTurns);
      var last := turns[|turns| - 1].evidence;
      var wrong := TrailingRun(IncorrectFlags(turns));
      var frustrated := wrong >= 3 || Count(Latest(HintFlags(turns), p.windowTurns)) >= 3
                        || last.frustrationMarkers >= 2 || (last.repeatedError && wrong >= 2);
      var share := Share(Latest(RecordedFlags(turns), p.windowTurns));
      && (DetectTier(w, Frustrated(w, last), p) == Major <==>
            || share >= p.major
            || TrailingRun(RecordedFlags(turns)) >= p.persistence
            || (frustrated && |turns| >= p.minTurnsBeforeEscalation))
      && (DetectTier(w, Frustrated(w, last), p) != Ok <==>
            || share >= p.major || share >= p.minor
            || TrailingRun(RecordedFlags(turns)) >= p.persistence
            || frustrated)
  {
    hide Count, Share, TrailingRun, WindowAfter;
    WindowIsRecount(turns, p.windowTurns);
  }

  // ---------------------------------------------------------------- calm turns

  /** In band or off task, not incorrect, no hint, fewer than two frustration markers. */
  predicate Calm(t: Turn) {
    !Recorded(t.outside, t.evidence) && !t.evidence.correctness.Incorrect?
    && !t.evidence.hintUsed && t.evidence.frustrationMarkers < 2
  }

  /** Calm turns push false flags in front of whatever the window held. */
  lemma {:induction false} CalmFlags(w: Window, turns: seq<Turn>, n: nat)
    requires forall t | t in turns :: Calm(t)
    ensures var r := WindowAfter(w, turns, n);
      && (forall i | 0 <= i < |r.outsideFlags| && i < |turns| :: !r.outsideFlags[i])
      && (forall i | 0 <= i < |r.hintFlags| && i < |turns| :: !r.hintFlags[i])
      && (turns != [] ==>
            && |r.outsideFlags| <= n && |r.hintFlags| <= n
            && r.hintCount == Count(r.hintFlags) && r.outsidePct == Share(r.outsideFlags)
            && r.consecutiveOutside == 0 && r.consecutiveIncorrect == 0)
  {
    hide Count, Share;
    if turns != [] {
      var before, last := turns[..|turns| - 1], turns[|turns| - 1];
      assert last in turns;
      CalmFlags(w, before, n);
    }
  }

  lemma NoneCounted(flags: seq<bool>)
    requires true !in flags
    ensures Share(flags) == 0.0
  {
    hide Count;
  }

  /** From any window, as many calm turns as the window is long end in tier "ok". */
  lemma CalmTurnsEndOk(w: Window, turns: seq<Turn>, p: Params)
    requires p.minor > 0.0 && p.major > 0.0 && p.persistence >= 1
    requires p.windowTurns >= 0 && turns != [] && |turns| >= p.windowTurns
    requires forall t | t in turns :: Calm(t)
    ensures var r := WindowAfter(w, turns, p.windowTurns);
            DetectTier(r, Frustrated(r, turns[|turns| - 1].evidence), p) == Ok
  {
    hide WindowAfter, Count;
    var r := WindowAfter(w, turns, p.windowTurns);
    CalmFlags(w, turns, p.windowTurns);
    assert Calm(turns[|turns| - 1]);
    assert true !in r.outsideFlags && true !in r.hintFlags;
    NoneCounted(r.outsideFlags);
  }
}
