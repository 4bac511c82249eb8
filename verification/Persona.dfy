/**
 Personas of the assistant pack (model-packs/assistant/domain-lib/persona_engine.py) and the gate a
 persona update passes before it is stored (model-packs/assistant/controllers/runtime_adapters.py).
 */
module Persona {
  import opened Text

  const ARCHETYPES := {"neutral", "professional", "casual", "sarcastic", "gremlin", "mentor", "hype", "custom"}

  const UNSAFE_PATTERNS := [
    "self-harm", "self harm", "suicide", "harm yourself", "hurt yourself", "encourage abuse", "abuse the user",
    "demean", "degrade", "harass", "incite violence", "incite harm", "instruct illegal", "illegal activity",
    "exploit", "manipulate psychologically"
  ]

  const UNSAFE_BEHAVIORS := {"self_harm", "incite_violence", "psychological_abuse", "harassment"}

  datatype Persona = Persona(archetype: string, intensity: real, name: Option<string>, traits: seq<string>,
                             allowed: seq<string>, limits: seq<string>, setupComplete: bool)

  function Clamp(x: real): (r: real)
    ensures 0.0 <= r <= 1.0
    ensures 0.0 <= x <= 1.0 ==> r == x
  {
    if x > 1.0 then 1.0 else if x < 0.0 then 0.0 else x
  }

  /** Every persona is made by `__post_init__`: clamped, and of a known archetype. */
  function Made(p: Persona): (q: Persona)
    ensures q.archetype in ARCHETYPES && 0.0 <= q.intensity <= 1.0
  {
    p.(intensity := Clamp(p.intensity), archetype := if p.archetype in ARCHETYPES then p.archetype else "neutral")
  }

  predicate WellFormed(p: Persona) {
    p.archetype in ARCHETYPES && 0.0 <= p.intensity <= 1.0
  }

  // ---------------------------------------------------------------- the safety gate

  predicate OccursAt(part: string, whole: string, i: nat) {
    i + |part| <= |whole| && whole[i..i + |part|] == part
  }

  predicate Within(part: string, whole: string) {
    exists i: nat | i <= |whole| :: OccursAt(part, whole, i)
  }

  type Lowering = string -> string

  predicate SafeTrait(style: string, lower: Lowering) {
    forall p <- UNSAFE_PATTERNS :: !Within(p, lower(style))
  }

  predicate Safe(p: Persona, lower: Lowering) {
    && p.archetype in ARCHETYPES
    && (forall t <- p.traits :: SafeTrait(t, lower))
    && (forall b <- p.allowed :: lower(b) !in UNSAFE_BEHAVIORS)
  }

  /** `is_safe_persona`: the scan stops at the first offending trait or behaviour. */
  method IsSafe(p: Persona, lower: Lowering) returns (safe: bool)
    ensures safe == Safe(p, lower)
  {
    hide SafeTrait;
    if p.archetype !in ARCHETYPES {
      return false;
    }
    for i := 0 to |p.traits|
      invariant forall t <- p.traits[..i] :: SafeTrait(t, lower)
    {
      var style := IsSafeTrait(p.traits[i], lower);
      if !style {
        return false;
      }
    }
    for i := 0 to |p.allowed|
      invariant forall b <- p.allowed[..i] :: lower(b) !in UNSAFE_BEHAVIORS
    {
      if lower(p.allowed[i]) in UNSAFE_BEHAVIORS {
        return false;
      }
    }
    safe := true;
  }

  method IsSafeTrait(style: string, lower: Lowering) returns (safe: bool)
    ensures safe == SafeTrait(style, lower)
  {
    hide Within;
    var patterns := UNSAFE_PATTERNS;
    for j := 0 to |patterns|
      invariant forall k | 0 <= k < j :: !Within(patterns[k], lower(style))
    {
      if Within(patterns[j], lower(style)) {
        assert patterns[j] in UNSAFE_PATTERNS;
        return false;
      }
    }
    safe := true;
  }

  // ---------------------------------------------------------------- updates

  /** A key of an update: not there, there with no value, or there with one. */
  datatype Field<T> = Absent | Null | Given(value: T)

  datatype Update = Update(archetype: Field<string>, intensity: Field<real>, name: Field<string>,
                           traits: Field<seq<string>>, allowed: Field<seq<string>>, limits: Field<seq<string>>,
                           setupComplete: Field<bool>)

  const NOTHING := Update(Absent, Absent, Absent, Absent, Absent, Absent, Absent)

  function Or<T>(field: Field<T>, absent: T, missing: T): T {
    match field case Absent => absent case Null => missing case Given(v) => v
  }

  /** The persona the gate looks at: `from_dict` of the stored one overlaid with the update; None if it raises. */
  function Judged(p: Persona, u: Update): Option<Persona> {
    if u.intensity.Null? then None
    else Some(Made(Persona(Or(u.archetype, p.archetype, "None"), Or(u.intensity, p.intensity, 0.0),
                           match u.name { case Absent => p.name case Null => None case Given(n) => Some(n) },
                           Or(u.traits, p.traits, []), Or(u.allowed, p.allowed, []), Or(u.limits, p.limits, []),
                           Or(u.setupComplete, p.setupComplete, false))))
  }

  /** The limits that are added: those not held yet, each once. */
  function Merge(held: seq<string>, incoming: seq<string>): seq<string> {
    if incoming == [] then held
    else
      var before := Merge(held, incoming[..|incoming| - 1]);
      if incoming[|incoming| - 1] in before then before else before + [incoming[|incoming| - 1]]
  }

  /** `update_persona`; None if it raises. */
  function Updated(p: Persona, u: Update): Option<Persona> {
    if u == NOTHING then Some(p)
    else if u.intensity.Null? || u.traits.Null? || u.allowed.Null? then None
    else
      var asked := Or(u.archetype, p.archetype, p.archetype);
      Some(Made(Persona(if asked in ARCHETYPES then asked else p.archetype,
                        Clamp(Or(u.intensity, p.intensity, 0.0)),
                        match u.name { case Absent => p.name case Null => None case Given(n) => Some(n) },
                        Or(u.traits, p.traits, []), Or(u.allowed, p.allowed, []),
                        Merge(p.limits, Or(u.limits, [], [])), Or(u.setupComplete, p.setupComplete, false))))
  }

  method UpdatePersona(current: Persona, u: Update) returns (result: Option<Persona>)
    ensures result == Updated(current, u)
  {
    if u == NOTHING {
      return Some(current);
    }
    if u.intensity.Null? || u.traits.Null? || u.allowed.Null? {
      return None;
    }
    var archetype := if u.archetype.Given? && u.archetype.value in ARCHETYPES then u.archetype.value
                     else current.archetype;
    var incoming := if u.limits.Given? then u.limits.value else [];
    var merged := current.limits;
    for i := 0 to |incoming|
      invariant merged == Merge(current.limits, incoming[..i])
    {
      assert incoming[..i + 1][..i] == incoming[..i];
      if incoming[i] !in merged {
        merged := merged + [incoming[i]];
      }
    }
    assert incoming[..|incoming|] == incoming;
    result := Some(Made(Persona(
      archetype, Clamp(Or(u.intensity, current.intensity, 0.0)),
      match u.name { case Absent => current.name case Null => None case Given(n) => Some(n) },
      Or(u.traits, current.traits, []), Or(u.allowed, current.allowed, []), merged,
      Or(u.setupComplete, current.setupComplete, false))));
  }

  /**
   The gate judges another persona than the one that is stored, yet it passes exactly when the stored one
   is safe: the two may differ in archetype and limits, never in traits or behaviours.
   */
  lemma GateJudgesWhatIsStored(p: Persona, u: Update, lower: Lowering)
    requires WellFormed(p) && Updated(p, u).Some?
    ensures Judged(p, u).Some?
    ensures Safe(Judged(p, u).value, lower) <==> Safe(Updated(p, u).value, lower)
    ensures Judged(p, u).value.traits == Updated(p, u).value.traits
    ensures Judged(p, u).value.allowed == Updated(p, u).value.allowed
  {
    hide SafeTrait;
  }

  /** What is given replaces what was there, what is absent stays, and numbers and archetypes are kept in bounds. */
  lemma UpdateTakesGiven(p: Persona, u: Update)
    requires WellFormed(p) && Updated(p, u).Some?
    ensures var q := Updated(p, u).value;
      && (u.intensity.Absent? ==> q.intensity == p.intensity)
      && (u.intensity.Given? && 0.0 <= u.intensity.value <= 1.0 ==> q.intensity == u.intensity.value)
      && (u.intensity.Given? && u.intensity.value > 1.0 ==> q.intensity == 1.0)
      && (u.intensity.Given? && u.intensity.value < 0.0 ==> q.intensity == 0.0)
      && q.archetype == (if u.archetype.Given? && u.archetype.value in ARCHETYPES then u.archetype.value
                         else p.archetype)
      && (u.traits.Absent? ==> q.traits == p.traits) && (u.traits.Given? ==> q.traits == u.traits.value)
      && (u.allowed.Absent? ==> q.allowed == p.allowed) && (u.allowed.Given? ==> q.allowed == u.allowed.value)
      && (u.name.Absent? ==> q.name == p.name) && (u.name.Null? ==> q.name == None)
      && (u.name.Given? ==> q.name == Some(u.name.value))
      && (u.setupComplete.Absent? ==> q.setupComplete == p.setupComplete)
      && (u.setupComplete.Given? ==> q.setupComplete == u.setupComplete.value)
      && (!u.setupComplete.Absent? && !u.setupComplete.Given? ==> !q.setupComplete)
      && p.limits <= q.limits
      && forall l :: l in q.limits <==> l in p.limits || (u.limits.Given? && l in u.limits.value)
  {
    hide Merge;
    MergeKeeps(p.limits, if u.limits.Given? then u.limits.value else []);
  }

  lemma {:induction false} MergeKeeps(held: seq<string>, incoming: seq<string>)
    ensures held <= Merge(held, incoming)
    ensures forall l :: l in Merge(held, incoming) <==> l in held || l in incoming
  {
    if incoming != [] {
      var n := |incoming| - 1;
      MergeKeeps(held, incoming[..n]);
      assert incoming == incoming[..n] + [incoming[n]];
    }
  }

  /** What is added is new and added once. */
  lemma {:induction false} MergeAddsOnce(held: seq<string>, incoming: seq<string>)
    ensures var merged := Merge(held, incoming);
      |held| <= |merged| && forall i, j | 0 <= i < j < |merged| && |held| <= j :: merged[i] != merged[j]
  {
    if incoming != [] {
      MergeAddsOnce(held, incoming[..|incoming| - 1]);
    }
  }

  // ---------------------------------------------------------------- the overlay

  datatype Overlay = Overlay(directive: string, tone: string, intensity: real, isDefault: bool)

  /** The labels and directives of the archetype table, and the two hints on how strongly to apply a style. */
  datatype Table = Table(tone: string -> string, directive: string -> string, subtle: string, full: string)

  function Joined(parts: seq<string>, between: string): string {
    if |parts| == 0 then "" else if |parts| == 1 then parts[0]
    else Joined(parts[..|parts| - 1], between) + between + parts[|parts| - 1]
  }

  predicate NeutralByDefault(p: Persona) {
    || p.intensity == 0.0
    || (p.archetype == "neutral" && p.traits == [])
    || (p.archetype == "custom" && p.traits == [])
  }

  function Style(p: Persona, table: Table): seq<string> {
    if p.archetype == "custom" then ["Adopt this style: " + Joined(p.traits, "; ") + "."]
    else (if table.directive(p.archetype) != "" then [table.directive(p.archetype)] else [])
         + (if p.traits != [] then ["Additional style notes: " + Joined(p.traits, "; ") + "."] else [])
  }

  function Rules(p: Persona, table: Table): seq<string> {
    (if p.allowed != [] then ["Allowed: " + Joined(p.allowed, ", ") + "."] else [])
    + (if p.limits != [] then ["Never: " + Joined(p.limits, ", ") + "."] else [])
    + (if p.intensity < 0.5 then [table.subtle] else if p.intensity >= 0.9 then [table.full] else [])
  }

  function Parts(p: Persona, table: Table): seq<string> {
    Style(p, table) + Rules(p, table)
  }

  function NamePrefix(p: Persona): string {
    if p.name.Some? && p.name.value != "" then "You are \"" + p.name.value + "\". " else ""
  }

  function Label(p: Persona, table: Table): string {
    if p.archetype == "custom" then "Custom" else table.tone(p.archetype)
  }

  function OverlayOf(p: Persona, table: Table): Overlay {
    if NeutralByDefault(p) then Overlay("", Label(p, table), p.intensity, true)
    else Overlay(NamePrefix(p) + Joined(Parts(p, table), " "), Label(p, table), p.intensity, false)
  }

  method BuildOverlay(p: Persona, table: Table) returns (overlay: Overlay)
    ensures overlay == OverlayOf(p, table)
  {
    hide Joined, Rules;
    if p.intensity == 0.0 || (p.archetype == "neutral" && p.traits == []) {
      return Overlay("", Label(p, table), p.intensity, true);
    }
    var parts: seq<string> := [];
    if p.archetype == "custom" {
      if p.traits != [] {
        parts := parts + ["Adopt this style: " + Joined(p.traits, "; ") + "."];
      } else {
        return Overlay("", "Custom", p.intensity, true);
      }
    } else {
      if table.directive(p.archetype) != "" {
        parts := parts + [table.directive(p.archetype)];
      }
      if p.traits != [] {
        parts := parts + ["Additional style notes: " + Joined(p.traits, "; ") + "."];
      }
    }
    assert parts == Style(p, table);
    parts := AddRules(parts, p, table);
    overlay := Overlay(NamePrefix(p) + Joined(parts, " "), Label(p, table), p.intensity, false);
  }

  method AddRules(style: seq<string>, p: Persona, table: Table) returns (parts: seq<string>)
    ensures parts == style + Rules(p, table)
  {
    hide Joined;
    parts := style;
    if p.allowed != [] {
      parts := parts + ["Allowed: " + Joined(p.allowed, ", ") + "."];
    }
    if p.limits != [] {
      parts := parts + ["Never: " + Joined(p.limits, ", ") + "."];
    }
    if p.intensity < 0.5 {
      parts := parts + [table.subtle];
    } else if p.intensity >= 0.9 {
      parts := parts + [table.full];
    }
  }

  const DEFAULT_CAPS := map["domain/asst/planning/v1" := 0.6, "domain/asst/domain-authority/v1" := 0.3]

  /** `apply_intensity_cap` */
  function Capped(p: Persona, moduleId: string, caps: map<string, real>): Persona {
    if moduleId !in caps || p.intensity <= caps[moduleId] then p else Made(p.(intensity := caps[moduleId]))
  }

  /** The overlay keeps to the module's cap if and only if the cap is not negative; the rest is untouched. */
  lemma OverlayKeepsCap(p: Persona, moduleId: string, caps: map<string, real>, table: Table)
    requires WellFormed(p) && moduleId in caps
    ensures var overlay := OverlayOf(Capped(p, moduleId, caps), table);
      && (overlay.intensity <= caps[moduleId] <==> caps[moduleId] >= 0.0)
      && overlay.intensity <= p.intensity
      && overlay.tone == Label(p, table)
    ensures Capped(p, moduleId, caps) == p.(intensity := Capped(p, moduleId, caps).intensity)
  {
    hide Joined, Parts;
  }

  // ---------------------------------------------------------------- hard limits reach the prompt

  lemma WithinLonger(part: string, whole: string, before: string, after: string)
    requires Within(part, whole)
    ensures Within(part, before + whole + after)
  {
    var i: nat :| i <= |whole| && OccursAt(part, whole, i);
    var longer := before + whole + after;
    var k := |before| + i;
    assert longer[k..k + |part|] == whole[i..i + |part|];
    assert OccursAt(part, longer, k);
  }

  lemma {:induction false} WithinJoined(parts: seq<string>, between: string, k: nat)
    requires k < |parts|
    ensures Within(parts[k], Joined(parts, between))
    decreases |parts|
  {
    hide Within;
    var n := |parts| - 1;
    if n == 0 {
      WithinItself(parts[0]);
    } else if k < n {
      WithinJoined(parts[..n], between, k);
      WithinLonger(parts[k], Joined(parts[..n], between), "", between + parts[n]);
      assert "" + Joined(parts[..n], between) + (between + parts[n]) == Joined(parts, between);
    } else {
      WithinItself(parts[n]);
      WithinLonger(parts[n], parts[n], Joined(parts[..n], between) + between, "");
      assert Joined(parts[..n], between) + between + parts[n] + "" == Joined(parts, between);
    }
  }

  lemma WithinItself(s: string)
    ensures Within(s, s)
  {
    assert OccursAt(s, s, 0);
  }

  lemma WithinTransitive(a: string, b: string, c: string)
    requires Within(a, b) && Within(b, c)
    ensures Within(a, c)
  {
    var j: nat :| j <= |c| && OccursAt(b, c, j);
    assert c == c[..j] + b + c[j + |b|..];
    WithinLonger(a, b, c[..j], c[j + |b|..]);
  }

  lemma NeverPart(p: Persona, table: Table) returns (k: nat)
    requires p.limits != []
    ensures k < |Parts(p, table)| && Parts(p, table)[k] == "Never: " + Joined(p.limits, ", ") + "."
  {
    hide Joined, Style;
    k := |Style(p, table)| + if p.allowed != [] then 1 else 0;
  }

  /** A hard limit is written out in the directive if and only if the persona is not neutral by default. */
  lemma LimitsReachTheDirective(p: Persona, table: Table, limit: string)
    requires limit in p.limits && limit != ""
    ensures Within(limit, OverlayOf(p, table).directive) <==> !NeutralByDefault(p)
  {
    hide Parts, Joined;
    if !NeutralByDefault(p) {
      LimitIsRendered(p, table, limit);
    }
  }

  lemma LimitIsRendered(p: Persona, table: Table, limit: string)
    requires limit in p.limits && !NeutralByDefault(p)
    ensures Within(limit, OverlayOf(p, table).directive)
  {
    hide Within, Parts, Joined;
    var i :| 0 <= i < |p.limits| && p.limits[i] == limit;
    WithinJoined(p.limits, ", ", i);
    var k := NeverPart(p, table);
    var parts := Parts(p, table);
    WithinLonger(limit, Joined(p.limits, ", "), "Never: ", ".");
    WithinJoined(parts, " ", k);
    WithinTransitive(limit, parts[k], Joined(parts, " "));
    WithinLonger(limit, Joined(parts, " "), NamePrefix(p), "");
    assert NamePrefix(p) + Joined(parts, " ") + "" == NamePrefix(p) + Joined(parts, " ");
  }

  // ---------------------------------------------------------------- turns

  /** The update of a turn counts only when its intent is `persona`. */
  datatype Turn = Turn(personaIntent: bool, update: Update, moduleId: string)

  /**
   The update raises on a null intensity, and on a null list that the gate lets pass as an empty one.
   */
  predicate Raises(p: Persona, turn: Turn, lower: Lowering) {
    var u := turn.update;
    && turn.personaIntent
    && (u.intensity.Null? || ((u.traits.Null? || u.allowed.Null?) && Safe(Judged(p, u).value, lower)))
  }

  /** The persona part of `domain_step`; a turn that raises leaves the state as it was. */
  function AfterTurn(p: Persona, turn: Turn, lower: Lowering): Persona {
    if !turn.personaIntent || turn.update == NOTHING then p
    else if Judged(p, turn.update).None? || !Safe(Judged(p, turn.update).value, lower) then p
    else if Updated(p, turn.update).None? then p
    else Updated(p, turn.update).value
  }

  class Assistant {
    var persona: Persona
    var overlay: Overlay

    constructor (persona: Persona, table: Table)
      ensures this.persona == persona && overlay == OverlayOf(persona, table)
    {
      this.persona, overlay := persona, OverlayOf(persona, table);
    }

    method DomainStep(turn: Turn, lower: Lowering, table: Table) returns (ok: bool)
      modifies this
      ensures persona == AfterTurn(old(persona), turn, lower)
      ensures ok <==> !Raises(old(persona), turn, lower)
      ensures ok ==> overlay == OverlayOf(Capped(persona, turn.moduleId, DEFAULT_CAPS), table)
      ensures !ok ==> persona == old(persona) && overlay == old(overlay)
    {
      hide Safe, OverlayOf;
      var current := persona;
      if turn.personaIntent && turn.update != NOTHING {
        var judged := Judged(current, turn.update);
        if judged.None? {
          return false;
        }
        var safe := IsSafe(judged.value, lower);
        if safe {
          var updated := UpdatePersona(current, turn.update);
          if updated.None? {
            return false;
          }
          current := updated.value;
        }
      }
      var shown := BuildOverlay(Capped(current, turn.moduleId, DEFAULT_CAPS), table);
      persona, overlay, ok := current, shown, true;
    }
  }

  function AfterTurns(p: Persona, turns: seq<Turn>, lower: Lowering): Persona {
    if turns == [] then p else AfterTurn(AfterTurns(p, turns[..|turns| - 1], lower), turns[|turns| - 1], lower)
  }

  lemma OneTurnIsSafe(p: Persona, turn: Turn, lower: Lowering)
    requires WellFormed(p) && Safe(p, lower)
    ensures WellFormed(AfterTurn(p, turn, lower)) && Safe(AfterTurn(p, turn, lower), lower)
  {
    hide Safe, Judged;
    if AfterTurn(p, turn, lower) != p {
      GateJudgesWhatIsStored(p, turn.update, lower);
    }
  }

  lemma OneTurnKeepsLimits(p: Persona, turn: Turn, lower: Lowering)
    ensures p.limits <= AfterTurn(p, turn, lower).limits
  {
    hide Safe, Judged, Merge;
    MergeKeeps(p.limits, Or(turn.update.limits, [], []));
  }

  /** From a safe persona, every run of turns stores only safe personas. */
  lemma {:induction false} StaysSafe(p: Persona, turns: seq<Turn>, lower: Lowering)
    requires WellFormed(p) && Safe(p, lower)
    ensures WellFormed(AfterTurns(p, turns, lower)) && Safe(AfterTurns(p, turns, lower), lower)
  {
    hide Safe, AfterTurn;
    if turns != [] {
      StaysSafe(p, turns[..|turns| - 1], lower);
      OneTurnIsSafe(AfterTurns(p, turns[..|turns| - 1], lower), turns[|turns| - 1], lower);
    }
  }

  /** The limits of any moment of a run are a prefix of those of any later one. */
  lemma {:induction false} LimitsOnlyGrow(p: Persona, turns: seq<Turn>, k: nat, lower: Lowering)
    requires k <= |turns|
    ensures AfterTurns(p, turns[..k], lower).limits <= AfterTurns(p, turns, lower).limits
    decreases |turns|
  {
    hide AfterTurn;
    if k == |turns| {
      assert turns[..k] == turns;
    } else {
      var n := |turns| - 1;
      LimitsOnlyGrow(p, turns[..n], k, lower);
      assert turns[..n][..k] == turns[..k];
      OneTurnKeepsLimits(AfterTurns(p, turns[..n], lower), turns[n], lower);
    }
  }

  /** A limit once accepted is in every directive from then on, in any module, unless none is rendered. */
  lemma AcceptedLimitIsKept(p: Persona, turns: seq<Turn>, k: nat, limit: string, moduleId: string,
                            lower: Lowering, table: Table)
    requires k <= |turns| && limit in AfterTurns(p, turns[..k], lower).limits && limit != ""
    ensures var shown := Capped(AfterTurns(p, turns, lower), moduleId, DEFAULT_CAPS);
      Within(limit, OverlayOf(shown, table).directive) <==> !NeutralByDefault(shown)
  {
    hide AfterTurns, OverlayOf, Within, NeutralByDefault;
    LimitsOnlyGrow(p, turns, k, lower);
    LimitsReachTheDirective(Capped(AfterTurns(p, turns, lower), moduleId, DEFAULT_CAPS), table, limit);
  }
}
