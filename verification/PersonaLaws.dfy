/**
 What the gate refuses, what a turn stores, and what an overlay says, told by the texts of the persona alone.
 */
module PersonaLaws {
  import opened Text
  import opened Persona

  // ---------------------------------------------------------------- what is harmless

  /** No unsafe pattern stands anywhere in the lower-cased traits, and no lower-cased behaviour is on the list. */
  ghost predicate Harmless(traits: seq<string>, allowed: seq<string>, lower: Lowering) {
    && (forall t <- traits, pattern <- UNSAFE_PATTERNS, before, after :: lower(t) != before + pattern + after)
    && !exists b <- allowed :: lower(b) in UNSAFE_BEHAVIORS
  }

  lemma WithinIs(part: string, whole: string)
    ensures Within(part, whole) <==> exists before, after :: whole == before + part + after
  {
    if i: nat :| i <= |whole| && OccursAt(part, whole, i) {
      assert whole == whole[..i] + part + whole[i + |part|..];
    }
    if before, after :| whole == before + part + after {
      assert whole[|before|..|before| + |part|] == part;
      assert OccursAt(part, whole, |before|);
    }
  }

  lemma SafeMeansHarmless(p: Persona, lower: Lowering)
    ensures Safe(p, lower) <==> p.archetype in ARCHETYPES && Harmless(p.traits, p.allowed, lower)
  {
    hide Within;
    forall t, pattern
      ensures Within(pattern, lower(t)) <==> exists before, after :: lower(t) == before + pattern + after
    {
      WithinIs(pattern, lower(t));
    }
  }

  // ---------------------------------------------------------------- what a turn stores

  /** The list an update leaves, when null empties it. */
  function Left(field: Field<seq<string>>, held: seq<string>): seq<string> {
    if field.Absent? then held else if field.Given? then field.value else []
  }

  /** A turn of the persona intent that asks for something which is harmless. */
  ghost predicate AsksHarmless(p: Persona, turn: Turn, lower: Lowering) {
    turn.personaIntent && turn.update != NOTHING
    && Harmless(Left(turn.update.traits, p.traits), Left(turn.update.allowed, p.allowed), lower)
  }

  /**
   A turn stores its update if and only if that is harmless and gives no null for a number or a list; a null
   number, or a null list that is harmless, raises; and anything else leaves the persona as it was.
   */
  lemma TurnStores(p: Persona, turn: Turn, lower: Lowering)
    requires WellFormed(p)
    ensures var u := turn.update;
      var complete := !u.intensity.Null? && !u.traits.Null? && !u.allowed.Null?;
      && (AsksHarmless(p, turn, lower) && complete ==>
            Updated(p, u).Some? && AfterTurn(p, turn, lower) == Updated(p, u).value)
      && (!(AsksHarmless(p, turn, lower) && complete) ==> AfterTurn(p, turn, lower) == p)
      && (Raises(p, turn, lower) <==>
            && turn.personaIntent
            && (u.intensity.Null? || ((u.traits.Null? || u.allowed.Null?) && AsksHarmless(p, turn, lower))))
  {
    hide Safe, Harmless;
    if !turn.update.intensity.Null? {
      SafeMeansHarmless(Judged(p, turn.update).value, lower);
    }
  }

  /** So behind any run too. */
  lemma RunStores(p: Persona, turns: seq<Turn>, turn: Turn, lower: Lowering)
    requires WellFormed(p) && Harmless(p.traits, p.allowed, lower)
    ensures var before, u := AfterTurns(p, turns, lower), turn.update;
      AfterTurns(p, turns + [turn], lower)
      == if AsksHarmless(before, turn, lower) && !u.intensity.Null? && !u.traits.Null? && !u.allowed.Null?
            && Updated(before, u).Some?
         then Updated(before, u).value else before
  {
    hide AsksHarmless, AfterTurn, Updated, Harmless;
    assert (turns + [turn])[..|turns|] == turns;
    StaysHarmless(p, turns, lower);
    TurnStores(AfterTurns(p, turns, lower), turn, lower);
  }

  /** From a harmless persona, every run stores only harmless ones, of a known archetype and an intensity in bounds. */
  lemma StaysHarmless(p: Persona, turns: seq<Turn>, lower: Lowering)
    requires WellFormed(p) && Harmless(p.traits, p.allowed, lower)
    ensures var q := AfterTurns(p, turns, lower);
      && Harmless(q.traits, q.allowed, lower)
      && q.archetype in {"neutral", "professional", "casual", "sarcastic", "gremlin", "mentor", "hype", "custom"}
      && 0.0 <= q.intensity <= 1.0
  {
    hide Safe, Harmless, AfterTurns;
    SafeMeansHarmless(p, lower);
    StaysSafe(p, turns, lower);
    SafeMeansHarmless(AfterTurns(p, turns, lower), lower);
  }

  // ---------------------------------------------------------------- what an overlay says

  /** Which personas have no overlay to show. */
  predicate Shows(p: Persona) {
    p.intensity != 0.0 && !(p.traits == [] && (p.archetype == "neutral" || p.archetype == "custom"))
  }

  lemma OverlayShows(p: Persona, table: Table)
    ensures var overlay := OverlayOf(p, table);
      && (overlay.isDefault <==> !Shows(p))
      && (!Shows(p) ==> overlay.directive == "")
      && overlay.intensity == p.intensity
      && overlay.tone == (if p.archetype == "custom" then "Custom" else table.tone(p.archetype))
      && (NeutralByDefault(p) <==> !Shows(p))
  {
    hide Joined, Parts;
  }

  lemma PartIsShown(p: Persona, table: Table, k: nat)
    requires Shows(p) && k < |Parts(p, table)|
    ensures Within(Parts(p, table)[k], OverlayOf(p, table).directive)
  {
    hide Within, Parts, Joined;
    var parts := Parts(p, table);
    WithinJoined(parts, " ", k);
    WithinLonger(parts[k], Joined(parts, " "), NamePrefix(p), "");
    assert NamePrefix(p) + Joined(parts, " ") + "" == NamePrefix(p) + Joined(parts, " ");
  }

  /** The overlay opens with the name, if there is one, and otherwise with the style. */
  lemma NameIsShown(p: Persona, table: Table)
    requires Shows(p) && p.name.Some? && p.name.value != ""
    ensures var opening := "You are \"" + p.name.value + "\". ";
            opening <= OverlayOf(p, table).directive
  {
    hide Joined, Parts;
  }

  /** Every trait, every allowed behaviour and the hint on strength are written out in an overlay that is shown. */
  lemma StyleIsShown(p: Persona, table: Table, t: string)
    requires Shows(p)
    ensures t in p.traits ==> Within(t, OverlayOf(p, table).directive)
    ensures t in p.allowed ==> Within(t, OverlayOf(p, table).directive)
    ensures p.intensity < 0.5 ==> Within(table.subtle, OverlayOf(p, table).directive)
    ensures p.intensity >= 0.9 ==> Within(table.full, OverlayOf(p, table).directive)
    ensures p.archetype != "custom" && table.directive(p.archetype) != "" ==>
              Within(table.directive(p.archetype), OverlayOf(p, table).directive)
  {
    hide Within, Parts, Joined, OverlayOf;
    var parts := Parts(p, table);
    if t in p.traits {
      var i :| 0 <= i < |p.traits| && p.traits[i] == t;
      var k := TraitsPart(p, table);
      WithinJoined(p.traits, "; ", i);
      WithinLonger(t, Joined(p.traits, "; "), if p.archetype == "custom" then "Adopt this style: "
                                              else "Additional style notes: ", ".");
      PartIsShown(p, table, k);
      WithinTransitive(t, parts[k], OverlayOf(p, table).directive);
    }
    if t in p.allowed {
      var i :| 0 <= i < |p.allowed| && p.allowed[i] == t;
      var k := AllowedPart(p, table);
      WithinJoined(p.allowed, ", ", i);
      WithinLonger(t, Joined(p.allowed, ", "), "Allowed: ", ".");
      PartIsShown(p, table, k);
      WithinTransitive(t, parts[k], OverlayOf(p, table).directive);
    }
    if p.intensity < 0.5 || p.intensity >= 0.9 {
      var k := HintPart(p, table);
      PartIsShown(p, table, k);
    }
    if p.archetype != "custom" && table.directive(p.archetype) != "" {
      FirstPart(p, table);
      PartIsShown(p, table, 0);
    }
  }

  lemma TraitsPart(p: Persona, table: Table) returns (k: nat)
    requires p.traits != []
    ensures k < |Parts(p, table)|
    ensures Parts(p, table)[k] == (if p.archetype == "custom" then "Adopt this style: " else "Additional style notes: ")
                                  + Joined(p.traits, "; ") + "."
  {
    hide Joined, Rules;
    k := |Style(p, table)| - 1;
  }

  lemma AllowedPart(p: Persona, table: Table) returns (k: nat)
    requires p.allowed != []
    ensures k < |Parts(p, table)| && Parts(p, table)[k] == "Allowed: " + Joined(p.allowed, ", ") + "."
  {
    hide Joined, Style;
    k := |Style(p, table)|;
  }

  lemma HintPart(p: Persona, table: Table) returns (k: nat)
    requires p.intensity < 0.5 || p.intensity >= 0.9
    ensures k < |Parts(p, table)| && Parts(p, table)[k] == if p.intensity < 0.5 then table.subtle else table.full
  {
    hide Joined, Style;
    k := |Parts(p, table)| - 1;
  }

  lemma FirstPart(p: Persona, table: Table)
    requires p.archetype != "custom" && table.directive(p.archetype) != ""
    ensures |Parts(p, table)| > 0 && Parts(p, table)[0] == table.directive(p.archetype)
  {
    hide Joined, Rules;
  }

  /** Joining puts the separator between any two neighbours and nowhere else. */
  lemma {:induction false} JoinedConcat(a: seq<string>, b: seq<string>, between: string)
    requires a != [] && b != []
    ensures Joined(a + b, between) == Joined(a, between) + between + Joined(b, between)
    ensures Joined([a[0]], between) == a[0]
    decreases |b|
  {
    var n := |b| - 1;
    if n == 0 {
      assert (a + b)[..|a|] == a;
    } else {
      JoinedConcat(a, b[..n], between);
      assert (a + b)[..|a + b| - 1] == a + b[..n];
    }
  }

  /** The directive of an archetype in full, where there is nothing else to say. */
  lemma ArchetypeDirective(p: Persona, table: Table)
    requires p.archetype != "custom" && p.archetype != "neutral" && p.traits == [] && p.name.None?
    requires p.allowed == [] && p.limits == [] && 0.5 <= p.intensity < 0.9 && table.directive(p.archetype) != ""
    ensures OverlayOf(p, table).directive == table.directive(p.archetype)
  {
    assert Parts(p, table) == [table.directive(p.archetype)];
  }

  /** The directive of a custom style in full, where there is nothing else to say. */
  lemma CustomDirective(p: Persona, table: Table)
    requires p.archetype == "custom" && p.traits != [] && p.name.None? && p.allowed == [] && p.limits == []
    requires 0.5 <= p.intensity < 0.9
    ensures OverlayOf(p, table).directive == "Adopt this style: " + Joined(p.traits, "; ") + "."
  {
    var style := "Adopt this style: " + Joined(p.traits, "; ") + ".";
    assert Parts(p, table) == [style];
    assert Joined([style], " ") == style;
  }
}
