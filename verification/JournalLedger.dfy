/**
 The escalation record of the journal as the JSON record that is appended to the ledger of the session
 (`_create_wellness_escalation` in model-packs/education/controllers/journal_adapters.py).
 */
module JournalLedger {
  import opened Text
  import opened Json
  import opened JsonLaws
  import opened Ledger
  import Journal

  /** What the clock, the id generator and the caller add. */
  datatype Ids = Ids(recordId: string, timestamp: string, session: string, user: Option<string>)

  /** How floats are printed. */
  type Shown = real -> string

  ghost predicate ShowsFloats(show: Shown, repr: Repr) {
    forall x :: Printed(show(x), repr)
  }

  function Aggregate(s: Journal.Signals, show: Shown): Value {
    Obj([Field("valence", Float(show(s.valence))), Field("arousal", Float(show(s.arousal))),
         Field("salience", Float(show(s.salience)))])
  }

  function TierCount(tier: string, count: int): Value {
    Obj([Field("tier", Str(tier)), Field("count", Num(count))])
  }

  function Evidence(e: Journal.Escalation, show: Shown): Value {
    Obj([Field("sva_aggregate", Aggregate(e.reading, show)),
         Field("intervention_history", Arr([TierCount("tier1", e.tier1Count), TierCount("tier2", e.tier2Count)])),
         Field("sessions_affected", Num(e.sessions))])
  }

  function RecordHead(e: Journal.Escalation, ids: Ids): seq<Field> {
    [Field("record_type", Str("EscalationRecord")), Field("record_id", Str(ids.recordId)),
     Field("prev_record_hash", Str("genesis")), Field("timestamp_utc", Str(ids.timestamp)),
     Field("session_id", Str(ids.session)),
     Field("subject_id", if ids.user.Some? then Str(ids.user.value) else Null),
     Field("escalating_actor_id", Str("journal_domain_step")),
     Field("target_meta_authority_id", Str(e.target))]
  }

  const TRIGGER := "Sustained wellness signal detected across sessions during journaling"
  const PROPOSAL := "Please check in with this student \U{2014} they may benefit from support."

  function RecordTail(e: Journal.Escalation, show: Shown): seq<Field> {
    [Field("trigger", Str(TRIGGER)), Field("trigger_type", Str("wellness_critical")),
     Field("trigger_standing_order_id", Str("journal_tier3_protocol")), Field("trigger_invariant_id", Null),
     Field("model_pack_id", Str("domain/edu/general-education/v1")), Field("model_pack_version", Str("0.2.0")),
     Field("evidence_summary", Evidence(e, show)), Field("decision_trail_hashes", Arr([])),
     Field("proposed_action", Str(PROPOSAL)),
     Field("resolution_commitment_id", Null), Field("status", Str("pending")), Field("sla_deadline_utc", Null),
     Field("metadata", Obj([]))]
  }

  function RecordValue(e: Journal.Escalation, ids: Ids, show: Shown): Value {
    Obj(RecordHead(e, ids) + RecordTail(e, show))
  }

  const HEAD_KEYS := ["record_type", "record_id", "prev_record_hash", "timestamp_utc", "session_id", "subject_id",
                      "escalating_actor_id", "target_meta_authority_id"]

  const TAIL_KEYS := ["trigger", "trigger_type", "trigger_standing_order_id", "trigger_invariant_id",
                      "model_pack_id", "model_pack_version", "evidence_summary", "decision_trail_hashes",
                      "proposed_action", "resolution_commitment_id", "status", "sla_deadline_utc", "metadata"]

  lemma HeadKeys(e: Journal.Escalation, ids: Ids)
    ensures |RecordHead(e, ids)| == |HEAD_KEYS|
    ensures forall i | 0 <= i < |HEAD_KEYS| :: RecordHead(e, ids)[i].key == HEAD_KEYS[i]
  {}

  lemma TailKeys(e: Journal.Escalation, show: Shown)
    ensures |RecordTail(e, show)| == |TAIL_KEYS|
    ensures forall i | 0 <= i < |TAIL_KEYS| :: RecordTail(e, show)[i].key == TAIL_KEYS[i]
  {}

  lemma KeysDiffer()
    ensures var keys := HEAD_KEYS + TAIL_KEYS;
            forall i, j | 0 <= i < j < |keys| :: keys[i] != keys[j]
  {}

  lemma KeysOf(e: Journal.Escalation, ids: Ids, show: Shown)
    ensures DistinctKeys(RecordValue(e, ids, show).fields)
  {
    hide RecordHead, RecordTail;
    var fields := RecordValue(e, ids, show).fields;
    HeadKeys(e, ids);
    TailKeys(e, show);
    KeysDiffer();
    forall i | 0 <= i < |fields| ensures fields[i].key == (HEAD_KEYS + TAIL_KEYS)[i] {
      assert fields == RecordHead(e, ids) + RecordTail(e, show);
    }
  }

  lemma AggregateIsPython(r: Journal.Signals, show: Shown, repr: Repr)
    requires ShowsFloats(show, repr)
    ensures IsPython(Aggregate(r, show), repr)
  {
    hide Printed;
  }

  lemma CountIsPython(tier: string, count: int, repr: Repr)
    ensures IsPython(TierCount(tier, count), repr)
  {}

  lemma EvidenceIsPython(e: Journal.Escalation, show: Shown, repr: Repr)
    requires ShowsFloats(show, repr)
    ensures IsPython(Evidence(e, show), repr)
  {
    hide Printed, Aggregate, TierCount;
    AggregateIsPython(e.reading, show, repr);
    CountIsPython("tier1", e.tier1Count, repr);
    CountIsPython("tier2", e.tier2Count, repr);
    assert IsPython(Arr([TierCount("tier1", e.tier1Count), TierCount("tier2", e.tier2Count)]), repr);
  }

  predicate ValuesArePython(fields: seq<Field>, repr: Repr) {
    forall i | 0 <= i < |fields| :: IsPython(fields[i].value, repr)
  }

  lemma HeadIsPython(e: Journal.Escalation, ids: Ids, repr: Repr)
    ensures ValuesArePython(RecordHead(e, ids), repr)
  {}

  lemma TailIsPython(e: Journal.Escalation, show: Shown, repr: Repr)
    requires ShowsFloats(show, repr)
    ensures ValuesArePython(RecordTail(e, show), repr)
  {
    hide Evidence;
    EvidenceIsPython(e, show, repr);
  }

  lemma RecordIsValid(e: Journal.Escalation, ids: Ids, show: Shown, repr: Repr)
    requires ShowsFloats(show, repr)
    ensures IsPython(RecordValue(e, ids, show), repr) && ValidRecord(RecordValue(e, ids, show))
    ensures Lookup(RecordValue(e, ids, show).fields, "prev_record_hash") == Some(Str("genesis"))
  {
    var r := RecordValue(e, ids, show);
    KeysOf(e, ids, show);
    HeadIsPython(e, ids, repr);
    TailIsPython(e, show, repr);
    GenesisIsThird(e, ids, show);
    hide DistinctKeys, RecordHead, RecordTail;
    assert ValuesArePython(r.fields, repr);
    PythonIsWellFormed(r, repr);
    LookupAt(r.fields, 2);
  }

  lemma GenesisIsThird(e: Journal.Escalation, ids: Ids, show: Shown)
    ensures var fields := RecordValue(e, ids, show).fields;
            |fields| > 2 && fields[2] == Field("prev_record_hash", Str("genesis"))
  {
    hide RecordTail;
  }

  lemma KeyAt(e: Journal.Escalation, ids: Ids, show: Shown, i: nat)
    requires i < |RecordValue(e, ids, show).fields|
    ensures var f := RecordValue(e, ids, show).fields[i];
            Lookup(RecordValue(e, ids, show).fields, f.key) == Some(f.value)
  {
    hide RecordHead, RecordTail, Lookup;
    KeysOf(e, ids, show);
    LookupAt(RecordValue(e, ids, show).fields, i);
  }

  /** What the record says of whom it is for and of where it comes from, key by key. */
  lemma RecordSays(e: Journal.Escalation, ids: Ids, show: Shown)
    ensures var r := RecordValue(e, ids, show).fields;
      && Lookup(r, "record_type") == Some(Str("EscalationRecord"))
      && Lookup(r, "record_id") == Some(Str(ids.recordId)) && Lookup(r, "timestamp_utc") == Some(Str(ids.timestamp))
      && Lookup(r, "session_id") == Some(Str(ids.session))
      && Lookup(r, "subject_id") == Some(if ids.user.Some? then Str(ids.user.value) else Null)
      && Lookup(r, "escalating_actor_id") == Some(Str("journal_domain_step"))
      && Lookup(r, "target_meta_authority_id") == Some(Str(e.target))
      && Lookup(r, "evidence_summary") == Some(Evidence(e, show))
  {
    hide Lookup, RecordTail, Evidence;
    var fields := RecordValue(e, ids, show).fields;
    assert fields == RecordHead(e, ids) + RecordTail(e, show);
    forall i | 0 <= i < |fields| ensures Lookup(fields, fields[i].key) == Some(fields[i].value) {
      KeyAt(e, ids, show, i);
    }
    assert fields[0].key == "record_type" && fields[1].key == "record_id" && fields[3].key == "timestamp_utc";
    assert fields[4].key == "session_id" && fields[5].key == "subject_id";
    assert fields[6].key == "escalating_actor_id" && fields[7].key == "target_meta_authority_id";
    EvidenceAt(e, show);
    assert fields[14] == RecordTail(e, show)[6];
  }

  lemma EvidenceAt(e: Journal.Escalation, show: Shown)
    ensures |RecordTail(e, show)| == 13 && RecordTail(e, show)[6] == Field("evidence_summary", Evidence(e, show))
  {
    hide Evidence;
  }

  /** The other keys say the same in every record. */
  lemma RecordAlwaysSays(e: Journal.Escalation, ids: Ids, show: Shown)
    ensures var r := RecordValue(e, ids, show).fields;
      && Lookup(r, "trigger_type") == Some(Str("wellness_critical"))
      && Lookup(r, "trigger_standing_order_id") == Some(Str("journal_tier3_protocol"))
      && Lookup(r, "trigger_invariant_id") == Some(Null)
      && Lookup(r, "model_pack_id") == Some(Str("domain/edu/general-education/v1"))
      && Lookup(r, "model_pack_version") == Some(Str("0.2.0"))
      && Lookup(r, "decision_trail_hashes") == Some(Arr([])) && Lookup(r, "resolution_commitment_id") == Some(Null)
      && Lookup(r, "status") == Some(Str("pending")) && Lookup(r, "sla_deadline_utc") == Some(Null)
      && Lookup(r, "metadata") == Some(Obj([]))
  {
    hide Lookup, RecordHead, Evidence;
    var fields, tail := RecordValue(e, ids, show).fields, RecordTail(e, show);
    HeadKeys(e, ids);
    forall i | 0 <= i < |tail| ensures Lookup(fields, tail[i].key) == Some(tail[i].value) {
      KeyAt(e, ids, show, 8 + i);
      assert fields[8 + i] == tail[i];
    }
    assert tail[1].key == "trigger_type" && tail[2].key == "trigger_standing_order_id";
    assert tail[3].key == "trigger_invariant_id" && tail[4].key == "model_pack_id";
    assert tail[5].key == "model_pack_version" && tail[7].key == "decision_trail_hashes";
    assert tail[9].key == "resolution_commitment_id" && tail[10].key == "status";
    assert tail[11].key == "sla_deadline_utc" && tail[12].key == "metadata";
  }

  /** The evidence is the reading, axis by axis, how often each tier had fired, and the number of sessions. */
  lemma EvidenceSays(e: Journal.Escalation, show: Shown)
    ensures Evidence(e, show).Obj?
    ensures var r := Evidence(e, show).fields;
      && Lookup(r, "sessions_affected") == Some(Num(e.sessions))
      && Lookup(r, "sva_aggregate") == Some(Aggregate(e.reading, show))
      && Lookup(r, "intervention_history")
         == Some(Arr([Obj([Field("tier", Str("tier1")), Field("count", Num(e.tier1Count))]),
                      Obj([Field("tier", Str("tier2")), Field("count", Num(e.tier2Count))])]))
    ensures Aggregate(e.reading, show).Obj?
    ensures var r := Aggregate(e.reading, show).fields;
      && Lookup(r, "valence") == Some(Float(show(e.reading.valence)))
      && Lookup(r, "arousal") == Some(Float(show(e.reading.arousal)))
      && Lookup(r, "salience") == Some(Float(show(e.reading.salience)))
  {
    hide Lookup;
    var summary, reading := Evidence(e, show).fields, Aggregate(e.reading, show).fields;
    ThirdOf(summary);
    ThirdOf(reading);
    assert summary[0].key == "sva_aggregate" && summary[1].key == "intervention_history";
    assert summary[2].key == "sessions_affected";
    assert reading[0].key == "valence" && reading[1].key == "arousal" && reading[2].key == "salience";
  }

  lemma ThirdOf(fields: seq<Field>)
    requires |fields| == 3 && DistinctKeys(fields)
    ensures forall i | 0 <= i < 3 :: Lookup(fields, fields[i].key) == Some(fields[i].value)
  {
    hide Lookup, DistinctKeys;
    LookupAt(fields, 0);
    LookupAt(fields, 1);
    LookupAt(fields, 2);
  }

  /**
   Whatever the journal's run, its escalation names itself the first record: appended to an intact ledger it
   breaks the chain, at its own index, unless the ledger was empty.
   */
  lemma EscalationBreaksChain(sha: Sha, rs: seq<Value>, turns: seq<Journal.Turn>, sessions: int,
                              t: Journal.Thresholds, f: Journal.Numerics, ids: Ids, show: Shown, repr: Repr)
    requires forall s :: sha(s) != "genesis"
    requires ShowsFloats(show, repr) && ValidRecords(rs) && Intact(sha, rs)
    ensures forall e <- Journal.After(turns, sessions, t, f).escalations ::
      var after := rs + [RecordValue(e, ids, show)];
      && ValidRecords(after)
      && (Intact(sha, after) <==> rs == [])
      && (rs != [] ==> FirstBroken(sha, after, |rs|))
  {
    hide RecordValue, ValidRecord, Intact, FirstBroken;
    forall e <- Journal.After(turns, sessions, t, f).escalations
      ensures var after := rs + [RecordValue(e, ids, show)];
        && ValidRecords(after)
        && (Intact(sha, after) <==> rs == [])
        && (rs != [] ==> FirstBroken(sha, after, |rs|))
    {
      RecordIsValid(e, ids, show, repr);
      SecondGenesisBreaks(sha, rs, RecordValue(e, ids, show));
    }
  }
}
