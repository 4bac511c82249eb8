/**
 The migration of flat ledgers into the tiered directories (scripts/migrate-ledger-tiers.py): which file
 each record goes to, what is skipped, and what a second or an interrupted run changes.
 */
module Migration {
  import opened Text

  /** The fields the migration reads; a field read with an empty default is empty when it is missing. */
  datatype Record = Record(id: string, recordType: string, commitmentType: string, eventType: Option<string>,
                           event: string, domainId: string, modelPackId: string, domainPackId: string,
                           sessionId: Option<string>, body: string)

  datatype Tier = System | Domain | Module

  const SYSTEM_COMMITMENTS := {
    "user_registered", "role_change", "user_deactivated", "token_revoked", "password_reset", "user_invited",
    "account_activated", "session_close", "daemon_proposal_resolution", "preference_update",
    "system_physics_activation"
  }

  const SYSTEM_EVENTS := {
    "routing_decision", "domain_switch", "admin_cmd_trace", "audit_requested", "manifest_regen", "hitl_staged",
    "hitl_reject", "hitl_accept", "hitl_modify", "hitl_resolved", "escalation_expired",
    "escalation_resolution", "ingestion_record"
  }

  const DOMAIN_COMMITMENTS := {
    "model_pack_activation", "model_pack_rollback", "domain_pack_activation", "domain_pack_rollback",
    "domain_role_assignment", "domain_role_revocation"
  }

  function DomainOf(r: Record): string {
    if r.domainId != "" then r.domainId else if r.modelPackId != "" then r.modelPackId else r.domainPackId
  }

  /** `_classify`; the empty string stands for no domain. */
  function Classify(r: Record): (Tier, string) {
    var event := if r.eventType.Some? then r.eventType.value else r.event;
    if r.commitmentType in SYSTEM_COMMITMENTS then (System, "")
    else if event in SYSTEM_EVENTS then (System, "")
    else if r.recordType == "EscalationRecord" then (System, "")
    else if r.commitmentType in DOMAIN_COMMITMENTS then (Domain, DomainOf(r))
    else if r.recordType == "CommitmentRecord" && DomainOf(r) != "" then (Domain, DomainOf(r))
    else (System, "")
  }

  /** `system/session-<id>.jsonl`, `domains/<id>/domain.jsonl`, `domains/<id>/modules/<id>.jsonl`. */
  datatype Target = SystemFile(session: string) | DomainFile(domain: string) | ModuleFile(domain: string)

  /** The file a record goes to, and the tier it is counted under. */
  function Place(r: Record): (Target, Tier) {
    var (tier, domain) := Classify(r);
    var fallback := SystemFile(if r.sessionId.Some? then r.sessionId.value else "admin");
    if tier == System then (fallback, System)
    else if tier == Domain && domain != "" then (DomainFile(domain), Domain)
    else if tier == Module && domain != "" then (ModuleFile(domain), Module)
    else (fallback, System)
  }

  /** No record ever reaches the module tier, and the domain file it reaches is that of a domain it names. */
  lemma NeverModuleTier(r: Record)
    ensures var (target, tier) := Place(r);
      && tier != Module && !target.ModuleFile?
      && (tier == Domain <==> target.DomainFile?)
      && (tier == Domain ==> target == DomainFile(DomainOf(r)) && DomainOf(r) != "")
      && (Classify(r).0 == Domain && DomainOf(r) == "" ==> tier == System)
  {}

  /**
   The domain file is for commitments that name a domain, unless their type or event is a system one;
   a domain on any other record is ignored.
   */
  lemma DomainFileIff(r: Record)
    ensures Place(r).0.DomainFile? <==>
      && (r.commitmentType in DOMAIN_COMMITMENTS || r.recordType == "CommitmentRecord")
      && r.commitmentType !in SYSTEM_COMMITMENTS
      && (if r.eventType.Some? then r.eventType.value else r.event) !in SYSTEM_EVENTS
      && !(r.recordType == "EscalationRecord")
      && !(r.domainId == "" && r.modelPackId == "" && r.domainPackId == "")
    ensures Place(r).0.DomainFile? ==>
      Place(r) == (DomainFile(if r.domainId != "" then r.domainId
                              else if r.modelPackId != "" then r.modelPackId else r.domainPackId), Domain)
    ensures !Place(r).0.DomainFile? ==>
      Place(r) == (SystemFile(if r.sessionId.Some? then r.sessionId.value else "admin"), System)
  {}

  // ---------------------------------------------------------------- the ledgers

  type Ledgers = map<Target, seq<Record>>

  function Contents(ledgers: Ledgers, target: Target): seq<Record> {
    if target in ledgers then ledgers[target] else []
  }

  /** Whether the target already holds a record of this id; a record without an id is never found. */
  predicate Present(ledgers: Ledgers, r: Record) {
    r.id != "" && exists held <- Contents(ledgers, Place(r).0) :: held.id == r.id
  }

  function Append(ledgers: Ledgers, r: Record): Ledgers {
    ledgers[Place(r).0 := Contents(ledgers, Place(r).0) + [r]]
  }

  function MigrateOne(ledgers: Ledgers, r: Record): Ledgers {
    if Present(ledgers, r) then ledgers else Append(ledgers, r)
  }

  function MigrateAll(ledgers: Ledgers, records: seq<Record>): Ledgers {
    if records == [] then ledgers
    else MigrateOne(MigrateAll(ledgers, records[..|records| - 1]), records[|records| - 1])
  }

  datatype Stats = Stats(system: nat, domain: nat, skipped: nat, files: nat)

  function Counted(stats: Stats, tier: Tier): Stats {
    if tier == Domain then stats.(domain := stats.domain + 1) else stats.(system := stats.system + 1)
  }

  function StatsOne(stats: Stats, ledgers: Ledgers, r: Record): Stats {
    if Present(ledgers, r) then stats.(skipped := stats.skipped + 1) else Counted(stats, Place(r).1)
  }

  function StatsAll(stats: Stats, ledgers: Ledgers, records: seq<Record>): Stats {
    if records == [] then stats
    else
      var before := records[..|records| - 1];
      StatsOne(StatsAll(stats, ledgers, before), MigrateAll(ledgers, before), records[|records| - 1])
  }

  function DryStats(stats: Stats, records: seq<Record>): Stats {
    if records == [] then stats
    else Counted(DryStats(stats, records[..|records| - 1]), Place(records[|records| - 1]).1)
  }

  /** All records of the legacy files, in the order they are read. */
  function Flat(legacy: seq<seq<Record>>): seq<Record> {
    if legacy == [] then [] else Flat(legacy[..|legacy| - 1]) + legacy[|legacy| - 1]
  }

  function NonEmpty(legacy: seq<seq<Record>>): nat {
    if legacy == [] then 0
    else NonEmpty(legacy[..|legacy| - 1]) + if legacy[|legacy| - 1] == [] then 0 else 1
  }

  // ---------------------------------------------------------------- the script

  class Migrator {
    var ledgers: Ledgers
    var stats: Stats

    constructor (ledgers: Ledgers)
      ensures this.ledgers == ledgers && stats == Stats(0, 0, 0, 0)
    {
      this.ledgers, stats := ledgers, Stats(0, 0, 0, 0);
    }

    /** The loop over the records of one file. */
    method MigrateFile(records: seq<Record>, dryRun: bool)
      modifies this
      ensures ledgers == if dryRun then old(ledgers) else MigrateAll(old(ledgers), records)
      ensures stats == if dryRun then DryStats(old(stats), records) else StatsAll(old(stats), old(ledgers), records)
    {
      hide Place, Present, MigrateOne;
      for i := 0 to |records|
        invariant ledgers == if dryRun then old(ledgers) else MigrateAll(old(ledgers), records[..i])
        invariant stats == if dryRun then DryStats(old(stats), records[..i])
                           else StatsAll(old(stats), old(ledgers), records[..i])
      {
        var r := records[i];
        assert records[..i + 1][..i] == records[..i];
        if dryRun {
          stats := Counted(stats, Place(r).1);
          continue;
        }
        MigrateRecord(r);
      }
      assert records[..|records|] == records;
    }

    method MigrateRecord(r: Record)
      modifies this
      ensures ledgers == MigrateOne(old(ledgers), r)
      ensures stats == StatsOne(old(stats), old(ledgers), r)
    {
      if Present(ledgers, r) {
        stats := stats.(skipped := stats.skipped + 1);
      } else {
        ledgers := Append(ledgers, r);
        stats := Counted(stats, Place(r).1);
      }
    }

    /** `main`, from the legacy files in name order. */
    method Run(legacy: seq<seq<Record>>, dryRun: bool)
      requires stats == Stats(0, 0, 0, 0)
      modifies this
      ensures ledgers == if dryRun then old(ledgers) else MigrateAll(old(ledgers), Flat(legacy))
      ensures stats == (if dryRun then DryStats(old(stats), Flat(legacy))
                        else StatsAll(old(stats), old(ledgers), Flat(legacy))).(files := NonEmpty(legacy))
    {
      hide MigrateAll, StatsAll, DryStats;
      NothingToDo(ledgers, stats);
      for i := 0 to |legacy|
        invariant ledgers == if dryRun then old(ledgers) else MigrateAll(old(ledgers), Flat(legacy[..i]))
        invariant stats == (if dryRun then DryStats(old(stats), Flat(legacy[..i]))
                            else StatsAll(old(stats), old(ledgers), Flat(legacy[..i]))).(files := NonEmpty(legacy[..i]))
      {
        assert legacy[..i + 1][..i] == legacy[..i];
        ghost var before := Flat(legacy[..i]);
        if legacy[i] == [] {
          assert Flat(legacy[..i + 1]) == before;
          continue;
        }
        stats := stats.(files := stats.files + 1);
        MigrateConcat(old(ledgers), before, legacy[i]);
        StatsConcat(old(stats), stats.files, old(ledgers), before, legacy[i]);
        MigrateFile(legacy[i], dryRun);
      }
      assert legacy[..|legacy|] == legacy;
    }
  }

  lemma NothingToDo(ledgers: Ledgers, stats: Stats)
    ensures MigrateAll(ledgers, []) == ledgers && StatsAll(stats, ledgers, []) == stats && DryStats(stats, []) == stats
  {}

  lemma {:induction false} MigrateConcat(ledgers: Ledgers, a: seq<Record>, b: seq<Record>)
    ensures MigrateAll(ledgers, a + b) == MigrateAll(MigrateAll(ledgers, a), b)
    decreases |b|
  {
    if b == [] {
      assert a + b == a;
    } else {
      MigrateConcat(ledgers, a, b[..|b| - 1]);
      assert (a + b)[..|a + b| - 1] == a + b[..|b| - 1];
    }
  }

  lemma {:induction false} StatsConcat(stats: Stats, files: nat, ledgers: Ledgers, a: seq<Record>, b: seq<Record>)
    ensures StatsAll(StatsAll(stats, ledgers, a).(files := files), MigrateAll(ledgers, a), b)
            == StatsAll(stats, ledgers, a + b).(files := files)
    ensures DryStats(DryStats(stats, a).(files := files), b) == DryStats(stats, a + b).(files := files)
    decreases |b|
  {
    hide Place, Present, MigrateOne;
    if b == [] {
      assert a + b == a;
    } else {
      StatsConcat(stats, files, ledgers, a, b[..|b| - 1]);
      MigrateConcat(ledgers, a, b[..|b| - 1]);
      assert (a + b)[..|a + b| - 1] == a + b[..|b| - 1];
    }
  }

  // ---------------------------------------------------------------- counting

  /** Every record read is counted under a tier or as skipped; a dry run counts the skipped ones too. */
  lemma {:induction false} EveryRecordCounted(ledgers: Ledgers, records: seq<Record>)
    ensures var zero := Stats(0, 0, 0, 0);
      var s := StatsAll(zero, ledgers, records);
      var d := DryStats(zero, records);
      && s.system + s.domain + s.skipped == |records|
      && d.system + d.domain == |records| && d.skipped == 0
      && s.system <= d.system && s.domain <= d.domain
  {
    hide Place, Present, MigrateOne;
    if records != [] {
      EveryRecordCounted(ledgers, records[..|records| - 1]);
    }
  }

  /** What one more record adds to the counts: skipped if its id is there, and else under the tier of its file. */
  lemma CountedWhereWritten(ledgers: Ledgers, records: seq<Record>, r: Record)
    ensures var zero := Stats(0, 0, 0, 0);
      var was, now := StatsAll(zero, ledgers, records), StatsAll(zero, ledgers, records + [r]);
      var dry, dry' := DryStats(zero, records), DryStats(zero, records + [r]);
      var there := r.id != "" && exists held <- Contents(MigrateAll(ledgers, records), Place(r).0) :: held.id == r.id;
      && now.skipped == was.skipped + (if there then 1 else 0)
      && now.domain == was.domain + (if !there && Place(r).0.DomainFile? then 1 else 0)
      && now.system == was.system + (if !there && Place(r).0.SystemFile? then 1 else 0)
      && dry'.domain == dry.domain + (if Place(r).0.DomainFile? then 1 else 0)
      && dry'.system == dry.system + (if Place(r).0.SystemFile? then 1 else 0)
  {
    assert (records + [r])[..|records|] == records;
    NeverModuleTier(r);
    hide Classify;
  }

  /** The records of the legacy files are migrated in the order of the files and of the records in them. */
  lemma {:induction false} FlatConcat(a: seq<seq<Record>>, b: seq<seq<Record>>, records: seq<Record>)
    ensures Flat(a + b) == Flat(a) + Flat(b)
    ensures Flat([records]) == records
    decreases |b|
  {
    assert [records][..0] == [];
    if b == [] {
      assert a + b == a;
    } else {
      FlatConcat(a, b[..|b| - 1], records);
      assert (a + b)[..|a + b| - 1] == a + b[..|b| - 1];
    }
  }

  /** Each legacy file with a record in it counts one, wherever it stands. */
  lemma {:induction false} FilesCounted(a: seq<seq<Record>>, b: seq<seq<Record>>, records: seq<Record>)
    ensures NonEmpty(a + b) == NonEmpty(a) + NonEmpty(b)
    ensures NonEmpty([records]) == if records == [] then 0 else 1
    decreases |b|
  {
    assert [records][..0] == [];
    if b == [] {
      assert a + b == a;
    } else {
      FilesCounted(a, b[..|b| - 1], records);
      assert (a + b)[..|a + b| - 1] == a + b[..|b| - 1];
    }
  }

  // ---------------------------------------------------------------- what is kept and what is added

  predicate Grows(before: Ledgers, after: Ledgers) {
    forall t | t in before :: t in after && before[t] <= after[t]
  }

  /** What the targets held before stays where it was. */
  lemma {:induction false} OldContentsKept(ledgers: Ledgers, records: seq<Record>)
    ensures Grows(ledgers, MigrateAll(ledgers, records))
  {
    hide Place;
    if records != [] {
      OldContentsKept(ledgers, records[..|records| - 1]);
    }
  }

  predicate Holds(ledgers: Ledgers, target: Target, id: string) {
    exists r <- Contents(ledgers, target) :: r.id == id
  }

  lemma HoldsGrows(before: Ledgers, after: Ledgers, target: Target, id: string)
    requires Grows(before, after) && Holds(before, target, id)
    ensures Holds(after, target, id)
  {
    var r :| r in Contents(before, target) && r.id == id;
    assert r in Contents(after, target);
  }

  /** Every legacy record's id is in its target afterwards. */
  lemma {:induction false} EveryIdArrives(ledgers: Ledgers, records: seq<Record>, i: nat)
    requires i < |records|
    ensures Holds(MigrateAll(ledgers, records), Place(records[i]).0, records[i].id)
  {
    hide Place;
    var n := |records| - 1;
    var before := MigrateAll(ledgers, records[..n]);
    var r := records[n];
    if i < n {
      EveryIdArrives(ledgers, records[..n], i);
      assert Grows(before, MigrateOne(before, r));
      HoldsGrows(before, MigrateOne(before, r), Place(records[i]).0, records[i].id);
    } else if !Present(before, r) {
      assert Contents(Append(before, r), Place(r).0)[|Contents(before, Place(r).0)|] == r;
    }
  }

  /** What one target gains. */
  function Gained(ledgers: Ledgers, records: seq<Record>, target: Target): seq<Record> {
    if records == [] then []
    else
      var before := Gained(ledgers, records[..|records| - 1], target);
      var r := records[|records| - 1];
      if Place(r).0 == target && !Present(MigrateAll(ledgers, records[..|records| - 1]), r) then before + [r]
      else before
  }

  ghost predicate AllNew(held: seq<Record>, gained: seq<Record>) {
    forall k | 0 <= k < |gained| && gained[k].id != "" ::
      (forall r <- held :: r.id != gained[k].id) && (forall j | 0 <= j < k :: gained[j].id != gained[k].id)
  }

  /** A target gains only legacy records placed there, none with an id it held or gained already. */
  lemma {:induction false} GainedAreNew(ledgers: Ledgers, records: seq<Record>, target: Target)
    ensures var gained := Gained(ledgers, records, target);
      && Contents(MigrateAll(ledgers, records), target) == Contents(ledgers, target) + gained
      && (forall r <- gained :: r in records && Place(r).0 == target)
      && AllNew(Contents(ledgers, target), gained)
  {
    hide Place;
    if records != [] {
      var n := |records| - 1;
      var before := Gained(ledgers, records[..n], target);
      GainedAreNew(ledgers, records[..n], target);
      var r := records[n];
      if Place(r).0 == target && !Present(MigrateAll(ledgers, records[..n]), r) {
        OneMoreIsNew(Contents(ledgers, target), before, r);
      }
    }
  }

  lemma OneMoreIsNew(held: seq<Record>, gained: seq<Record>, r: Record)
    requires AllNew(held, gained)
    requires r.id == "" || forall o <- held + gained :: o.id != r.id
    ensures AllNew(held, gained + [r])
  {
    var more := gained + [r];
    if r.id != "" {
      forall o <- held ensures o.id != r.id {
        assert o in held + gained;
      }
      forall j | 0 <= j < |gained| ensures gained[j].id != r.id {
        assert gained[j] in held + gained;
      }
    }
    assert forall k | 0 <= k < |gained| :: more[k] == gained[k];
  }

  // ---------------------------------------------------------------- running again

  predicate AllIdentified(records: seq<Record>) {
    forall r <- records :: r.id != ""
  }

  /** Records whose ids are already in their targets change nothing. */
  lemma {:induction false} AllSkipped(ledgers: Ledgers, records: seq<Record>)
    requires forall r <- records :: Present(ledgers, r)
    ensures MigrateAll(ledgers, records) == ledgers
  {
    hide Present;
    if records != [] {
      AllSkipped(ledgers, records[..|records| - 1]);
    }
  }

  lemma PresentAfterwards(ledgers: Ledgers, records: seq<Record>)
    requires AllIdentified(records)
    ensures forall r <- records :: Present(MigrateAll(ledgers, records), r)
  {
    hide MigrateAll, Place;
    forall r <- records ensures Present(MigrateAll(ledgers, records), r) {
      var i :| 0 <= i < |records| && records[i] == r;
      EveryIdArrives(ledgers, records, i);
    }
  }

  /** An interrupted run, started again from the beginning, ends as an uninterrupted one. */
  lemma InterruptedRunResumes(ledgers: Ledgers, records: seq<Record>, k: nat)
    requires k <= |records| && AllIdentified(records[..k])
    ensures MigrateAll(MigrateAll(ledgers, records[..k]), records) == MigrateAll(ledgers, records)
  {
    hide MigrateAll, AllIdentified, Present;
    var partial := MigrateAll(ledgers, records[..k]);
    PresentAfterwards(ledgers, records[..k]);
    AllSkipped(partial, records[..k]);
    assert records == records[..k] + records[k..];
    MigrateConcat(ledgers, records[..k], records[k..]);
    MigrateConcat(partial, records[..k], records[k..]);
  }

  /** Migrating twice is migrating once if and only if every legacy record has an id. */
  lemma IdempotentIffIdentified(ledgers: Ledgers, records: seq<Record>)
    ensures MigrateAll(MigrateAll(ledgers, records), records) == MigrateAll(ledgers, records)
            <==> AllIdentified(records)
  {
    hide MigrateAll;
    var once := MigrateAll(ledgers, records);
    if AllIdentified(records) {
      assert records[..|records|] == records;
      InterruptedRunResumes(ledgers, records, |records|);
    } else {
      var i :| 0 <= i < |records| && records[i].id == "";
      UnidentifiedIsRepeated(once, records, i);
    }
  }

  /** A record without an id is appended by every run. */
  lemma UnidentifiedIsRepeated(ledgers: Ledgers, records: seq<Record>, i: nat)
    requires i < |records| && records[i].id == ""
    ensures var target := Place(records[i]).0;
      |Contents(MigrateAll(ledgers, records), target)| > |Contents(ledgers, target)|
  {
    hide Place;
    var target := Place(records[i]).0;
    var r := records[i];
    var before := MigrateAll(ledgers, records[..i]);
    var step := MigrateAll(ledgers, records[..i + 1]);
    assert records[..i + 1][..i] == records[..i];
    assert step == Append(before, r);
    OldContentsKept(ledgers, records[..i]);
    OldContentsKept(step, records[i + 1..]);
    assert records == records[..i + 1] + records[i + 1..];
    MigrateConcat(ledgers, records[..i + 1], records[i + 1..]);
  }
}
