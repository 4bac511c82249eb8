/**
 What the commands write, key by key, and which earlier commit a rollback names.
 */
module LedgerCommands {
  import opened Text
  import opened Json
  import opened JsonLaws
  import opened Ledger
  import opened LedgerFile

  // ---------------------------------------------------------------- reading a written record

  /** Putting the keys in order changes no lookup. */
  lemma CanonLookup(r: Value, key: string)
    requires ValidRecord(r)
    ensures Canon(r).Obj?
    ensures match Lookup(r.fields, key)
            case None => Lookup(Canon(r).fields, key) == None
            case Some(v) => Lookup(Canon(r).fields, key) == Some(Canon(v))
  {
    hide Sort, Lookup, Canon;
    var fields, canon := r.fields, CanonFields(r.fields);
    CanonOfObject(r);
    assert DistinctKeys(canon) by { FieldsAreDistinct(r); }
    SortSorts(canon);
    var sorted := Sort(canon);
    SortedIsDistinct(sorted);
    if Lookup(fields, key).Some? {
      var i := FieldOf(fields, key);
      assert canon[i] in canon && canon[i] in sorted;
      var j :| 0 <= j < |sorted| && sorted[j] == canon[i];
      LookupAt(sorted, j);
    } else if Lookup(sorted, key).Some? {
      var j := FieldOf(sorted, key);
      assert sorted[j] in sorted && sorted[j] in canon;
      var i :| 0 <= i < |canon| && canon[i] == sorted[j];
      assert fields[i].key == key;
      LookupIn(fields, key);
    }
  }

  lemma CanonOfObject(r: Value)
    requires r.Obj?
    ensures Canon(r) == Obj(Sort(CanonFields(r.fields)))
  {
    hide Sort;
  }

  lemma FieldsAreDistinct(r: Value)
    requires ValidRecord(r)
    ensures DistinctKeys(r.fields) && DistinctKeys(CanonFields(r.fields))
  {}

  /** A record has this value under this key. */
  predicate Says(r: Value, key: string, v: Value) {
    r.Obj? && Lookup(r.fields, key) == Some(v)
  }

  /** The keys that every command fills alike. */
  predicate HasStamp(r: Value, stamp: Stamp, prev: string, role: string, commitmentType: string) {
    && Says(r, "record_type", Str("CommitmentRecord")) && Says(r, "record_id", Str(stamp.recordId))
    && Says(r, "prev_record_hash", Str(prev)) && Says(r, "timestamp_utc", Str(stamp.timestamp))
    && Says(r, "actor_id", Str(stamp.actorId)) && Says(r, "actor_role", Str(role))
    && Says(r, "commitment_type", Str(commitmentType))
  }

  predicate HasSubject(r: Value, id: Value, version: Value, hash: string, summary: string) {
    && Says(r, "subject_id", Canon(id)) && Says(r, "subject_version", Canon(version))
    && Says(r, "subject_hash", Str(hash)) && Says(r, "summary", Str(summary))
  }

  /** What a command asks to be written. */
  predicate Asked(r: Value, op: Op, prev: string) {
    match op
    case Commit(stamp, commitmentType, id, version, hash, summary) =>
      && HasStamp(r, stamp, prev, "admin", commitmentType) && HasSubject(r, id, version, hash, summary)
      && Says(r, "references", Arr([])) && Says(r, "metadata", Obj([]))
    case Rollback(stamp, id, version, hash, reason, _) =>
      && HasStamp(r, stamp, prev, "admin", "model_pack_rollback")
      && HasSubject(r, id, version, hash, "Rollback: " + reason)
      && Says(r, "metadata", Obj([Field("reason", Str(reason))]))
    case Freeze(stamp, name, reason) =>
      && HasStamp(r, stamp, prev, "administration", "policy_change")
      && Says(r, "subject_id", Str(name)) && Says(r, "summary", Str("Security freeze: " + reason))
      && Says(r, "references", Arr([]))
      && Says(r, "metadata", Obj([Field("action", Str("security_freeze")), Field("reason", Str(reason))]))
  }

  lemma SaysAt(r: Value, i: nat, key: string, v: Value)
    requires ValidRecord(r) && i < |r.fields| && r.fields[i] == Field(key, v)
    ensures Says(Canon(r), key, Canon(v))
  {
    hide Lookup, Canon;
    FieldsAreDistinct(r);
    LookupAt(r.fields, i);
    CanonLookup(r, key);
  }

  lemma CanonOfLeaves(s: string)
    ensures Canon(Str(s)) == Str(s) && Canon(Arr([])) == Arr([]) && Canon(Obj([])) == Obj([])
    ensures Canon(Obj([Field("reason", Str(s))])) == Obj([Field("reason", Str(s))])
    ensures var freeze := Obj([Field("action", Str("security_freeze")), Field("reason", Str(s))]);
            Canon(freeze) == freeze
  {
    var reason, action := Field("reason", Str(s)), Field("action", Str("security_freeze"));
    assert [reason][1..] == [] && [action, reason][1..] == [reason];
    assert CanonFields([reason]) == [reason] && CanonFields([action, reason]) == [action, reason];
    assert Sort([reason]) == [reason];
    assert !Before("reason", "action");
  }

  lemma StampIsSaid(op: Op, prev: string, references: seq<Value>)
    requires ValidRecord(BuildRecord(op, prev, references))
    ensures var role := if op.Freeze? then "administration" else "admin";
      var ctype := if op.Commit? then op.commitmentType
                   else if op.Rollback? then "model_pack_rollback" else "policy_change";
      HasStamp(Canon(BuildRecord(op, prev, references)), op.stamp, prev, role, ctype)
  {
    hide Canon, RecordTail, Says, ValidRecord;
    var r := BuildRecord(op, prev, references);
    TextIsSaid(r, 0, "record_type", "CommitmentRecord");
    TextIsSaid(r, 1, "record_id", op.stamp.recordId);
    TextIsSaid(r, 2, "prev_record_hash", prev);
    TextIsSaid(r, 3, "timestamp_utc", op.stamp.timestamp);
    TextIsSaid(r, 4, "actor_id", op.stamp.actorId);
    TextIsSaid(r, 5, "actor_role", if op.Freeze? then "administration" else "admin");
    TextIsSaid(r, 6, "commitment_type", if op.Commit? then op.commitmentType
                                        else if op.Rollback? then "model_pack_rollback" else "policy_change");
  }

  lemma TextIsSaid(r: Value, i: nat, key: string, s: string)
    requires ValidRecord(r) && i < |r.fields| && r.fields[i] == Field(key, Str(s))
    ensures Says(Canon(r), key, Str(s))
  {
    hide Canon, Says;
    SaysAt(r, i, key, Str(s));
    CanonOfLeaves(s);
  }

  lemma TailOf(op: Op, prev: string, references: seq<Value>)
    ensures BuildRecord(op, prev, references).Obj?
    ensures BuildRecord(op, prev, references).fields[7..] == RecordTail(op, references)
    ensures |BuildRecord(op, prev, references).fields| == 7 + |RecordTail(op, references)|
  {
    hide RecordTail;
  }

  lemma TailIsSaid(op: Op, prev: string, references: seq<Value>, i: nat)
    requires ValidRecord(BuildRecord(op, prev, references)) && i < |RecordTail(op, references)|
    ensures var f := RecordTail(op, references)[i];
            Says(Canon(BuildRecord(op, prev, references)), f.key, Canon(f.value))
  {
    hide Canon, Says, ValidRecord, BuildRecord, RecordTail;
    TailOf(op, prev, references);
    var r := BuildRecord(op, prev, references);
    var f := RecordTail(op, references)[i];
    assert r.fields[7 + i] == r.fields[7..][i] == f;
    SaysAt(r, 7 + i, f.key, f.value);
  }

  /** The written record says what was asked for, and names these references. */
  lemma BuiltSays(op: Op, prev: string, references: seq<Value>)
    requires ValidRecord(BuildRecord(op, prev, references)) && (!op.Rollback? ==> references == [])
    ensures Asked(Canon(BuildRecord(op, prev, references)), op, prev)
    ensures Says(Canon(BuildRecord(op, prev, references)), "references", Canon(Arr(references)))
  {
    hide Canon, Says, ValidRecord, BuildRecord, HasStamp;
    forall s ensures Canon(Str(s)) == Str(s) { CanonOfLeaves(s); }
    CanonOfLeaves(if op.Commit? then "" else op.reason);
    StampIsSaid(op, prev, references);
    forall i | 0 <= i < |RecordTail(op, references)|
      ensures var f := RecordTail(op, references)[i];
              Says(Canon(BuildRecord(op, prev, references)), f.key, Canon(f.value))
    {
      TailIsSaid(op, prev, references, i);
    }
    var tail := RecordTail(op, references);
    if op.Freeze? {
      assert tail[0].key == "subject_id" && tail[1].key == "summary" && tail[2].key == "references";
      assert tail[3].key == "metadata";
    } else {
      assert tail[0].key == "subject_id" && tail[1].key == "subject_version" && tail[2].key == "subject_hash";
      assert tail[3].key == "summary" && tail[4].key == "references" && tail[5].key == "metadata";
    }
  }

  // ---------------------------------------------------------------- one command on a readable file

  /** Every line is a record, and the last one is terminated. */
  predicate Readable(text: string, repr: Repr) {
    Framed(text, repr) && Load(text, repr).Some?
  }

  lemma OpKeepsReadable(sha: Sha, text: string, op: Op, repr: Repr)
    requires Readable(text, repr) && ValidOp(op, repr)
    ensures Readable(AfterOp(sha, text, op, repr), repr)
  {
    hide Load, BuildRecord, LastLine, Strip, IsPython, PriorActivation, Dumps, NextPrev, LoadTolerant, LoadLines,
         Lines, Intact, Canon;
    OpOnFramed(sha, text, op, repr);
    LoadedIsPython(text, repr);
    var rs := Seen(text, repr);
    if References(rs, op).Some? {
      BuiltRecordChains(sha, rs, op, repr);
      AppendThenLoad(text, rs, BuildRecord(op, NextPrev(sha, rs), References(rs, op).value), repr);
    }
  }

  /** A commit, and a confirmed rollback that finds what it needs, appends the record it asks for. */
  lemma CommandAppends(sha: Sha, text: string, op: Op, repr: Repr)
    requires Readable(text, repr) && ValidOp(op, repr) && !op.Freeze?
    ensures var rs, rs' := Seen(text, repr), Seen(AfterOp(sha, text, op, repr), repr);
      if References(rs, op).None? || (op.Rollback? && !op.confirmed) then AfterOp(sha, text, op, repr) == text
      else
        && |rs'| == |rs| + 1 && rs'[..|rs|] == rs
        && Asked(rs'[|rs|], op, NextPrev(sha, rs))
        && Says(rs'[|rs|], "references", Canon(Arr(References(rs, op).value)))
  {
    hide Load, BuildRecord, LastLine, Strip, IsPython, PriorActivation, Dumps, NextPrev, LoadTolerant, LoadLines,
         Lines, Intact, Canon, Asked, Says;
    LoadedIsPython(text, repr);
    var rs := Seen(text, repr);
    if References(rs, op).Some? && !(op.Rollback? && !op.confirmed) {
      var r := BuildRecord(op, NextPrev(sha, rs), References(rs, op).value);
      BuiltRecordChains(sha, rs, op, repr);
      AppendThenSee(text, r, repr);
      PythonIsWellFormed(r, repr);
      BuiltSays(op, NextPrev(sha, rs), References(rs, op).value);
    }
  }

  /** A freeze appends the record it asks for to any framed file. */
  lemma FreezeAppends(sha: Sha, text: string, op: Op, repr: Repr)
    requires Framed(text, repr) && op.Freeze?
    ensures var rs, rs' := Seen(text, repr), Seen(AfterOp(sha, text, op, repr), repr);
      && |rs'| == |rs| + 1 && rs'[..|rs|] == rs
      && Asked(rs'[|rs|], op, NextPrev(sha, rs))
  {
    hide Load, BuildRecord, LastLine, Strip, IsPython, PriorActivation, Dumps, NextPrev, LoadTolerant, LoadLines,
         Lines, Intact, Canon, Asked, Says;
    LoadedIsPython(text, repr);
    var rs := Seen(text, repr);
    AllDicts(rs);
    var r := BuildRecord(op, NextPrev(sha, rs), []);
    assert References(rs, op) == Some([]);
    BuiltRecordChains(sha, rs, op, repr);
    AppendThenSee(text, r, repr);
    PythonIsWellFormed(r, repr);
    BuiltSays(op, NextPrev(sha, rs), []);
  }

  /** The chain holds up to a record that is no dictionary. */
  ghost predicate HoldsUpToValue(sha: Sha, rs: seq<Value>, k: nat) {
    && k < |rs| && !rs[k].Obj? && ValidRecords(rs[..k])
    && (k > 0 ==> Get(rs[0], "prev_record_hash") == Str("genesis"))
    && forall i | 0 < i < k :: PrevHash(rs[i]) == Str(sha(Dumps(rs[i - 1])))
  }

  lemma FirstValue(rs: seq<Value>, k: nat)
    requires k < |rs| && !rs[k].Obj? && ValidRecords(rs[..k])
    ensures DictsUpTo(rs) == k
  {
    hide WellFormed;
    forall i | 0 <= i < k ensures rs[i].Obj? {
      assert ValidRecord(rs[..k][i]);
    }
  }

  /** A freeze writes its record on any file, unless the check meets a value that is no dictionary before a break. */
  lemma FreezeWritesUnless(sha: Sha, text: string, op: Op, repr: Repr)
    requires op.Freeze?
    ensures var rs, text' := Seen(text, repr), AfterOp(sha, text, op, repr);
      if exists k: nat :: HoldsUpToValue(sha, rs, k) then text' == text
      else text' == text + Dumps(BuildRecord(op, NextPrev(sha, rs), [])) + "\n"
  {
    hide Dumps, BuildRecord, LoadTolerant, WellFormed, Lines;
    var rs := Seen(text, repr);
    LoadedIsPython(text, repr);
    var n := DictsUpTo(rs);
    assert ValidRecords(rs[..n]);
    if CheckRaises(sha, rs) {
      var dicts := rs[..n];
      forall i | 0 < i < n ensures PrevHash(rs[i]) == Str(sha(Dumps(rs[i - 1]))) {
        assert LinkHolds(sha, dicts, i) && dicts[i] == rs[i] && dicts[i - 1] == rs[i - 1];
      }
      assert n > 0 ==> LinkHolds(sha, dicts, 0) && dicts[0] == rs[0];
      assert HoldsUpToValue(sha, rs, n);
    } else if k: nat :| HoldsUpToValue(sha, rs, k) {
      var dicts := rs[..n];
      FirstValue(rs, k);
      forall i | 0 <= i < n ensures LinkHolds(sha, dicts, i) {
        assert dicts[i] == rs[i] && (i > 0 ==> dicts[i - 1] == rs[i - 1]);
      }
    }
  }

  function Freezes(ops: seq<Op>): nat {
    if ops == [] then 0 else Freezes(ops[..|ops| - 1]) + if ops[|ops| - 1].Freeze? then 1 else 0
  }

  /** Over every run on a framed file each freeze leaves a record of its own, and no command more than one. */
  lemma {:induction false} FreezesAreRecorded(sha: Sha, text: string, ops: seq<Op>, repr: Repr)
    requires Framed(text, repr) && forall op | op in ops :: ValidOp(op, repr)
    ensures Framed(AfterOps(sha, text, ops, repr), repr)
    ensures |Seen(text, repr)| + Freezes(ops) <= |Seen(AfterOps(sha, text, ops, repr), repr)|
            <= |Seen(text, repr)| + |ops|
  {
    hide Seen, AfterOp, Framed, ValidOp, Asked, ChainsOn;
    if ops != [] {
      var before, op := ops[..|ops| - 1], ops[|ops| - 1];
      FreezesAreRecorded(sha, text, before, repr);
      var mid := AfterOps(sha, text, before, repr);
      AtMostOne(sha, mid, op, repr);
      if op.Freeze? {
        FreezeAppends(sha, mid, op, repr);
      }
    }
  }

  lemma AtMostOne(sha: Sha, text: string, op: Op, repr: Repr)
    requires Framed(text, repr) && ValidOp(op, repr)
    ensures Framed(AfterOp(sha, text, op, repr), repr)
    ensures |Seen(text, repr)| <= |Seen(AfterOp(sha, text, op, repr), repr)| <= |Seen(text, repr)| + 1
  {
    hide Seen, AfterOp, Framed, ValidOp, ChainsOn, References, BuildRecord, Canon;
    OpOnFramed(sha, text, op, repr);
  }

  // ---------------------------------------------------------------- what a rollback names

  /** The record of an activation of the subject; a missing subject id is null. */
  predicate Activates(r: Value, subject: Value) {
    && Says(r, "record_type", Str("CommitmentRecord"))
    && Says(r, "commitment_type", Str("model_pack_activation"))
    && Same(match Lookup(r.fields, "subject_id") case None => Null case Some(v) => v, subject)
  }

  lemma ActivatesIs(r: Value, subject: Value)
    ensures Activates(r, subject) <==> IsActivationOf(r, subject)
  {
    hide Same, Lookup;
  }

  /** The last activation of the subject is the record at `i`. */
  predicate LastActivation(rs: seq<Value>, subject: Value, i: nat) {
    i < |rs| && Activates(rs[i], subject) && forall j | i < j < |rs| :: !Activates(rs[j], subject)
  }

  lemma {:induction false} PriorIs(rs: seq<Value>, subject: Value)
    requires ValidRecords(rs)
    ensures var p := PriorActivation(rs, subject);
      && !p.Raised?
      && (p.NotFound? <==> forall i | 0 <= i < |rs| :: !Activates(rs[i], subject))
      && (p.Found? ==> exists i | 0 <= i < |rs| :: LastActivation(rs, subject, i) && p.record == rs[i])
  {
    hide Activates, IsActivationOf, WellFormed, LastActivation;
    if rs != [] {
      var n := |rs| - 1;
      assert ValidRecord(rs[n]);
      PriorIs(rs[..n], subject);
      ActivatesIs(rs[n], subject);
      if Activates(rs[n], subject) {
        NewestActivation(rs, subject);
      } else if PriorActivation(rs[..n], subject).Found? {
        var i :| 0 <= i < n && LastActivation(rs[..n], subject, i) && PriorActivation(rs, subject).record == rs[..n][i];
        OlderActivation(rs, subject, i);
      }
    }
  }

  lemma NewestActivation(rs: seq<Value>, subject: Value)
    requires rs != [] && Activates(rs[|rs| - 1], subject)
    ensures LastActivation(rs, subject, |rs| - 1)
  {
    hide Activates;
  }

  lemma OlderActivation(rs: seq<Value>, subject: Value, i: nat)
    requires rs != [] && !Activates(rs[|rs| - 1], subject) && LastActivation(rs[..|rs| - 1], subject, i)
    ensures LastActivation(rs, subject, i) && rs[i] == rs[..|rs| - 1][i]
  {
    hide Activates;
    forall j | i < j < |rs| - 1 ensures !Activates(rs[j], subject) {
      assert rs[..|rs| - 1][j] == rs[j];
    }
  }

  /**
   What a confirmed rollback writes on a readable file: nothing is named if and only if there is no activation
   of the subject; otherwise the last one is, by its id, and without an id nothing is written.
   */
  lemma RollbackNames(sha: Sha, text: string, op: Op, repr: Repr, i: nat)
    requires Readable(text, repr) && ValidOp(op, repr) && op.Rollback? && op.confirmed
    requires var rs := Seen(text, repr); i < |rs| ==>
      Activates(rs[i], op.subjectId) && forall j | i < j < |rs| :: !Activates(rs[j], op.subjectId)
    requires i >= |Seen(text, repr)| ==> forall j | 0 <= j < |Seen(text, repr)| ::
      !Activates(Seen(text, repr)[j], op.subjectId)
    ensures var rs, rs' := Seen(text, repr), Seen(AfterOp(sha, text, op, repr), repr);
      if i >= |rs| then
        |rs'| == |rs| + 1 && Asked(rs'[|rs|], op, NextPrev(sha, rs)) && Says(rs'[|rs|], "references", Arr([]))
      else
        match Lookup(rs[i].fields, "record_id")
        case None => AfterOp(sha, text, op, repr) == text
        case Some(id) =>
          && |rs'| == |rs| + 1 && Asked(rs'[|rs|], op, NextPrev(sha, rs))
          && Says(rs'[|rs|], "references", Arr([Canon(id)]))
  {
    hide Load, Asked, Says, Activates, AfterOp, NextPrev, LastLine, Strip, Canon, LoadTolerant, Lines, WellFormed,
         Lookup;
    var rs := Seen(text, repr);
    CommandAppends(sha, text, op, repr);
    PriorIs(rs, op.subjectId);
    ReferencesCanon();
    if i < |rs| {
      var p := PriorActivation(rs, op.subjectId);
      assert ValidRecord(rs[i]);
      var k :| 0 <= k < |rs| && LastActivation(rs, op.subjectId, k) && p.record == rs[k];
      assert k == i;
    }
  }

  lemma ReferencesCanon()
    ensures Canon(Arr([])) == Arr([])
    ensures forall v: Value :: Canon(Arr([v])) == Arr([Canon(v)])
  {
    forall v: Value ensures Canon(Arr([v])) == Arr([Canon(v)]) {
      assert CanonItems([v]) == [Canon(v)];
    }
  }

  // ---------------------------------------------------------------- from a commit to its rollback

  /** The command commits an activation of the subject. */
  predicate Activating(op: Op, subject: Value) {
    op.Commit? && op.commitmentType == "model_pack_activation" && Same(op.subjectId, subject)
  }

  lemma SameAsCanon(v: Value, w: Value, repr: Repr)
    requires IsPython(v, repr) && IsPython(w, repr)
    ensures Same(Canon(v), w) <==> Same(v, w)
  {
    hide IsPython, Same, Canon;
    CanonIsPython(v, repr);
    CanonTwice(v, repr);
    SameIffCanon(v, w, repr);
    SameIffCanon(Canon(v), w, repr);
  }

  /** A written record is an activation of the subject exactly when the command commits one. */
  lemma WrittenActivates(r: Value, op: Op, prev: string, subject: Value, repr: Repr)
    requires Asked(r, op, prev) && ValidOp(op, repr) && IsPython(subject, repr)
    ensures Activates(r, subject) <==> Activating(op, subject)
  {
    hide Same, Canon, Lookup, IsPython;
    assert "model_pack_rollback"[11] != "model_pack_activation"[11];
    assert "policy_change"[0] != "model_pack_activation"[0];
    if op.Commit? {
      SameAsCanon(op.subjectId, subject, repr);
    }
  }

  /** What a command appends, if it appends anything. */
  lemma OpAppends(sha: Sha, text: string, op: Op, repr: Repr)
    requires Readable(text, repr) && ValidOp(op, repr)
    ensures var rs, rs' := Seen(text, repr), Seen(AfterOp(sha, text, op, repr), repr);
      rs' == rs || (|rs'| == |rs| + 1 && rs'[..|rs|] == rs && Asked(rs'[|rs|], op, NextPrev(sha, rs)))
  {
    hide Load, Asked, Says, AfterOp, NextPrev, LastLine, Strip, Canon, LoadTolerant, Lines, References;
    if op.Freeze? {
      FreezeAppends(sha, text, op, repr);
    } else {
      CommandAppends(sha, text, op, repr);
    }
  }

  /** Commands that activate nothing of the subject leave its last activation where it is. */
  lemma {:induction false} RunKeepsActivation(sha: Sha, text: string, ops: seq<Op>, subject: Value, i: nat, repr: Repr)
    requires Readable(text, repr) && IsPython(subject, repr)
    requires forall op | op in ops :: ValidOp(op, repr) && !Activating(op, subject)
    requires LastActivation(Seen(text, repr), subject, i)
    ensures Readable(AfterOps(sha, text, ops, repr), repr)
    ensures LastActivation(Seen(AfterOps(sha, text, ops, repr), repr), subject, i)
    ensures Seen(AfterOps(sha, text, ops, repr), repr)[i] == Seen(text, repr)[i]
  {
    hide Seen, AfterOp, Readable, Activates, Activating, ValidOp, Asked, NextPrev, IsPython;
    if ops != [] {
      var before, op := ops[..|ops| - 1], ops[|ops| - 1];
      assert op in ops && forall o | o in before :: o in ops;
      RunKeepsActivation(sha, text, before, subject, i, repr);
      var mid := AfterOps(sha, text, before, repr);
      OpKeepsReadable(sha, mid, op, repr);
      OpAppends(sha, mid, op, repr);
      var rs, rs' := Seen(mid, repr), Seen(AfterOp(sha, mid, op, repr), repr);
      if rs' != rs {
        WrittenActivates(rs'[|rs|], op, NextPrev(sha, rs), subject, repr);
        assert forall j | 0 <= j < |rs| :: rs'[j] == rs'[..|rs|][j];
      }
    }
  }

  /**
   A commit that activates a subject, then any commands that do not, then a confirmed rollback of the subject:
   the rollback is written as asked for, and names exactly that commit.
   */
  lemma RollbackNamesItsCommit(sha: Sha, text: string, commit: Op, ops: seq<Op>, rollback: Op, repr: Repr)
    requires Readable(text, repr) && ValidOp(commit, repr) && ValidOp(rollback, repr)
    requires rollback.Rollback? && rollback.confirmed && Activating(commit, rollback.subjectId)
    requires forall op | op in ops :: ValidOp(op, repr) && !Activating(op, rollback.subjectId)
    ensures var before := AfterOps(sha, AfterOp(sha, text, commit, repr), ops, repr);
      var rs, rs' := Seen(before, repr), Seen(AfterOp(sha, before, rollback, repr), repr);
      && |rs'| == |rs| + 1 && rs'[..|rs|] == rs
      && Asked(rs'[|rs|], rollback, NextPrev(sha, rs))
      && Says(rs'[|rs|], "references", Arr([Str(commit.stamp.recordId)]))
  {
    hide Seen, AfterOp, Readable, Activates, NextPrev, IsPython, Canon, Lookup, References;
    var subject := rollback.subjectId;
    var first := AfterOp(sha, text, commit, repr);
    var rs := Seen(text, repr);
    OpKeepsReadable(sha, text, commit, repr);
    CommandAppends(sha, text, commit, repr);
    assert References(rs, commit) == Some([]) by { CommitNamesNothing(rs, commit); }
    var i, committed := |rs|, Seen(first, repr)[|rs|];
    WrittenActivates(committed, commit, NextPrev(sha, rs), subject, repr);
    RunKeepsActivation(sha, first, ops, subject, i, repr);
    var before := AfterOps(sha, first, ops, repr);
    RollbackNames(sha, before, rollback, repr, i);
    CommandAppends(sha, before, rollback, repr);
    CanonOfLeaves(commit.stamp.recordId);
    assert Says(committed, "record_id", Str(commit.stamp.recordId));
  }

  lemma CommitNamesNothing(rs: seq<Value>, op: Op)
    requires !op.Rollback?
    ensures References(rs, op) == Some([])
  {}
}
