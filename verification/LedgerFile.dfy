/**
 The JSONL file under a ledger and the three commands that append to it
 (system_log_validator.py and security_freeze.py under model-packs/system/controllers).
 */
module LedgerFile {
  import opened Text
  import opened Json
  import opened JsonLaws
  import opened Ledger

  /** Text-mode reading ends a line at a line feed or a carriage return. */
  predicate IsBreak(c: char) { c == '\n' || c == '\r' }

  /** The pieces between line breaks; a missing file is the empty text. */
  function Lines(text: string): (r: seq<string>)
    ensures r != []
  {
    if text == "" then [""]
    else if IsBreak(text[0]) then [""] + Lines(text[1..])
    else
      var r := Lines(text[1..]);
      [[text[0]] + r[0]] + r[1..]
  }

  /** What has been written since the last line break. */
  function LastLine(text: string): string {
    var r := Lines(text);
    r[|r| - 1]
  }

  /** Blank lines are skipped; `None` stands for `sys.exit(1)` on a line that is not JSON. */
  function LoadLines(lines: seq<string>, repr: Repr): Option<seq<Value>> {
    if lines == [] then Some([])
    else
      var n := |lines| - 1;
      match LoadLines(lines[..n], repr)
      case None => None
      case Some(rs) =>
        var line := Strip(lines[n]);
        if line == "" then Some(rs)
        else
          match Loads(line, repr)
          case None => None
          case Some(v) => Some(rs + [v])
  }

  function Load(text: string, repr: Repr): Option<seq<Value>> {
    LoadLines(Lines(text), repr)
  }

  /** `load_ledger` of the validator */
  method LoadLedger(text: string, repr: Repr) returns (r: Option<seq<Value>>)
    ensures r == Load(text, repr)
  {
    hide Loads, Strip;
    var lines := Lines(text);
    var records := [];
    for i := 0 to |lines|
      invariant LoadLines(lines[..i], repr) == Some(records)
    {
      assert lines[..i + 1][..i] == lines[..i];
      var line := Strip(lines[i]);
      if line != "" {
        var v := Loads(line, repr);
        if v.None? {
          NoneIsFinal(lines, i + 1, repr);
          return None;
        }
        records := records + [v.value];
      }
    }
    assert lines[..|lines|] == lines;
    return Some(records);
  }

  lemma {:induction false} NoneIsFinal(lines: seq<string>, i: nat, repr: Repr)
    requires i <= |lines| && LoadLines(lines[..i], repr) == None
    ensures LoadLines(lines, repr) == None
  {
    if i == |lines| {
      assert lines[..i] == lines;
    } else {
      assert lines[..|lines| - 1][..i] == lines[..i];
      NoneIsFinal(lines[..|lines| - 1], i, repr);
    }
  }

  /** The freeze command's own loader warns about a bad line and goes on. */
  function LoadTolerant(lines: seq<string>, repr: Repr): seq<Value> {
    if lines == [] then []
    else
      var n := |lines| - 1;
      var line := Strip(lines[n]);
      LoadTolerant(lines[..n], repr) + if line != "" && Loads(line, repr).Some? then [Loads(line, repr).value] else []
  }

  /** What the freeze command sees of a file. */
  function Seen(text: string, repr: Repr): seq<Value> {
    LoadTolerant(Lines(text), repr)
  }

  lemma {:induction false} LoadersAgree(lines: seq<string>, repr: Repr)
    requires LoadLines(lines, repr).Some?
    ensures LoadTolerant(lines, repr) == LoadLines(lines, repr).value
  {
    hide Loads, Strip;
    if lines != [] {
      LoadersAgree(lines[..|lines| - 1], repr);
    }
  }

  /** Records that Python can hold, their floats printed as they are. */
  predicate HeldRecords(rs: seq<Value>, repr: Repr) {
    forall i | 0 <= i < |rs| :: IsPython(rs[i], repr)
  }

  lemma HeldIsPython(rs: seq<Value>, repr: Repr)
    requires HeldRecords(rs, repr)
    ensures PythonRecords(rs)
  {
    hide IsPython, WellFormed;
    forall i | 0 <= i < |rs| ensures WellFormed(rs[i]) {
      PythonIsWellFormed(rs[i], repr);
    }
  }

  lemma {:induction false} SeenIsPython(lines: seq<string>, repr: Repr)
    ensures HeldRecords(LoadTolerant(lines, repr), repr)
  {
    hide Loads, Strip, IsPython;
    if lines != [] {
      SeenIsPython(lines[..|lines| - 1], repr);
      LoadsPython(Strip(lines[|lines| - 1]), repr);
    }
  }

  /** Every loaded record is one that Python can hold, whatever the file says. */
  lemma LoadedIsPython(text: string, repr: Repr)
    ensures HeldRecords(Seen(text, repr), repr) && PythonRecords(Seen(text, repr))
    ensures Load(text, repr).Some? ==> Load(text, repr).value == Seen(text, repr)
  {
    hide LoadLines, LoadTolerant, IsPython, Lines;
    SeenIsPython(Lines(text), repr);
    HeldIsPython(Seen(text, repr), repr);
    if Load(text, repr).Some? {
      LoadersAgree(Lines(text), repr);
    }
  }

  /** `append_record` */
  function Append(text: string, r: Value): string {
    text + Dumps(r) + "\n"
  }

  // ---------------------------------------------------------------- framing

  lemma {:induction false} LinesOfOneLine(s: string)
    requires OneLine(s)
    ensures Lines(s + "\n") == [s, ""]
  {
    if s == "" {
      assert s + "\n" == "\n" && "\n"[1..] == "";
    } else {
      assert (s + "\n")[1..] == s[1..] + "\n";
      assert s[0] in s && forall c | c in s[1..] :: c in s;
      LinesOfOneLine(s[1..]);
      assert [s[0]] + s[1..] == s;
    }
  }

  /** A line written behind `text` completes its last, unterminated line. */
  lemma {:induction false} LinesAppend(text: string, s: string)
    requires OneLine(s)
    ensures var r := Lines(text);
            Lines(text + s + "\n") == r[..|r| - 1] + [LastLine(text) + s, ""]
  {
    hide Lines, IsBreak, OneLine;
    if text == "" {
      LinesOfOneLine(s);
      assert Lines("") == [""] by { LinesOfNothing(); }
      assert text + s + "\n" == s + "\n" && "" + s == s;
    } else {
      var c, t := text[0], text[1..];
      LinesAppend(t, s);
      LinesCons(c, t);
      LinesCons(c, t + s + "\n");
      assert text == [c] + t && text + s + "\n" == [c] + (t + s + "\n");
      PrependChar(c, Lines(t), s);
    }
  }

  lemma LinesOfNothing()
    ensures Lines("") == [""]
  {}

  lemma LinesCons(c: char, t: string)
    ensures Lines([c] + t) == if IsBreak(c) then [""] + Lines(t) else [[c] + Lines(t)[0]] + Lines(t)[1..]
  {
    assert ([c] + t)[1..] == t;
  }

  /** A first character in front of lines whose last one is then completed. */
  lemma PrependChar(c: char, q: seq<string>, s: string)
    requires q != []
    ensures var last := q[..|q| - 1] + [q[|q| - 1] + s, ""];
      var broken, joined := [""] + q, [[c] + q[0]] + q[1..];
      && [""] + last == broken[..|broken| - 1] + [broken[|broken| - 1] + s, ""]
      && [[c] + last[0]] + last[1..] == joined[..|joined| - 1] + [joined[|joined| - 1] + s, ""]
  {
    if |q| == 1 {
      Associative([c], q[0], s);
    }
  }

  /** Number of lines that hold something. */
  function InkLines(lines: seq<string>): nat {
    if lines == [] then 0
    else InkLines(lines[..|lines| - 1]) + if Strip(lines[|lines| - 1]) == "" then 0 else 1
  }

  lemma {:induction false} LoadCounts(lines: seq<string>, repr: Repr)
    ensures LoadLines(lines, repr).Some? ==> |LoadLines(lines, repr).value| == InkLines(lines)
  {
    hide Loads, Strip;
    if lines != [] {
      LoadCounts(lines[..|lines| - 1], repr);
    }
  }

  lemma LoadSplit(lines: seq<string>, last: string, repr: Repr)
    ensures LoadLines(lines + [last, ""], repr) == LoadLines(lines + [last], repr)
    ensures InkLines(lines + [last, ""]) == InkLines(lines + [last])
    ensures InkLines(lines + [last]) == InkLines(lines) + if Strip(last) == "" then 0 else 1
  {
    hide Loads;
    assert (lines + [last, ""])[..|lines| + 1] == lines + [last];
    assert (lines + [last])[..|lines|] == lines;
    assert Strip("") == "";
  }

  lemma {:induction false} StripLeftConcat(a: string, s: string)
    requires s != "" && !IsSpace(s[0])
    ensures StripLeft(a + s) == StripLeft(a) + s
    ensures StripLeft(a) == "" <==> forall c | c in a :: IsSpace(c)
  {
    if a == "" {
      assert a + s == s;
    } else {
      assert (a + s)[1..] == a[1..] + s;
      StripLeftConcat(a[1..], s);
    }
  }

  /** A last line of white space disappears in front of a record; any other stays there. */
  lemma StripBeforeRecord(a: string, s: string)
    requires s != "" && Strip(s) == s && !IsSpace(s[0]) && !IsSpace(s[|s| - 1])
    ensures Strip(a) == "" ==> Strip(a + s) == s
    ensures Strip(a + s) != ""
  {
    StripLeftConcat(a, s);
    StripLeftHead(a);
    if Strip(a) == "" && StripLeft(a) != "" {
      StripRightKeepsHead(StripLeft(a));
    }
    var t := StripLeft(a) + s;
    assert t[|t| - 1] == s[|s| - 1];
  }

  lemma {:induction false} StripLeftHead(a: string)
    ensures StripLeft(a) != "" ==> !IsSpace(StripLeft(a)[0])
  {
    if a != "" {
      StripLeftHead(a[1..]);
    }
  }

  lemma {:induction false} StripRightKeepsHead(a: string)
    requires a != "" && !IsSpace(a[0])
    ensures StripRight(a) != ""
  {
    if |a| > 1 && IsSpace(a[|a| - 1]) {
      StripRightKeepsHead(a[..|a| - 1]);
    }
  }

  /** A dictionary that Python can hold. */
  predicate Writable(r: Value, repr: Repr) {
    r.Obj? && IsPython(r, repr)
  }

  lemma WrittenRecord(r: Value, repr: Repr)
    requires Writable(r, repr)
    ensures ValidRecord(r)
    ensures var s := Dumps(r);
            OneLine(s) && s != "" && Strip(s) == s && !IsSpace(s[0]) && !IsSpace(s[|s| - 1])
  {
    hide Render, Sort, IsPython;
    PythonIsWellFormed(r, repr);
    DumpsIsOneLine(r);
    ObjectIsBracketed(Canon(r));
  }

  /**
   Appending a record to a readable file and loading it again gives the old records and then exactly
   that record (with its keys in order), if and only if nothing but white space follows the last line
   break of the file. Otherwise the record is glued to an unterminated line and is lost or spoils the file.
   */
  lemma AppendThenLoad(text: string, rs: seq<Value>, r: Value, repr: Repr)
    requires Load(text, repr) == Some(rs) && Writable(r, repr)
    ensures Load(Append(text, r), repr) == Some(rs + [Canon(r)]) <==> Strip(LastLine(text)) == ""
  {
    hide Loads, Strip, Dumps, Canon, IsPython, LoadLines, InkLines, Lines;
    var s, lines, last := Dumps(r), Lines(text), LastLine(text);
    var front := lines[..|lines| - 1];
    assert lines == front + [last];
    WrittenRecord(r, repr);
    LinesAppend(text, s);
    LoadSplit(front, last + s, repr);
    LoadSplit(front, last, repr);
    StripBeforeRecord(last, s);
    if Strip(last) == "" {
      RoundTripOneLine(front, last, r, repr);
    } else {
      LoadCounts(lines, repr);
      LoadCounts(front + [last + s, ""], repr);
    }
  }

  lemma RoundTripOneLine(front: seq<string>, last: string, r: Value, repr: Repr)
    requires Writable(r, repr) && Strip(last) == "" && Strip(last + Dumps(r)) == Dumps(r) != ""
    ensures LoadLines(front + [last + Dumps(r)], repr)
         == match LoadLines(front + [last], repr) case None => None case Some(rs) => Some(rs + [Canon(r)])
  {
    hide Loads, Strip, Dumps, Canon, IsPython;
    LoadsDumps(r, repr);
    assert (front + [last])[..|front|] == front;
    assert (front + [last + Dumps(r)])[..|front|] == front;
  }

  /** Behind the last line break, with nothing but white space there, a record is seen as the next one. */
  lemma AppendThenSee(text: string, r: Value, repr: Repr)
    requires Writable(r, repr) && Strip(LastLine(text)) == ""
    ensures Seen(Append(text, r), repr) == Seen(text, repr) + [Canon(r)]
    ensures Strip(LastLine(Append(text, r))) == ""
  {
    hide Loads, Strip, Dumps, Canon, IsPython, Lines;
    var s, lines, last := Dumps(r), Lines(text), LastLine(text);
    var front := lines[..|lines| - 1];
    assert lines == front + [last];
    WrittenRecord(r, repr);
    LinesAppend(text, s);
    StripBeforeRecord(last, s);
    LoadsDumps(r, repr);
    BlankIsNotSeen(front, last, repr);
    BlankIsNotSeen(front + [last + s], "", repr);
    assert (front + [last + s])[..|front|] == front;
    assert front + [last + s] + [""] == front + [last + s, ""];
  }

  lemma BlankIsNotSeen(front: seq<string>, last: string, repr: Repr)
    requires Strip(last) == "" || last == ""
    ensures LoadTolerant(front + [last], repr) == LoadTolerant(front, repr) && Strip("") == ""
  {
    hide Loads;
    assert (front + [last])[..|front|] == front;
  }

  // ---------------------------------------------------------------- the three commands

  /** The parts of a record that come from the clock, the id generator and the caller. */
  datatype Stamp = Stamp(recordId: string, timestamp: string, actorId: string)

  datatype Op =
    | Commit(stamp: Stamp, commitmentType: string, subjectId: Value, subjectVersion: Value, subjectHash: string,
             summary: string)
    | Rollback(stamp: Stamp, subjectId: Value, subjectVersion: Value, subjectHash: string, reason: string,
               confirmed: bool)
    | Freeze(stamp: Stamp, ledgerName: string, reason: string)

  predicate ValidOp(op: Op, repr: Repr) {
    match op
    case Commit(_, _, id, version, _, _) => IsPython(id, repr) && IsPython(version, repr)
    case Rollback(_, id, version, _, _, _) => IsPython(id, repr) && IsPython(version, repr)
    case Freeze(_, _, _) => true
  }

  function RecordHead(stamp: Stamp, prev: string, role: string, commitmentType: string): seq<Field> {
    [Field("record_type", Str("CommitmentRecord")), Field("record_id", Str(stamp.recordId)),
     Field("prev_record_hash", Str(prev)), Field("timestamp_utc", Str(stamp.timestamp)),
     Field("actor_id", Str(stamp.actorId)), Field("actor_role", Str(role)),
     Field("commitment_type", Str(commitmentType))]
  }

  function RecordTail(op: Op, references: seq<Value>): seq<Field> {
    match op
    case Commit(_, _, id, version, hash, summary) =>
      [Field("subject_id", id), Field("subject_version", version), Field("subject_hash", Str(hash)),
       Field("summary", Str(summary)), Field("references", Arr([])), Field("metadata", Obj([]))]
    case Rollback(_, id, version, hash, reason, _) =>
      [Field("subject_id", id), Field("subject_version", version), Field("subject_hash", Str(hash)),
       Field("summary", Str("Rollback: " + reason)), Field("references", Arr(references)),
       Field("metadata", Obj([Field("reason", Str(reason))]))]
    case Freeze(_, name, reason) =>
      [Field("subject_id", Str(name)), Field("summary", Str("Security freeze: " + reason)),
       Field("references", Arr([])),
       Field("metadata", Obj([Field("action", Str("security_freeze")), Field("reason", Str(reason))]))]
  }

  /** The records that the three commands build, field by field in the order of the source. */
  function BuildRecord(op: Op, prev: string, references: seq<Value>): Value {
    var role := if op.Freeze? then "administration" else "admin";
    var ctype := match op
                 case Commit(_, t, _, _, _, _) => t
                 case Rollback(_, _, _, _, _, _) => "model_pack_rollback"
                 case Freeze(_, _, _) => "policy_change";
    Obj(RecordHead(op.stamp, prev, role, ctype) + RecordTail(op, references))
  }

  predicate IsActivationOf(r: Value, subjectId: Value) {
    && r.Obj?
    && Get(r, "record_type") == Str("CommitmentRecord")
    && Get(r, "commitment_type") == Str("model_pack_activation")
    && Same(Get(r, "subject_id"), subjectId)
  }

  /** The outcome of the search: it raises on a record that is no dictionary. */
  datatype Search = Found(record: Value) | NotFound | Raised

  /** The most recent activation of the subject. */
  function PriorActivation(rs: seq<Value>, subjectId: Value): Search {
    if rs == [] then NotFound
    else
      var last := rs[|rs| - 1];
      if !last.Obj? then Raised
      else if IsActivationOf(last, subjectId) then Found(last)
      else PriorActivation(rs[..|rs| - 1], subjectId)
  }

  /** A dictionary that is passed over by the search. */
  predicate PassedOver(r: Value, subjectId: Value) {
    r.Obj? && !IsActivationOf(r, subjectId)
  }

  /** The reversed search loop of `cmd_rollback`. */
  method FindPrior(rs: seq<Value>, subjectId: Value) returns (r: Search)
    ensures r == PriorActivation(rs, subjectId)
    ensures r.NotFound? <==> forall i | 0 <= i < |rs| :: PassedOver(rs[i], subjectId)
    ensures r.Found? ==> exists i | 0 <= i < |rs| ::
      rs[i] == r.record && IsActivationOf(rs[i], subjectId) && forall j | i < j < |rs| :: PassedOver(rs[j], subjectId)
    ensures r.Raised? ==> exists i | 0 <= i < |rs| ::
      !rs[i].Obj? && forall j | i < j < |rs| :: PassedOver(rs[j], subjectId)
  {
    hide IsActivationOf;
    assert rs[..|rs|] == rs;
    for i := |rs| downto 0
      invariant PriorActivation(rs[..i], subjectId) == PriorActivation(rs, subjectId)
      invariant forall j | i <= j < |rs| :: PassedOver(rs[j], subjectId)
    {
      assert rs[..i + 1][..i] == rs[..i];
      if !rs[i].Obj? {
        assert !PassedOver(rs[i], subjectId);
        return Raised;
      }
      if IsActivationOf(rs[i], subjectId) {
        assert !PassedOver(rs[i], subjectId);
        return Found(rs[i]);
      }
    }
    return NotFound;
  }

  /** `[prior["record_id"]]`, or `[]`; `None` is an `AttributeError`, or the `KeyError` of a record without an id. */
  function References(rs: seq<Value>, op: Op): Option<seq<Value>> {
    if !op.Rollback? then Some([])
    else
      match PriorActivation(rs, op.subjectId)
      case NotFound => Some([])
      case Raised => None
      case Found(prior) =>
        match (if prior.Obj? then Lookup(prior.fields, "record_id") else None)
        case None => None
        case Some(id) => Some([id])
  }

  /** Checking the chain comes to a record that is no dictionary before it comes to a break. */
  ghost predicate CheckRaises(sha: Sha, rs: seq<Value>)
    requires PythonRecords(rs)
  {
    var dicts := rs[..DictsUpTo(rs)];
    assert ValidRecords(dicts);
    DictsUpTo(rs) < |rs| && Intact(sha, dicts)
  }

  /** The text of the ledger file after one command. */
  ghost function AfterOp(sha: Sha, text: string, op: Op, repr: Repr): string {
    LoadedIsPython(text, repr);
    if op.Freeze? then
      var rs := Seen(text, repr);
      if CheckRaises(sha, rs) then text else Append(text, BuildRecord(op, NextPrev(sha, rs), []))
    else
      match Load(text, repr)
      case None => text
      case Some(rs) =>
        match References(rs, op)
        case None => text
        case Some(references) =>
          if op.Rollback? && !op.confirmed then text
          else Append(text, BuildRecord(op, NextPrev(sha, rs), references))
  }

  /** A ledger file that the commands append to in place. */
  class LedgerFile {
    var text: string

    constructor (text: string)
      ensures this.text == text
    {
      this.text := text;
    }

    /** `cmd_commit` and `cmd_rollback`; false when nothing was written. */
    method Run(sha: Sha, op: Op, repr: Repr) returns (written: bool)
      requires !op.Freeze?
      modifies this
      ensures text == AfterOp(sha, old(text), op, repr)
      ensures !written ==> text == old(text)
    {
      hide BuildRecord, HashRecord, LoadLines, LoadTolerant, Dumps, IsPython, IsActivationOf, CheckRaises;
      var loaded := LoadLedger(text, repr);
      if loaded.None? {
        return false;
      }
      var records := loaded.value;
      var references: seq<Value> := [];
      if op.Rollback? {
        var prior := FindPrior(records, op.subjectId);
        if prior.Raised? {
          return false;
        }
        if prior.Found? {
          FoundIsDictionary(records, op.subjectId);
          var id := Lookup(prior.record.fields, "record_id");
          if id.None? {
            return false;
          }
          references := [id.value];
        }
        if !op.confirmed {
          return false;
        }
      }
      var prev := if records != [] then HashRecord(sha, records[|records| - 1]) else "genesis";
      text := Append(text, BuildRecord(op, prev, references));
      written := true;
    }

    /** The loop body of `run_security_freeze`: verify, report, append; None where the check raises. */
    method FreezeOne(sha: Sha, stamp: Stamp, name: string, reason: string, repr: Repr)
      returns (report: Option<ChainReport>)
      modifies this
      ensures text == AfterOp(sha, old(text), Freeze(stamp, name, reason), repr)
      ensures PythonRecords(Seen(old(text), repr)) && (report.None? <==> CheckRaises(sha, Seen(old(text), repr)))
      ensures report.Some? && report.value.intact ==>
        ValidRecords(Seen(old(text), repr)) && Intact(sha, Seen(old(text), repr))
      ensures report.Some? && ValidRecords(Seen(old(text), repr)) && Intact(sha, Seen(old(text), repr))
        ==> report.value.intact
    {
      hide BuildRecord, HashRecord, LoadLines, LoadTolerant, Dumps, IsPython, Intact;
      var records := Seen(text, repr);
      LoadedIsPython(text, repr);
      report := VerifyChain(sha, records);
      AllDicts(records);
      if report.Some? {
        var prev := if records != [] then HashRecord(sha, records[|records| - 1]) else "genesis";
        text := Append(text, BuildRecord(Freeze(stamp, name, reason), prev, []));
      }
    }
  }

  lemma {:induction false} AllDicts(rs: seq<Value>)
    ensures ValidRecords(rs) ==> DictsUpTo(rs) == |rs| && rs[..DictsUpTo(rs)] == rs
  {
    if rs != [] && ValidRecords(rs) {
      assert ValidRecord(rs[0]);
      assert rs[..DictsUpTo(rs)] == rs;
    }
  }

  lemma {:induction false} FoundIsDictionary(rs: seq<Value>, subjectId: Value)
    ensures var p := PriorActivation(rs, subjectId);
            p.Found? ==> p.record in rs && p.record.Obj?
  {
    hide IsActivationOf;
    if rs != [] {
      FoundIsDictionary(rs[..|rs| - 1], subjectId);
    }
  }

  // ---------------------------------------------------------------- every run of commands

  /** Every line that is JSON is a dictionary, and the last line is terminated; other lines may be anything. */
  predicate Framed(text: string, repr: Repr) {
    ValidRecords(Seen(text, repr)) && Strip(LastLine(text)) == ""
  }

  lemma {:induction false} LookupUnique(fields: seq<Field>, key: string, repr: Repr)
    requires Lookup(fields, key).Some? && forall i | 0 <= i < |fields| :: IsPython(fields[i].value, repr)
    ensures IsPython(Lookup(fields, key).value, repr)
  {
    hide IsPython;
    if fields[0].key != key {
      LookupUnique(fields[1..], key, repr);
    }
  }

  /** Every command builds a dictionary that chains on to the ledger it was built for. */
  lemma BuiltRecordChains(sha: Sha, rs: seq<Value>, op: Op, repr: Repr)
    requires HeldRecords(rs, repr) && ValidOp(op, repr) && References(rs, op).Some?
    ensures Writable(BuildRecord(op, NextPrev(sha, rs), References(rs, op).value), repr)
    ensures ChainsOn(sha, rs, BuildRecord(op, NextPrev(sha, rs), References(rs, op).value))
  {
    hide IsPython, NextPrev, PriorActivation;
    var prev, references := NextPrev(sha, rs), References(rs, op).value;
    assert forall r | r in references :: IsPython(r, repr) by {
      if references != [] {
        FoundIsDictionary(rs, op.subjectId);
        var prior := PriorActivation(rs, op.subjectId).record;
        ValuesAreUnique(prior, repr);
        LookupUnique(prior.fields, "record_id", repr);
      }
    }
    BuiltIsValid(op, prev, references, repr);
    PrevIsThird(op, prev, references);
    PythonIsWellFormed(BuildRecord(op, prev, references), repr);
  }

  lemma ValuesAreUnique(r: Value, repr: Repr)
    requires Writable(r, repr)
    ensures forall i | 0 <= i < |r.fields| :: IsPython(r.fields[i].value, repr)
  {}

  lemma PrevIsThird(op: Op, prev: string, references: seq<Value>)
    ensures var r := BuildRecord(op, prev, references);
            r.Obj? && Lookup(r.fields, "prev_record_hash") == Some(Str(prev))
  {
    var fields := BuildRecord(op, prev, references).fields;
    assert fields[0].key == "record_type" && fields[1].key == "record_id";
    assert fields[2] == Field("prev_record_hash", Str(prev));
    assert "record_type"[0] != "prev_record_hash"[0] && "record_id"[0] != "prev_record_hash"[0];
    LookupThird(fields, "prev_record_hash");
  }

  lemma LookupThird(fields: seq<Field>, key: string)
    requires |fields| >= 3 && fields[0].key != key && fields[1].key != key && fields[2].key == key
    ensures Lookup(fields, key) == Some(fields[2].value)
  {
    assert fields[1..][0] == fields[1] && fields[1..][1..][0] == fields[2];
    assert Lookup(fields, key) == Lookup(fields[1..], key) == Lookup(fields[1..][1..], key);
  }

  lemma BuiltIsValid(op: Op, prev: string, references: seq<Value>, repr: Repr)
    requires ValidOp(op, repr) && forall r | r in references :: IsPython(r, repr)
    ensures Writable(BuildRecord(op, prev, references), repr)
  {
    var fields := BuildRecord(op, prev, references).fields;
    assert IsPython(Arr(references), repr);
    forall i | 0 <= i < |fields| ensures IsPython(fields[i].value, repr) {}
    KeysDiffer(op, prev, references);
  }

  const HEAD_KEYS := ["record_type", "record_id", "prev_record_hash", "timestamp_utc", "actor_id", "actor_role",
                      "commitment_type"]

  function TailKeys(op: Op): seq<string> {
    if op.Freeze? then ["subject_id", "summary", "references", "metadata"]
    else ["subject_id", "subject_version", "subject_hash", "summary", "references", "metadata"]
  }

  lemma KeysDiffer(op: Op, prev: string, references: seq<Value>)
    ensures DistinctKeys(BuildRecord(op, prev, references).fields)
  {
    var fields := BuildRecord(op, prev, references).fields;
    var head, tail := fields[..7], fields[7..];
    assert tail == RecordTail(op, references);
    HeadKeysOf(op, prev, references);
    TailKeysOf(op, references);
    KeyListDistinct(op);
    hide BuildRecord, RecordTail, TailKeys;
    forall i | 0 <= i < |fields| ensures fields[i].key == (HEAD_KEYS + TailKeys(op))[i] {
      assert fields == head + tail;
    }
  }

  lemma HeadKeysOf(op: Op, prev: string, references: seq<Value>)
    ensures var fields := BuildRecord(op, prev, references).fields;
            |fields| >= 7 == |HEAD_KEYS| && forall i | 0 <= i < 7 :: fields[i].key == HEAD_KEYS[i]
  {}

  lemma TailKeysOf(op: Op, references: seq<Value>)
    ensures var tail := RecordTail(op, references);
            |tail| == |TailKeys(op)| && forall i | 0 <= i < |tail| :: tail[i].key == TailKeys(op)[i]
  {}

  lemma KeyListDistinct(op: Op)
    ensures var keys := HEAD_KEYS + TailKeys(op);
            forall i, j | 0 <= i < j < |keys| :: keys[i] != keys[j]
  {}

  /**
   What one command does to a framed file: nothing, or one more record, which chains on to what was seen
   before; a file with an unreadable line is left alone by commits and rollbacks.
   */
  lemma OpOnFramed(sha: Sha, text: string, op: Op, repr: Repr)
    requires Framed(text, repr) && ValidOp(op, repr)
    ensures Framed(AfterOp(sha, text, op, repr), repr)
    ensures var rs := Seen(text, repr);
            var text' := AfterOp(sha, text, op, repr);
            || text' == text
            || (References(rs, op).Some?
                && var r := Canon(BuildRecord(op, NextPrev(sha, rs), References(rs, op).value));
                   Seen(text', repr) == rs + [r] && ChainsOn(sha, rs, r))
    ensures Load(text, repr).None? && !op.Freeze? ==> AfterOp(sha, text, op, repr) == text
    ensures op.Freeze? ==> AfterOp(sha, text, op, repr) != text
  {
    hide Load, BuildRecord, LastLine, Strip, IsPython, Canon, PriorActivation, Dumps, NextPrev, LoadTolerant,
         LoadLines, Lines, Intact;
    var rs := Seen(text, repr);
    LoadedIsPython(text, repr);
    AllDicts(rs);
    if References(rs, op).Some? {
      var r := BuildRecord(op, NextPrev(sha, rs), References(rs, op).value);
      BuiltRecordChains(sha, rs, op, repr);
      AppendThenSee(text, r, repr);
      CanonChains(sha, rs, r);
    }
  }

  /** Putting the keys in order changes neither the chain link nor the validity of a record. */
  lemma CanonChains(sha: Sha, rs: seq<Value>, r: Value)
    requires ChainsOn(sha, rs, r)
    ensures ChainsOn(sha, rs, Canon(r))
  {
    hide Sort, NextPrev, Lookup, Same, IsPython;
    CanonIsPython(r, Verbatim);
    CanonTwice(r, Verbatim);
    SameIffCanon(Canon(r), r, Verbatim);
    SameLookup(Canon(r), r, "prev_record_hash");
    SameStrings(Canon(r), r, "prev_record_hash");
  }

  ghost function AfterOps(sha: Sha, text: string, ops: seq<Op>, repr: Repr): string {
    if ops == [] then text else AfterOp(sha, AfterOps(sha, text, ops[..|ops| - 1], repr), ops[|ops| - 1], repr)
  }

  /**
   Any run of commits, rollbacks and freezes on a framed file only adds records behind the old ones; an
   intact ledger stays intact, and a broken one keeps its first broken index.
   */
  lemma {:induction false} RunOfCommands(sha: Sha, text: string, ops: seq<Op>, repr: Repr)
    requires Framed(text, repr) && forall op | op in ops :: ValidOp(op, repr)
    ensures Framed(AfterOps(sha, text, ops, repr), repr)
    ensures var rs, rs' := Seen(text, repr), Seen(AfterOps(sha, text, ops, repr), repr);
      && rs <= rs'
      && (Intact(sha, rs) ==> Intact(sha, rs'))
      && (forall i | FirstBroken(sha, rs, i) :: FirstBroken(sha, rs', i))
  {
    hide Seen, AfterOp, ChainsOn, LinkHolds, LastLine, Strip, ValidRecord, ValidOp;
    if ops != [] {
      var before, op := ops[..|ops| - 1], ops[|ops| - 1];
      RunOfCommands(sha, text, before, repr);
      var mid := AfterOps(sha, text, before, repr);
      OpOnFramed(sha, mid, op, repr);
      ChainStep(sha, Seen(text, repr), Seen(mid, repr), Seen(AfterOp(sha, mid, op, repr), repr));
    }
  }

  lemma ChainStep(sha: Sha, rs: seq<Value>, mid: seq<Value>, end: seq<Value>)
    requires ValidRecords(rs) && ValidRecords(mid) && ValidRecords(end)
    requires rs <= mid && (Intact(sha, rs) ==> Intact(sha, mid))
    requires forall i | FirstBroken(sha, rs, i) :: FirstBroken(sha, mid, i)
    requires end == mid || exists r :: end == mid + [r] && ChainsOn(sha, mid, r)
    ensures rs <= end && (Intact(sha, rs) ==> Intact(sha, end))
    ensures forall i | FirstBroken(sha, rs, i) :: FirstBroken(sha, end, i)
  {
    hide LinkHolds, ValidRecord, ChainsOn;
    if end != mid {
      var r :| end == mid + [r] && ChainsOn(sha, mid, r);
      if Intact(sha, mid) {
        AppendKeepsIntact(sha, mid, r);
      }
      assert ValidRecords([r]) by { assert end[|mid|] == r; }
      forall i | FirstBroken(sha, rs, i) ensures FirstBroken(sha, end, i) {
        BrokenStaysBroken(sha, mid, [r], i);
      }
    }
  }

  // ---------------------------------------------------------------- freezing every ledger

  /** The check of this file, or of an earlier one, raises: the freeze stops there. */
  ghost predicate StoppedBy(sha: Sha, texts: seq<string>, i: nat, repr: Repr)
    requires i < |texts|
  {
    LoadedAreAllPython(texts, repr);
    exists j | 0 <= j <= i :: CheckRaises(sha, Seen(texts[j], repr))
  }

  lemma LoadedAreAllPython(texts: seq<string>, repr: Repr)
    ensures forall i | 0 <= i < |texts| :: PythonRecords(Seen(texts[i], repr))
  {
    hide Seen;
    forall i | 0 <= i < |texts| ensures PythonRecords(Seen(texts[i], repr)) {
      LoadedIsPython(texts[i], repr);
    }
  }

  /** The ledger files of a directory, in name order. */
  class LedgerDirectory {
    var texts: seq<string>

    constructor (texts: seq<string>)
      ensures this.texts == texts
    {
      this.texts := texts;
    }

    /**
     The confirmed `run_security_freeze`: whether every chain was intact, None where a check raised; the
     files before that one are frozen then, and the others are not.
     */
    method FreezeAll(sha: Sha, names: seq<string>, stamps: seq<Stamp>, reason: string, repr: Repr)
      returns (intact: Option<bool>)
      requires |names| == |stamps| == |texts|
      modifies this
      ensures |texts| == |old(texts)|
      ensures forall i | 0 <= i < |texts| ::
        texts[i] == if StoppedBy(sha, old(texts), i, repr) then old(texts)[i]
                    else AfterOp(sha, old(texts)[i], Freeze(stamps[i], names[i], reason), repr)
      ensures intact.None? <==> exists i | 0 <= i < |texts| :: StoppedBy(sha, old(texts), i, repr)
      ensures intact.Some? ==> (intact.value <==> forall i | 0 <= i < |texts| ::
        ValidRecords(Seen(old(texts)[i], repr)) && Intact(sha, Seen(old(texts)[i], repr)))
    {
      hide AfterOp, CheckRaises, Seen, Intact, ValidRecord;
      ghost var was := texts;
      LoadedAreAllPython(was, repr);
      var all := true;
      for i := 0 to |texts|
        invariant |texts| == |was| == |names| == |stamps|
        invariant forall k | 0 <= k < i :: !CheckRaises(sha, Seen(was[k], repr))
        invariant forall k | 0 <= k < i :: texts[k] == AfterOp(sha, was[k], Freeze(stamps[k], names[k], reason), repr)
        invariant forall k | i <= k < |texts| :: texts[k] == was[k]
        invariant all <==> forall k | 0 <= k < i :: ValidRecords(Seen(was[k], repr)) && Intact(sha, Seen(was[k], repr))
      {
        var file := new LedgerFile(texts[i]);
        var report := file.FreezeOne(sha, stamps[i], names[i], reason, repr);
        if report.None? {
          assert StoppedBy(sha, was, i, repr);
          return None;
        }
        all := all && report.value.intact;
        texts := texts[i := file.text];
      }
      intact := Some(all);
    }
  }
}
