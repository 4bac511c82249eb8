/**
 The hash chain over System Log records (model-packs/system/controllers/system_log_validator.py and
 security_freeze.py). The digest is an arbitrary function of the canonical text.
 */
module Ledger {
  import opened Text
  import opened Json
  import opened JsonLaws

  type Sha = string -> string

  /** `hash_record` */
  function HashRecord(sha: Sha, r: Value): string {
    sha(Dumps(r))
  }

  /** What `verify_chain` needs: dictionaries. */
  predicate ValidRecord(r: Value) {
    r.Obj? && WellFormed(r)
  }

  predicate ValidRecords(rs: seq<Value>) {
    forall i | 0 <= i < |rs| :: ValidRecord(rs[i])
  }

  /** `r.get(key)`, with None for a missing key. */
  function Get(r: Value, key: string): Value
    requires r.Obj?
  {
    match Lookup(r.fields, key)
    case None => Null
    case Some(v) => v
  }

  /** `r.get("prev_record_hash", "")` */
  function PrevHash(r: Value): Value
    requires r.Obj?
  {
    match Lookup(r.fields, "prev_record_hash")
    case None => Str("")
    case Some(v) => v
  }

  /** The record at `i` carries the hash that its place in the chain demands. */
  predicate LinkHolds(sha: Sha, rs: seq<Value>, i: nat)
    requires i < |rs| && ValidRecords(rs)
  {
    if i == 0 then Get(rs[0], "prev_record_hash") == Str("genesis")
    else PrevHash(rs[i]) == Str(HashRecord(sha, rs[i - 1]))
  }

  ghost predicate Intact(sha: Sha, rs: seq<Value>)
    requires ValidRecords(rs)
  {
    forall i | 0 <= i < |rs| :: LinkHolds(sha, rs, i)
  }

  /** `i` is the least index whose link is violated. */
  ghost predicate FirstBroken(sha: Sha, rs: seq<Value>, i: nat)
    requires ValidRecords(rs)
  {
    i < |rs| && !LinkHolds(sha, rs, i) && forall k | 0 <= k < i :: LinkHolds(sha, rs, k)
  }

  datatype ChainReport = ChainReport(intact: bool, recordsChecked: nat, firstBroken: Option<nat>, brokenId: Value)

  /** Records that Python can hold; only those that are dictionaries have a `get`. */
  predicate PythonRecords(rs: seq<Value>) {
    forall i | 0 <= i < |rs| :: WellFormed(rs[i])
  }

  /** The index of the first record that is no dictionary, or the length. */
  function DictsUpTo(rs: seq<Value>): (n: nat)
    ensures n <= |rs| && forall i | 0 <= i < n :: rs[i].Obj?
    ensures n < |rs| ==> !rs[n].Obj?
  {
    if rs == [] || !rs[0].Obj? then 0 else 1 + DictsUpTo(rs[1..])
  }

  /** `verify_chain`; None where it raises on a record that is no dictionary, having found no break before. */
  method VerifyChain(sha: Sha, rs: seq<Value>) returns (r: Option<ChainReport>)
    requires PythonRecords(rs)
    ensures ValidRecords(rs[..DictsUpTo(rs)])
    ensures r.None? <==> DictsUpTo(rs) < |rs| && Intact(sha, rs[..DictsUpTo(rs)])
    ensures r.Some? ==>
      var report, dicts := r.value, rs[..DictsUpTo(rs)];
      && (report.intact <==> Intact(sha, dicts))
      && (report.intact <==> report.firstBroken.None?)
      && (report.intact ==> dicts == rs && report.recordsChecked == |rs| && report.brokenId == Null)
      && (report.firstBroken.Some? ==>
            && FirstBroken(sha, dicts, report.firstBroken.value)
            && report.brokenId == Get(dicts[report.firstBroken.value], "record_id")
            && report.recordsChecked == report.firstBroken.value + 1)
  {
    hide HashRecord, WellFormed;
    ghost var dicts := rs[..DictsUpTo(rs)];
    if rs == [] {
      return Some(ChainReport(true, 0, None, Null));
    }
    if !rs[0].Obj? {
      return None;
    }
    assert dicts[0] == rs[0];
    if Get(rs[0], "prev_record_hash") != Str("genesis") {
      assert !LinkHolds(sha, dicts, 0);
      return Some(ChainReport(false, 1, Some(0), Get(rs[0], "record_id")));
    }
    for i := 1 to |rs|
      invariant i <= DictsUpTo(rs)
      invariant forall k | 0 <= k < i :: LinkHolds(sha, dicts, k)
    {
      var expected := HashRecord(sha, rs[i - 1]);
      if !rs[i].Obj? {
        return None;
      }
      assert dicts[i] == rs[i] && dicts[i - 1] == rs[i - 1];
      if PrevHash(rs[i]) != Str(expected) {
        assert !LinkHolds(sha, dicts, i);
        return Some(ChainReport(false, i + 1, Some(i), Get(rs[i], "record_id")));
      }
    }
    return Some(ChainReport(true, |rs|, None, Null));
  }

  // ---------------------------------------------------------------- appending

  /** The `prev_record_hash` of the next record. */
  function NextPrev(sha: Sha, rs: seq<Value>): string {
    if rs == [] then "genesis" else HashRecord(sha, rs[|rs| - 1])
  }

  predicate ChainsOn(sha: Sha, rs: seq<Value>, r: Value) {
    ValidRecord(r) && Lookup(r.fields, "prev_record_hash") == Some(Str(NextPrev(sha, rs)))
  }

  /** Appending never touches an earlier link. */
  lemma LinksOfPrefix(sha: Sha, rs: seq<Value>, more: seq<Value>, i: nat)
    requires ValidRecords(rs + more) && i < |rs|
    ensures ValidRecords(rs)
    ensures LinkHolds(sha, rs + more, i) <==> LinkHolds(sha, rs, i)
  {
    forall k | 0 <= k < |rs| ensures ValidRecord(rs[k]) {
      assert (rs + more)[k] == rs[k];
    }
  }

  /** A chained record keeps an intact ledger intact. */
  lemma AppendKeepsIntact(sha: Sha, rs: seq<Value>, r: Value)
    requires ValidRecords(rs) && ChainsOn(sha, rs, r) && Intact(sha, rs)
    ensures ValidRecords(rs + [r]) && Intact(sha, rs + [r])
  {
    hide HashRecord;
    forall i | 0 <= i < |rs| + 1 ensures LinkHolds(sha, rs + [r], i) {
      if i < |rs| {
        LinksOfPrefix(sha, rs, [r], i);
      }
    }
  }

  /** A record that claims to be the first breaks any intact ledger it is appended to, at its own index. */
  lemma SecondGenesisBreaks(sha: Sha, rs: seq<Value>, r: Value)
    requires forall t :: sha(t) != "genesis"
    requires ValidRecords(rs) && Intact(sha, rs)
    requires ValidRecord(r) && Lookup(r.fields, "prev_record_hash") == Some(Str("genesis"))
    ensures ValidRecords(rs + [r])
    ensures Intact(sha, rs + [r]) <==> rs == []
    ensures rs != [] ==> FirstBroken(sha, rs + [r], |rs|)
  {
    hide WellFormed, Lookup;
    forall i | 0 <= i < |rs| ensures LinkHolds(sha, rs + [r], i) {
      LinksOfPrefix(sha, rs, [r], i);
    }
    if rs != [] {
      assert (rs + [r])[|rs|] == r && (rs + [r])[|rs| - 1] == rs[|rs| - 1];
      assert !LinkHolds(sha, rs + [r], |rs|);
    } else {
      assert (rs + [r])[0] == r;
    }
  }

  /** A broken ledger stays broken at the same index, whatever is appended. */
  lemma BrokenStaysBroken(sha: Sha, rs: seq<Value>, more: seq<Value>, i: nat)
    requires ValidRecords(rs) && ValidRecords(more) && FirstBroken(sha, rs, i)
    ensures ValidRecords(rs + more) && FirstBroken(sha, rs + more, i) && !Intact(sha, rs + more)
  {
    forall k | 0 <= k <= i
      ensures LinkHolds(sha, rs + more, k) <==> LinkHolds(sha, rs, k)
    {
      LinksOfPrefix(sha, rs, more, k);
    }
  }

  // ---------------------------------------------------------------- tamper evidence

  /** Walks two ledgers from their ends to the first place where they differ. */
  function FindCollision(l: seq<Value>, m: seq<Value>): Option<(Value, Value)>
    decreases |l|
  {
    if l == [] || m == [] then None
    else
      var a, b := l[|l| - 1], m[|m| - 1];
      if Dumps(a) != Dumps(b) then Some((a, b)) else FindCollision(l[..|l| - 1], m[..|m| - 1])
  }

  /** Record by record equal, as JSON values. */
  predicate SameLedger(l: seq<Value>, m: seq<Value>) {
    |l| == |m| && forall i | 0 <= i < |l| :: Same(l[i], m[i])
  }

  lemma {:induction false} LookupIn(fields: seq<Field>, key: string)
    ensures Lookup(fields, key).Some? ==> exists i | 0 <= i < |fields| ::
              fields[i].key == key && fields[i].value == Lookup(fields, key).value
    ensures (exists i | 0 <= i < |fields| :: fields[i].key == key) ==> Lookup(fields, key).Some?
  {
    if fields != [] && fields[0].key != key {
      LookupIn(fields[1..], key);
      if Lookup(fields, key).Some? {
        var i :| 0 <= i < |fields[1..]| && fields[1..][i].key == key
                 && fields[1..][i].value == Lookup(fields, key).value;
        assert fields[i + 1] == fields[1..][i];
      }
      if exists i | 0 <= i < |fields| :: fields[i].key == key {
        var i :| 0 <= i < |fields| && fields[i].key == key;
        assert fields[1..][i - 1] == fields[i];
      }
    }
  }

  lemma {:induction false} LookupAt(fields: seq<Field>, i: nat)
    requires DistinctKeys(fields) && i < |fields|
    ensures Lookup(fields, fields[i].key) == Some(fields[i].value)
  {
    if i > 0 {
      assert fields[0].key != fields[i].key;
      LookupAt(fields[1..], i - 1);
    }
  }

  /** Equal dictionaries agree on everything they hold. */
  lemma SameLookup(a: Value, b: Value, key: string)
    requires ValidRecord(a) && ValidRecord(b) && Same(a, b)
    ensures Lookup(a.fields, key).Some? <==> Lookup(b.fields, key).Some?
    ensures Lookup(a.fields, key).Some? ==> Same(Lookup(a.fields, key).value, Lookup(b.fields, key).value)
  {
    var fs, gs := a.fields, b.fields;
    assert (forall i | 0 <= i < |fs| :: SameAsOne(fs[i], gs)) && (forall j | 0 <= j < |gs| :: OneSameAs(fs, gs[j]));
    SameFieldsLookup(fs, gs, key);
  }

  lemma SameFieldsLookup(fs: seq<Field>, gs: seq<Field>, key: string)
    requires DistinctKeys(fs) && DistinctKeys(gs)
    requires forall i | 0 <= i < |fs| :: SameAsOne(fs[i], gs)
    requires forall j | 0 <= j < |gs| :: OneSameAs(fs, gs[j])
    ensures Lookup(fs, key).Some? <==> Lookup(gs, key).Some?
    ensures Lookup(fs, key).Some? ==> Same(Lookup(fs, key).value, Lookup(gs, key).value)
  {
    hide Lookup, Same, SameAsOne, OneSameAs, DistinctKeys;
    if Lookup(fs, key).Some? {
      var i := FieldOf(fs, key);
      var j := PartnerOf(fs[i], gs);
      LookupAt(gs, j);
    }
    if Lookup(gs, key).Some? {
      var j := FieldOf(gs, key);
      var i := OwnerOf(fs, gs[j]);
      LookupAt(fs, i);
    }
  }

  lemma FieldOf(fields: seq<Field>, key: string) returns (i: nat)
    requires Lookup(fields, key).Some?
    ensures i < |fields| && fields[i].key == key && fields[i].value == Lookup(fields, key).value
  {
    hide Lookup;
    LookupIn(fields, key);
    i :| i < |fields| && fields[i].key == key && fields[i].value == Lookup(fields, key).value;
  }

  lemma PartnerOf(f: Field, gs: seq<Field>) returns (j: nat)
    requires SameAsOne(f, gs)
    ensures j < |gs| && f.key == gs[j].key && Same(f.value, gs[j].value)
  {
    hide Same;
    j :| j < |gs| && f.key == gs[j].key && Same(f.value, gs[j].value);
  }

  lemma OwnerOf(fs: seq<Field>, g: Field) returns (i: nat)
    requires OneSameAs(fs, g)
    ensures i < |fs| && fs[i].key == g.key && Same(fs[i].value, g.value)
  {
    hide Same;
    i :| i < |fs| && fs[i].key == g.key && Same(fs[i].value, g.value);
  }

  /** Equal records at the ends of two ledgers point to equal digests, or are both first. */
  lemma SameLinks(sha: Sha, l: seq<Value>, m: seq<Value>)
    requires forall t :: sha(t) != "genesis"
    requires l != [] && m != [] && ValidRecords(l) && ValidRecords(m) && Intact(sha, l) && Intact(sha, m)
    requires Dumps(l[|l| - 1]) == Dumps(m[|m| - 1])
    ensures |l| == 1 <==> |m| == 1
    ensures |l| > 1 ==> HashRecord(sha, l[|l| - 2]) == HashRecord(sha, m[|m| - 2])
  {
    hide Same, Lookup, WellFormed, Dumps;
    var a, b := l[|l| - 1], m[|m| - 1];
    assert ValidRecord(a) && ValidRecord(b);
    DumpsInjective(a, b);
    SameLookup(a, b, "prev_record_hash");
    SameStrings(a, b, "prev_record_hash");
    assert LinkHolds(sha, l, |l| - 1) && LinkHolds(sha, m, |m| - 1);
  }

  lemma SameStrings(a: Value, b: Value, key: string)
    requires a.Obj? && b.Obj?
    requires Lookup(a.fields, key).Some? && Lookup(b.fields, key).Some?
             ==> Same(Lookup(a.fields, key).value, Lookup(b.fields, key).value)
    ensures Lookup(a.fields, key).Some? && Lookup(b.fields, key).Some?
            && (Lookup(a.fields, key).value.Str? || Lookup(b.fields, key).value.Str?)
            ==> Lookup(a.fields, key) == Lookup(b.fields, key)
  {
    hide Lookup;
  }

  /**
   Tamper evidence: two intact ledgers that end alike are the same ledger, or `FindCollision`
   exhibits two different records, one of each, with the same digest.
   */
  lemma {:induction false} TamperEvidence(sha: Sha, l: seq<Value>, m: seq<Value>)
    requires forall t :: sha(t) != "genesis"
    requires l != [] && m != [] && ValidRecords(l) && ValidRecords(m) && Intact(sha, l) && Intact(sha, m)
    requires HashRecord(sha, l[|l| - 1]) == HashRecord(sha, m[|m| - 1])
    ensures match FindCollision(l, m)
            case None => SameLedger(l, m)
            case Some((a, b)) =>
              a in l && b in m && Dumps(a) != Dumps(b) && sha(Dumps(a)) == sha(Dumps(b))
    decreases |l|
  {
    hide Same, Dumps, LinkHolds, WellFormed;
    var a, b := l[|l| - 1], m[|m| - 1];
    if Dumps(a) == Dumps(b) {
      assert ValidRecord(a) && ValidRecord(b);
      DumpsInjective(a, b);
      SameLinks(sha, l, m);
      var l', m' := l[..|l| - 1], m[..|m| - 1];
      assert l == l' + [a] && m == m' + [b];
      if l' != [] {
        PrefixIntact(sha, l);
        PrefixIntact(sha, m);
        assert l'[|l'| - 1] == l[|l| - 2] && m'[|m'| - 1] == m[|m| - 2];
        TamperEvidence(sha, l', m');
      }
    }
  }

  lemma PrefixIntact(sha: Sha, l: seq<Value>)
    requires l != [] && ValidRecords(l) && Intact(sha, l)
    ensures ValidRecords(l[..|l| - 1]) && Intact(sha, l[..|l| - 1])
  {
    hide LinkHolds, ValidRecord;
    var l' := l[..|l| - 1];
    assert l == l' + [l[|l| - 1]];
    forall i | 0 <= i < |l'| ensures ValidRecords(l') && LinkHolds(sha, l', i) {
      LinksOfPrefix(sha, l', [l[|l| - 1]], i);
    }
  }

  /** Without a collision among their records, the last record fixes the whole ledger and its length. */
  lemma LastRecordFixesLedger(sha: Sha, l: seq<Value>, m: seq<Value>)
    requires forall t :: sha(t) != "genesis"
    requires l != [] && m != [] && ValidRecords(l) && ValidRecords(m) && Intact(sha, l) && Intact(sha, m)
    requires Same(l[|l| - 1], m[|m| - 1])
    requires forall a, b | a in l && b in m && sha(Dumps(a)) == sha(Dumps(b)) :: Dumps(a) == Dumps(b)
    ensures SameLedger(l, m)
  {
    hide Same, Dumps, WellFormed, Intact;
    assert ValidRecord(l[|l| - 1]) && ValidRecord(m[|m| - 1]);
    DumpsInjective(l[|l| - 1], m[|m| - 1]);
    TamperEvidence(sha, l, m);
  }
}
