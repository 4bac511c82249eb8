/**
 Regenerating the manifest: which hash line the rewriter exchanges for which entry of the parser, what
 else changes in the file, what a check then reports, and when there was nothing to do.
 */
module ManifestLaws {
  import opened Text
  import opened Manifest
  import opened ManifestLines

  // ---------------------------------------------------------------- the two scanners side by side

  /** One word, such as a digest or a date. */
  predicate Word(s: string) {
    s != "" && Ink(s)
  }

  ghost predicate WordValues(hashes: map<string, string>) {
    "" !in hashes && forall p | p in hashes :: Word(hashes[p])
  }

  /** An entry with the hash of its file in its hash line, if it has one and the file exists. */
  function UpdatedEntry(e: Entry, hashes: map<string, string>): Entry {
    if e.sha.Some? && e.path in hashes then e.(sha := Some(hashes[e.path])) else e
  }

  function Updated(entries: seq<Entry>, missed: seq<bool>, hashes: map<string, string>): (r: seq<Entry>)
    requires |missed| == |entries|
    ensures |r| == |entries|
    ensures forall i | 0 <= i < |entries| ::
      r[i] == if missed[i] then entries[i] else UpdatedEntry(entries[i], hashes)
  {
    seq(|entries|, i requires 0 <= i < |entries| =>
      if missed[i] then entries[i] else UpdatedEntry(entries[i], hashes))
  }

  /** An odd item in front of its hash line takes the entry that is open out of the rewriter's sight. */
  function NextMissed(s: Parsed, missed: seq<bool>, line: string): (r: seq<bool>)
    requires |missed| == |s.entries|
    ensures |r| == |ParseLine(s, Content(line)).entries|
  {
    if PathOf(Content(line)).Some? then missed + [false]
    else if OddItem(line) && s.open && missed != [] then missed[|missed| - 1 := true]
    else missed
  }

  /** For each entry of the parser, whether an odd item stands between it and its hash line. */
  function Missed(lines: seq<string>): (r: seq<bool>)
    ensures |r| == |ParseLines(lines).entries|
  {
    if lines == [] then []
    else
      var front := lines[..|lines| - 1];
      NextMissed(ParseLines(front), Missed(front), lines[|lines| - 1])
  }

  /**
   The rewriter in step with the parser: while an entry is open the rewriter looks for its path, or for
   the empty path once the entry is missed; otherwise it can only be looking for a path without a hash.
   */
  predicate InStep(s: Parsed, missed: seq<bool>, current: Option<string>, hashes: map<string, string>)
    requires |missed| == |s.entries|
  {
    && (s.open ==> s.entries != [] && s.entries[|s.entries| - 1].sha.None?
                   && current == Some(if missed[|missed| - 1] then "" else s.entries[|s.entries| - 1].path))
    && (!s.open && current.Some? ==> current.value !in hashes)
  }

  /** What one input line becomes. */
  function NewLine(current: Option<string>, line: string, hashes: map<string, string>, today: string): string {
    var r := RewriteLine(Rewritten([], current), line, hashes, today);
    if r.out == [] then line else r.out[0]
  }

  /** The path looked for behind a line. */
  function NextCurrent(current: Option<string>, line: string, hashes: map<string, string>, today: string)
    : Option<string>
  {
    RewriteLine(Rewritten([], current), line, hashes, today).current
  }

  lemma RewriteLineEffect(s: Rewritten, line: string, hashes: map<string, string>, today: string)
    ensures var r := RewriteLine(s, line, hashes, today);
      && r.out == s.out + [NewLine(s.current, line, hashes, today)]
      && r.current == NextCurrent(s.current, line, hashes, today)
  {
    hide PathOf, ShaOf, DateOf;
  }

  lemma OneMoreLine(lines: seq<string>, hashes: map<string, string>, today: string)
    requires lines != []
    ensures var r, before := RewriteLines(lines, hashes, today), RewriteLines(lines[..|lines| - 1], hashes, today);
      && r.out == before.out + [NewLine(before.current, lines[|lines| - 1], hashes, today)]
      && r.current == NextCurrent(before.current, lines[|lines| - 1], hashes, today)
  {
    hide RewriteLine, NewLine, NextCurrent;
    RewriteLineEffect(RewriteLines(lines[..|lines| - 1], hashes, today), lines[|lines| - 1], hashes, today);
  }

  /** A value is exchanged and nothing else; the new line is a line, and terminated if the old one was. */
  lemma ExchangedIsLine(line: string, p: Parts, value: string)
    requires IsLine(line) && line == p.prefix + p.value + p.rest && Word(p.value) && Word(value)
    ensures IsLine(p.prefix + value + p.rest)
    ensures Terminated(p.prefix + value + p.rest) <==> Terminated(line)
  {
    hide IsBreak, IsSpace;
    var new_ := p.prefix + value + p.rest;
    forall i | 0 <= i < |new_| - 1 ensures !IsBreak(new_[i]) {
      if i < |p.prefix| {
        assert new_[i] == line[i];
      } else if i < |p.prefix| + |value| {
        assert new_[i] == value[i - |p.prefix|];
        InkHasNoBreak(new_[i]);
      } else {
        assert new_[i] == p.rest[i - |p.prefix| - |value|] == line[i - |value| + |p.value|];
      }
    }
    if p.rest == "" {
      assert new_[|new_| - 1] == value[|value| - 1] && line[|line| - 1] == p.value[|p.value| - 1];
      InkHasNoBreak(new_[|new_| - 1]);
      InkHasNoBreak(line[|line| - 1]);
    } else {
      assert new_[|new_| - 1] == p.rest[|p.rest| - 1] == line[|line| - 1];
    }
  }

  lemma InkHasNoBreak(c: char)
    ensures !IsSpace(c) ==> !IsBreak(c)
  {
    if IsBreak(c) {
      BreaksAreSpace(c);
    }
  }

  /** How a rewritten line relates to the original one. */
  ghost predicate LineKept(line: string, new_: string, hashes: map<string, string>, today: string) {
    || new_ == line
    || (DateOf(line).Some? && new_ == DateOf(line).value.prefix + today + DateOf(line).value.rest)
    || (ShaOf(line).Some? && exists p | p in hashes ::
          new_ == ShaOf(line).value.prefix + hashes[p] + ShaOf(line).value.rest)
  }

  lemma DateShape(line: string)
    requires DateOf(line).Some?
    ensures var p := DateOf(line).value; line == p.prefix + p.value + p.rest && Word(p.value)
  {
    SplitValueShape(line, 13);
  }

  lemma ShaShape(line: string)
    requires ShaOf(line).Some?
    ensures var p := ShaOf(line).value; line == p.prefix + p.value + p.rest && Word(p.value)
  {
    SplitValueShape(line, SpaceRun(line) + 7);
  }

  lemma {:induction false} StripWord(s: string)
    requires Ink(s)
    ensures Strip(s) == s
  {}

  /** Everything about one rewritten line. */
  lemma NewLineFacts(current: Option<string>, line: string, hashes: map<string, string>, today: string)
    requires IsLine(line) && WordValues(hashes) && Word(today)
    ensures var new_ := NewLine(current, line, hashes, today);
      && IsLine(new_) && (Terminated(new_) <==> Terminated(line)) && LineKept(line, new_, hashes, today)
      && PathOf(new_) == PathOf(line) && PathOf(Content(new_)) == PathOf(Content(line))
      && (OddItem(new_) <==> OddItem(line))
      && (DateOf(line).Some? ==> DateOf(new_) == Some(DateOf(line).value.(value := today)))
      && (DateOf(line).None? ==> DateOf(new_).None?)
      && (ShaOf(line).None? ==> ShaOf(new_).None?)
      && (ShaOf(line).Some? ==> ShaOf(new_) == Some(ShaOf(line).value.(value :=
            if current.Some? && current.value in hashes then hashes[current.value] else ShaOf(line).value.value)))
  {
    hide PathOf, ShaOf, DateOf, IsLine, Terminated, Content, Word, OddItem;
    PatternsDisjoint(line);
    var new_ := NewLine(current, line, hashes, today);
    if DateOf(line).Some? {
      DateShape(line);
      ExchangedIsLine(line, DateOf(line).value, today);
      WordIsInk(today);
      DateRewritten(line, today);
      FieldIsNoItem(line);
      FieldIsNoItem(new_);
    } else if PathOf(line).None? && ShaOf(line).Some? && current.Some? && current.value in hashes {
      var hash := hashes[current.value];
      ShaShape(line);
      ExchangedIsLine(line, ShaOf(line).value, hash);
      WordIsInk(hash);
      ShaRewritten(line, hash);
      FieldIsNoItem(line);
      FieldIsNoItem(new_);
    }
    assert ShaOf(line).Some? ==> ShaOf(line).value.(value := ShaOf(line).value.value) == ShaOf(line).value;
  }

  lemma WordIsInk(s: string)
    requires Word(s)
    ensures s != "" && Ink(s)
  {}

  /** With or without its terminator a field line is no path line. */
  lemma FieldIsNoItem(line: string)
    requires IsLine(line) && (DateOf(line).Some? || ShaOf(line).Some?)
    ensures PathOf(line).None? && PathOf(Content(line)).None? && !OddItem(line)
    ensures !(DateOf(line).Some? && ShaOf(line).Some?)
  {
    hide PathOf, IsBreak, OddItem;
    PatternsDisjoint(line);
    OddLinesDisagree(line);
    if ShaOf(line).Some? {
      ShaContent(line);
      PatternsDisjoint(Content(line));
    } else {
      DateContent(line);
      PatternsDisjoint(Content(line));
    }
  }

  lemma DateContent(line: string)
    requires IsLine(line) && DateOf(line).Some?
    ensures DateOf(Content(line)).Some?
  {
    hide SplitValue, IsBreak;
    if Terminated(line) {
      var s, b := Content(line), line[|line| - 1];
      assert line == s + [b];
      BreakIsNot(b, ':');
      StartsWithAppend(s, b, "last_updated:");
      SplitValueAppend(s, b, 13);
    }
  }

  /** The value that the parser takes from a hash line is the one that the pattern sees on the whole line. */
  lemma ParsedValue(line: string)
    requires IsLine(line) && ShaOf(line).Some?
    ensures ShaOf(Content(line)).Some?
    ensures Strip(ShaOf(Content(line)).value.value) == ShaOf(line).value.value
  {
    hide ShaOf, Strip, IsLine, Content;
    ShaContent(line);
    ShaShape(line);
    WordIsInk(ShaOf(line).value.value);
    StripWord(ShaOf(line).value.value);
  }

  /** What the parser makes of a line, in terms of the whole line. */
  lemma ParseLineIs(s: Parsed, line: string)
    requires IsLine(line)
    ensures ParseLine(s, Content(line)) ==
      if PathOf(Content(line)).Some? then Parsed(s.entries + [Entry(PathOf(Content(line)).value, None)], true)
      else if ShaOf(line).Some? && s.open && s.entries != [] then
        Parsed(s.entries[|s.entries| - 1 := s.entries[|s.entries| - 1].(sha := Some(ShaOf(line).value.value))], false)
      else s
    ensures ShaOf(line).Some? ==> PathOf(Content(line)).None?
    ensures OddItem(line) ==> PathOf(Content(line)).None? && ShaOf(line).None?
  {
    hide PathOf, ShaOf, IsLine, Content, OddItem, Strip, DateOf;
    OddLinesDisagree(line);
    if OddItem(line) {
      OddItemIsNoField(line);
    }
    ShaContent(line);
    if ShaOf(line).Some? {
      FieldIsNoItem(line);
      ParsedValue(line);
    }
  }

  /** One line taken by parser and rewriter, and the parser again on the rewritten line. */
  lemma StepInStep(s: Parsed, s': Parsed, missed: seq<bool>, current: Option<string>, line: string,
                   hashes: map<string, string>, today: string)
    requires IsLine(line) && WordValues(hashes) && Word(today) && |missed| == |s.entries|
    requires InStep(s, missed, current, hashes) && s'.open == s.open && s'.entries == Updated(s.entries, missed, hashes)
    ensures var new_ := NewLine(current, line, hashes, today);
      var t, t' := ParseLine(s, Content(line)), ParseLine(s', Content(new_));
      var missed' := NextMissed(s, missed, line);
      && InStep(t, missed', NextCurrent(current, line, hashes, today), hashes)
      && t'.open == t.open && t'.entries == Updated(t.entries, missed', hashes)
      && NextMissed(s', missed, new_) == missed'
  {
    hide PathOf, ShaOf, DateOf, IsLine, Terminated, Content, Ink, ParseLine, LineKept, OddItem;
    var new_ := NewLine(current, line, hashes, today);
    NewLineFacts(current, line, hashes, today);
    PatternsDisjoint(line);
    OddLinesDisagree(line);
    ParseLineIs(s, line);
    ParseLineIs(s', new_);
    hide NewLine;
    if OddItem(line) {
      OddItemIsNoField(line);
    }
  }

  /** Parser and rewriter over any lines: every entry but the missed ones gets its hash. */
  lemma {:induction false} InStepThroughout(lines: seq<string>, hashes: map<string, string>, today: string)
    requires (forall i | 0 <= i < |lines| :: IsLine(lines[i])) && WordValues(hashes) && Word(today)
    ensures var s, r := ParseLines(lines), RewriteLines(lines, hashes, today);
      var s' := ParseLines(r.out);
      && InStep(s, Missed(lines), r.current, hashes)
      && s'.open == s.open && s'.entries == Updated(s.entries, Missed(lines), hashes)
      && Missed(r.out) == Missed(lines)
      && |r.out| == |lines|
      && (forall i | 0 <= i < |lines| ::
            && IsLine(r.out[i]) && (Terminated(r.out[i]) <==> Terminated(lines[i]))
            && LineKept(lines[i], r.out[i], hashes, today))
  {
    hide PathOf, ShaOf, DateOf, IsLine, Terminated, Content, ParseLine, NewLine, NextCurrent, InStep, LineKept, Word,
         NextMissed, RewriteLines, OddItem;
    if lines == [] {
      EmptyInStep(hashes, today);
    } else {
      var n := |lines| - 1;
      var front, line := lines[..n], lines[n];
      InStepThroughout(front, hashes, today);
      var s, r := ParseLines(front), RewriteLines(front, hashes, today);
      StepInStep(s, ParseLines(r.out), Missed(front), r.current, line, hashes, today);
      NewLineFacts(r.current, line, hashes, today);
      OneMoreLine(lines, hashes, today);
      var out := RewriteLines(lines, hashes, today).out;
      assert out[..n] == r.out && out[n] == NewLine(r.current, line, hashes, today);
    }
  }

  lemma EmptyInStep(hashes: map<string, string>, today: string)
    ensures InStep(Parsed([], false), [], None, hashes) && Updated([], [], hashes) == []
    ensures RewriteLines([], hashes, today) == Rewritten([], None) && ParseLines([]) == Parsed([], false)
  {}

  /** Rewriting the result with the same hashes on the same day leaves it as it is. */
  lemma {:induction false} RewriteTwice(lines: seq<string>, hashes: map<string, string>, today: string)
    requires (forall i | 0 <= i < |lines| :: IsLine(lines[i])) && WordValues(hashes) && Word(today)
    ensures var r := RewriteLines(lines, hashes, today);
            RewriteLines(r.out, hashes, today) == r
  {
    hide PathOf, ShaOf, DateOf, IsLine, Terminated, Content, NewLine, NextCurrent, LineKept, Word, RewriteLines;
    if lines == [] {
      EmptyInStep(hashes, today);
    } else {
      var n := |lines| - 1;
      var front, line := lines[..n], lines[n];
      RewriteTwice(front, hashes, today);
      var r := RewriteLines(front, hashes, today);
      OneMoreLine(lines, hashes, today);
      var out := RewriteLines(lines, hashes, today).out;
      assert out[..n] == r.out && out[n] == NewLine(r.current, line, hashes, today);
      OneMoreLine(out, hashes, today);
      LineRewriteTwice(r.current, line, hashes, today);
    }
  }

  lemma LineRewriteTwice(current: Option<string>, line: string, hashes: map<string, string>, today: string)
    requires IsLine(line) && WordValues(hashes) && Word(today)
    ensures var new_ := NewLine(current, line, hashes, today);
      && NewLine(current, new_, hashes, today) == new_
      && NextCurrent(current, new_, hashes, today) == NextCurrent(current, line, hashes, today)
  {
    hide PathOf, ShaOf, DateOf, IsLine, Terminated, Content, Word, LineKept, OddItem;
    NewLineFacts(current, line, hashes, today);
    var new_ := NewLine(current, line, hashes, today);
    PatternsDisjoint(line);
    if ShaOf(new_).Some? {
      ShaShape(new_);
    }
    if DateOf(new_).Some? {
      DateShape(new_);
    }
  }

  // ---------------------------------------------------------------- which hash is missed

  /** Lines between an item and its hash line: no item and no hash line for the parser. */
  predicate Between(mid: seq<string>) {
    forall i | 0 <= i < |mid| :: PathOf(Content(mid[i])).None? && ShaOf(mid[i]).None?
  }

  predicate AnyOdd(lines: seq<string>) {
    exists i | 0 <= i < |lines| :: OddItem(lines[i])
  }

  lemma {:induction false} OpenThrough(front: seq<string>, item: string, path: string, mid: seq<string>)
    requires (forall i | 0 <= i < |mid| :: IsLine(mid[i])) && Between(mid) && PathOf(Content(item)) == Some(path)
    ensures var lines := front + [item] + mid;
      && ParseLines(lines) == Parsed(ParseLines(front).entries + [Entry(path, None)], true)
      && Missed(lines) == Missed(front) + [AnyOdd(mid)]
    decreases |mid|
  {
    hide PathOf, ShaOf, IsLine, Content, ParseLine, OddItem;
    var lines := front + [item] + mid;
    if mid == [] {
      assert lines == front + [item] && lines[..|lines| - 1] == front;
      ItemOpens(ParseLines(front), Missed(front), item, path);
    } else {
      var n := |mid| - 1;
      OpenThrough(front, item, path, mid[..n]);
      assert lines[..|lines| - 1] == front + [item] + mid[..n];
      assert mid == mid[..n] + [mid[n]];
      ParseLineIs(ParseLines(lines[..|lines| - 1]), mid[n]);
      assert AnyOdd(mid) <==> AnyOdd(mid[..n]) || OddItem(mid[n]);
    }
  }

  lemma ItemOpens(s: Parsed, missed: seq<bool>, item: string, path: string)
    requires PathOf(Content(item)) == Some(path) && |missed| == |s.entries|
    ensures ParseLine(s, Content(item)) == Parsed(s.entries + [Entry(path, None)], true)
    ensures NextMissed(s, missed, item) == missed + [false]
  {}

  /** A closed entry is not touched by later lines. */
  lemma {:induction false} ClosedStays(lines: seq<string>, tail: seq<string>, k: nat)
    requires forall i | 0 <= i < |tail| :: IsLine(tail[i])
    requires k < |ParseLines(lines).entries|
    requires k == |ParseLines(lines).entries| - 1 ==> !ParseLines(lines).open
    ensures var s, t := ParseLines(lines), ParseLines(lines + tail);
      && k < |t.entries| && t.entries[k] == s.entries[k] && Missed(lines + tail)[k] == Missed(lines)[k]
      && (k == |t.entries| - 1 ==> !t.open)
    decreases |tail|
  {
    hide PathOf, ShaOf, IsLine, Content, ParseLine, OddItem;
    if tail == [] {
      assert lines + tail == lines;
    } else {
      var n := |tail| - 1;
      ClosedStays(lines, tail[..n], k);
      assert (lines + tail)[..|lines + tail| - 1] == lines + tail[..n];
      ParseLineIs(ParseLines(lines + tail[..n]), tail[n]);
    }
  }

  /**
   An item with its hash line anywhere in a file, for a file that exists: the rewrite misses the hash if
   and only if an odd item stands between the two, and otherwise writes it.
   */
  lemma HashMissedIff(front: seq<string>, item: string, path: string, mid: seq<string>, hashLine: string,
                      tail: seq<string>, hashes: map<string, string>, today: string)
    requires forall i | 0 <= i < |front + [item] + mid + [hashLine] + tail| ::
               IsLine((front + [item] + mid + [hashLine] + tail)[i])
    requires WordValues(hashes) && Word(today) && path in hashes
    requires PathOf(Content(item)) == Some(path) && Between(mid) && ShaOf(hashLine).Some?
    ensures var lines := front + [item] + mid + [hashLine] + tail;
      var k := |ParseLines(front).entries|;
      var before, after := ParseLines(lines).entries, ParseLines(RewriteLines(lines, hashes, today).out).entries;
      && k < |before| == |after|
      && before[k] == Entry(path, Some(ShaOf(hashLine).value.value))
      && after[k] == if AnyOdd(mid) then before[k] else Entry(path, Some(hashes[path]))
  {
    hide PathOf, ShaOf, IsLine, Content, ParseLine, OddItem, Word, RewriteLines, LineKept, InStep, AnyOdd, Between;
    var lines := front + [item] + mid + [hashLine] + tail;
    var start := front + [item] + mid;
    var k := |ParseLines(front).entries|;
    assert forall i | 0 <= i < |mid| :: mid[i] == lines[|front| + 1 + i];
    assert forall i | 0 <= i < |tail| :: tail[i] == lines[|start| + 1 + i];
    assert hashLine == lines[|start|];
    OpenThrough(front, item, path, mid);
    assert (start + [hashLine])[..|start|] == start;
    HashLineCloses(ParseLines(start), Missed(start), hashLine);
    ClosedStays(start + [hashLine], tail, k);
    assert lines == start + [hashLine] + tail;
    InStepThroughout(lines, hashes, today);
  }

  lemma HashLineCloses(s: Parsed, missed: seq<bool>, hashLine: string)
    requires IsLine(hashLine) && ShaOf(hashLine).Some? && s.open && s.entries != [] && |missed| == |s.entries|
    ensures var n := |s.entries| - 1;
      ParseLine(s, Content(hashLine))
      == Parsed(s.entries[n := s.entries[n].(sha := Some(ShaOf(hashLine).value.value))], false)
    ensures NextMissed(s, missed, hashLine) == missed
  {
    hide PathOf, ShaOf, IsLine, Content, OddItem, ParseLine;
    ParseLineIs(s, hashLine);
  }

  /** A file on which the scanners agree has no missed entry. */
  lemma {:induction false} NoneMissed(lines: seq<string>)
    requires !AnyOdd(lines)
    ensures forall k | 0 <= k < |Missed(lines)| :: !Missed(lines)[k]
  {
    hide PathOf, Content, ParseLine, OddItem, ParseLines;
    if lines != [] {
      var n := |lines| - 1;
      assert !AnyOdd(lines[..n]) by {
        assert forall i | 0 <= i < n :: lines[..n][i] == lines[i];
      }
      assert !OddItem(lines[n]);
      NoneMissed(lines[..n]);
    }
  }

  // ---------------------------------------------------------------- when there is nothing to rewrite

  predicate DateIsToday(line: string, today: string) {
    DateOf(line).Some? ==> DateOf(line).value.value == today
  }

  predicate DatesAreToday(lines: seq<string>, today: string) {
    forall i | 0 <= i < |lines| :: DateIsToday(lines[i], today)
  }

  /** Every entry that is not missed and whose file exists records that file's hash, if it has a hash line. */
  predicate AllCurrent(entries: seq<Entry>, missed: seq<bool>, hashes: map<string, string>)
    requires |missed| == |entries|
  {
    forall i | 0 <= i < |entries| ::
      !missed[i] && entries[i].sha.Some? && entries[i].path in hashes ==>
        entries[i].sha.value == hashes[entries[i].path]
  }

  lemma ExchangeSame(a: string, b: string, c: string, x: string)
    ensures a + x + c == a + b + c <==> x == b
  {
    ThreePieces(a, x, c);
    ThreePieces(a, b, c);
    if a + x + c == a + b + c {
      assert |x| == |b|;
    }
  }

  /** When a line is left as it is. */
  lemma LineUnchangedIff(current: Option<string>, line: string, hashes: map<string, string>, today: string)
    requires IsLine(line)
    ensures NewLine(current, line, hashes, today) == line <==>
      && DateIsToday(line, today)
      && (ShaOf(line).Some? && current.Some? && current.value in hashes ==>
            ShaOf(line).value.value == hashes[current.value])
  {
    hide PathOf, ShaOf, DateOf, IsLine, OddItem;
    PatternsDisjoint(line);
    if DateOf(line).Some? {
      DateShape(line);
      var p := DateOf(line).value;
      ExchangeSame(p.prefix, p.value, p.rest, today);
    } else if ShaOf(line).Some? && current.Some? && current.value in hashes {
      ShaShape(line);
      var p := ShaOf(line).value;
      ExchangeSame(p.prefix, p.value, p.rest, hashes[current.value]);
    }
  }

  /** One more line of a file that is current so far. */
  lemma StepCurrent(s: Parsed, missed: seq<bool>, current: Option<string>, line: string,
                    hashes: map<string, string>, today: string)
    requires IsLine(line) && |missed| == |s.entries| && "" !in hashes && InStep(s, missed, current, hashes)
    ensures AllCurrent(s.entries, missed, hashes) && NewLine(current, line, hashes, today) == line <==>
      AllCurrent(ParseLine(s, Content(line)).entries, NextMissed(s, missed, line), hashes) && DateIsToday(line, today)
  {
    hide PathOf, ShaOf, DateOf, IsLine, Content, ParseLine, OddItem, NewLine;
    LineUnchangedIff(current, line, hashes, today);
    ParseLineIs(s, line);
    var t, missed' := ParseLine(s, Content(line)), NextMissed(s, missed, line);
    assert s.open ==> t.entries[..|s.entries| - 1] == s.entries[..|s.entries| - 1];
    CurrentSplit(s.entries, missed, hashes);
    CurrentSplit(t.entries, missed', hashes);
    if PathOf(Content(line)).Some? {
      assert t.entries[..|t.entries| - 1] == s.entries && missed'[..|missed'| - 1] == missed;
    } else if s.open {
      assert missed'[..|missed'| - 1] == missed[..|missed| - 1];
    }
  }

  predicate OneCurrent(e: Entry, missed: bool, hashes: map<string, string>) {
    !missed && e.sha.Some? && e.path in hashes ==> e.sha.value == hashes[e.path]
  }

  lemma CurrentSplit(entries: seq<Entry>, missed: seq<bool>, hashes: map<string, string>)
    requires |missed| == |entries|
    ensures var n := |entries| - 1;
      entries != [] ==> (AllCurrent(entries, missed, hashes) <==>
        AllCurrent(entries[..n], missed[..n], hashes) && OneCurrent(entries[n], missed[n], hashes))
  {}

  /** A rewrite changes no line exactly when every date is today's and every entry records its hash. */
  lemma {:induction false} NothingToRewrite(lines: seq<string>, hashes: map<string, string>, today: string)
    requires (forall i | 0 <= i < |lines| :: IsLine(lines[i])) && WordValues(hashes) && Word(today)
    ensures RewriteLines(lines, hashes, today).out == lines <==>
      DatesAreToday(lines, today) && AllCurrent(ParseLines(lines).entries, Missed(lines), hashes)
  {
    hide PathOf, ShaOf, DateOf, IsLine, Content, NewLine, NextCurrent, LineKept, Word, RewriteLines, ParseLine,
         NextMissed, InStep, AllCurrent, DateIsToday;
    if lines == [] {
      EmptyInStep(hashes, today);
      assert AllCurrent([], [], hashes) by { NothingIsCurrent(hashes); }
    } else {
      var n := |lines| - 1;
      var front, line := lines[..n], lines[n];
      NothingToRewrite(front, hashes, today);
      InStepThroughout(front, hashes, today);
      var r := RewriteLines(front, hashes, today);
      OneMoreLine(lines, hashes, today);
      StepCurrent(ParseLines(front), Missed(front), r.current, line, hashes, today);
      var out := RewriteLines(lines, hashes, today).out;
      assert out == r.out + [NewLine(r.current, line, hashes, today)] && lines == front + [line];
      assert out == lines <==> r.out == front && NewLine(r.current, line, hashes, today) == line;
      assert DatesAreToday(lines, today) <==> DatesAreToday(front, today) && DateIsToday(line, today);
    }
  }

  lemma NothingIsCurrent(hashes: map<string, string>)
    ensures AllCurrent([], [], hashes)
  {}

  // ---------------------------------------------------------------- stored text and decoded text

  lemma {:induction false} DecodeHasNoReturn(raw: string)
    ensures '\r' !in Decode(raw)
    decreases |raw|
  {
    if raw != "" {
      DecodeHasNoReturn(if raw[0] != '\r' || |raw| == 1 || raw[1] != '\n' then raw[1..] else raw[2..]);
    }
  }

  /** Reading gives the stored text if and only if that holds no carriage return. */
  lemma {:induction false} DecodeIsIdentity(raw: string)
    ensures Decode(raw) == raw <==> '\r' !in raw
    decreases |raw|
  {
    DecodeHasNoReturn(raw);
    if raw != "" && raw[0] != '\r' {
      DecodeIsIdentity(raw[1..]);
    }
  }

  lemma WordHasNoReturn(s: string)
    requires Word(s)
    ensures '\r' !in s
  {}

  /** An exchanged value neither brings nor removes a carriage return. */
  lemma ReturnKept(line: string, new_: string, hashes: map<string, string>, today: string)
    requires LineKept(line, new_, hashes, today) && WordValues(hashes) && Word(today)
    ensures '\r' in new_ <==> '\r' in line
  {
    hide DateOf, ShaOf, Word;
    if new_ != line {
      if DateOf(line).Some? && new_ == DateOf(line).value.prefix + today + DateOf(line).value.rest {
        DateShape(line);
        WordHasNoReturn(DateOf(line).value.value);
        WordHasNoReturn(today);
      } else {
        ShaShape(line);
        WordHasNoReturn(ShaOf(line).value.value);
        var p :| p in hashes && new_ == ShaOf(line).value.prefix + hashes[p] + ShaOf(line).value.rest;
        WordHasNoReturn(hashes[p]);
      }
    }
  }

  lemma {:induction false} InJoin(lines: seq<string>, c: char)
    ensures c in Join(lines) <==> exists i | 0 <= i < |lines| :: c in lines[i]
  {
    if lines != [] {
      var rest := lines[1..];
      InJoin(rest, c);
      assert c in Join(lines) <==> c in lines[0] || c in Join(rest);
      if i :| 0 <= i < |rest| && c in rest[i] {
        assert c in lines[i + 1];
      }
      if i :| 0 <= i < |lines| && c in lines[i] {
        assert i > 0 ==> c in rest[i - 1];
      }
    }
  }

  /** Line by line, nothing but hash values and top-level dates is exchanged. */
  ghost predicate OnlyFieldsChanged(before: string, after: string, hashes: map<string, string>, today: string) {
    && |SplitKeep(after)| == |SplitKeep(before)|
    && forall i | 0 <= i < |SplitKeep(before)| ::
         LineKept(SplitKeep(before)[i], SplitKeep(after)[i], hashes, today)
  }

  lemma ReturnsKept(before: string, after: string, hashes: map<string, string>, today: string)
    requires OnlyFieldsChanged(before, after, hashes, today) && WordValues(hashes) && Word(today)
    ensures '\r' in after <==> '\r' in before
  {
    hide LineKept, Word;
    SplitGivesLines(before);
    SplitGivesLines(after);
    var b, a := SplitKeep(before), SplitKeep(after);
    InJoin(b, '\r');
    InJoin(a, '\r');
    forall i | 0 <= i < |b| ensures '\r' in a[i] <==> '\r' in b[i] {
      ReturnKept(b[i], a[i], hashes, today);
    }
  }

  // ---------------------------------------------------------------- regenerating a repository

  lemma HashesAreWords(entries: seq<Entry>, disk: Disk, digest: Digest)
    requires HexDigest(digest)
    ensures WordValues(HashMap(entries, disk, digest))
    ensures forall p | p in HashMap(entries, disk, digest) :: HashMap(entries, disk, digest)[p] != "pending"
  {
    var m := HashMap(entries, disk, digest);
    forall p | p in m ensures Word(m[p]) && m[p] != "pending" {
      assert m[p] == digest(disk.files[disk.resolve(p)]);
    }
  }

  /** A path is reported missing, as often as it is listed and in that order, iff it is there and its file is not. */
  lemma {:induction false} MissingAre(a: seq<Entry>, b: seq<Entry>, e: Entry, disk: Disk)
    ensures MissingPaths(a + b, disk) == MissingPaths(a, disk) + MissingPaths(b, disk)
    ensures MissingPaths([e], disk) == if e.path != "" && disk.resolve(e.path) !in disk.files then [e.path] else []
    decreases |b|
  {
    assert [e][..0] == [];
    if b == [] {
      assert a + b == a;
    } else {
      MissingAre(a, b[..|b| - 1], e, disk);
      assert (a + b)[..|a + b| - 1] == a + b[..|b| - 1];
    }
  }

  /** No listed path is a spelling of the manifest itself. */
  predicate NotSelfListed(entries: seq<Entry>, disk: Disk, location: string) {
    forall e | e in entries :: disk.resolve(e.path) != location
  }

  /** Which entries of a stored manifest are missed by a rewrite. */
  function MissedIn(raw: string): (r: seq<bool>)
    ensures |r| == |Entries(Decode(raw))|
  {
    Missed(SplitKeep(Decode(raw)))
  }

  lemma RegenLines(text: string, disk: Disk, digest: Digest, today: string)
    requires HexDigest(digest) && Word(today)
    ensures var hashes := HashMap(Entries(text), disk, digest);
      var text' := RegenText(text, disk, digest, today);
      var lines := SplitKeep(text);
      && WordValues(hashes)
      && (forall i | 0 <= i < |lines| :: IsLine(lines[i]))
      && SplitKeep(text') == RewriteLines(lines, hashes, today).out
      && Entries(text') == Updated(Entries(text), Missed(lines), hashes)
      && Missed(SplitKeep(text')) == Missed(lines)
      && OnlyFieldsChanged(text, text', hashes, today)
  {
    hide IsLine, Terminated, LineKept, Word, Ink, RewriteLines, ParseLines, PathOf, Content, InStep, Missed;
    var hashes := HashMap(Entries(text), disk, digest);
    HashesAreWords(Entries(text), disk, digest);
    SplitGivesLines(text);
    var lines := SplitKeep(text);
    InStepThroughout(lines, hashes, today);
    var out := RewriteLines(lines, hashes, today).out;
    assert AreLines(out);
    SplitJoin(out);
  }

  /**
   What a rewrite does to any stored manifest: the parser sees the same paths in the same order, the hash of
   every existing file in its hash line unless it is missed, and of the text that was read nothing but hash
   values and top-level dates is exchanged. The new file holds no carriage return.
   */
  lemma RegenEntries(raw: string, disk: Disk, digest: Digest, today: string)
    requires HexDigest(digest) && Word(today)
    ensures var text, text' := Decode(raw), RegenFile(raw, disk, digest, today);
      var hashes := HashMap(Entries(text), disk, digest);
      && Entries(Decode(text')) == Updated(Entries(text), MissedIn(raw), hashes)
      && MissedIn(text') == MissedIn(raw)
      && OnlyFieldsChanged(text, text', hashes, today)
      && '\r' !in text' && Decode(text') == text'
  {
    hide RegenText, Decode, Entries, OnlyFieldsChanged, Missed, HashMap;
    RegenLines(Decode(raw), disk, digest, today);
    DecodeHasNoReturn(raw);
    var text' := RegenFile(raw, disk, digest, today);
    ReturnsKept(Decode(raw), text', HashMap(Entries(Decode(raw)), disk, digest), today);
    DecodeIsIdentity(text');
  }

  /**
   The rest of the stored file stays as it is if and only if the file holds no carriage return: reading turns
   every one into a line feed, and writing does not turn it back.
   */
  lemma RestOfFileKeptIff(raw: string, disk: Disk, digest: Digest, today: string)
    requires HexDigest(digest) && Word(today)
    ensures var hashes := HashMap(Entries(Decode(raw)), disk, digest);
            OnlyFieldsChanged(raw, RegenFile(raw, disk, digest, today), hashes, today) <==> '\r' !in raw
  {
    hide RegenFile, Decode, Entries, OnlyFieldsChanged, HashMap;
    RegenEntries(raw, disk, digest, today);
    DecodeIsIdentity(raw);
    var hashes := HashMap(Entries(Decode(raw)), disk, digest);
    HashesAreWords(Entries(Decode(raw)), disk, digest);
    if OnlyFieldsChanged(raw, RegenFile(raw, disk, digest, today), hashes, today) {
      ReturnsKept(raw, RegenFile(raw, disk, digest, today), hashes, today);
    }
  }

  /** A file of one line that lists nothing: its line end is changed all the same. */
  lemma LineEndIsChanged(disk: Disk, digest: Digest, today: string)
    ensures RegenFile("a\r\n", disk, digest, today) == "a\n"
  {
    hide RewriteLine, HashMap, Entries;
    DecodedLine();
    SplitLine();
    PlainLine();
    var hashes := HashMap(Entries("a\n"), disk, digest);
    UnchangedLine("a\n", hashes, today);
    assert ["a\n"][..0] == [] && ["a\n"][1..] == [];
    assert RewriteLines(["a\n"], hashes, today) == Rewritten(["a\n"], None);
    assert Join(["a\n"]) == "a\n" + Join([]) == "a\n";
  }

  lemma DecodedLine()
    ensures Decode("a\r\n") == "a\n"
  {
    var raw := "a\r\n";
    assert raw[1..] == "\r\n" && "\r\n"[2..] == "";
    assert Decode("\r\n") == "\n" + Decode("");
  }

  lemma SplitLine()
    ensures SplitKeep("a\n") == ["a\n"]
  {
    SplitTerminated("a\n", "");
    assert "a\n" + "" == "a\n" && SplitKeep("") == [];
  }

  lemma UnchangedLine(line: string, hashes: map<string, string>, today: string)
    requires PathOf(line).None? && ShaOf(line).None? && DateOf(line).None?
    ensures RewriteLine(Rewritten([], None), line, hashes, today) == Rewritten([line], None)
  {}

  lemma PlainLine()
    ensures PathOf("a\n").None? && ShaOf("a\n").None? && DateOf("a\n").None?
  {}

  /**
   A check right after the rewrite of a manifest that does not list itself: an entry whose file exists is
   "OK" if it has a hash line and "PENDING" if it has none, unless it was missed, when it fares as before. So
   the check passes if and only if no missed entry had a wrong hash.
   */
  lemma RegenThenCheck(raw: string, disk: Disk, location: string, digest: Digest, today: string)
    requires HexDigest(digest) && Word(today)
    requires location in disk.files && NotSelfListed(Entries(Decode(raw)), disk, location)
    ensures var raw' := RegenFile(raw, disk, digest, today);
      var report := ReportOf(raw', disk.(files := disk.files[location := raw']), digest);
      var es := Entries(Decode(raw));
      && |report.statuses| == |es|
      && (forall i | 0 <= i < |es| ::
            && Entries(Decode(raw'))[i].path == es[i].path
            && report.statuses[i]
               == if es[i].path == "" || !disk.Exists(es[i].path) then Missing
                  else if es[i].sha.None? then Pending
                  else if MissedIn(raw)[i] then StatusOf(es[i], disk, digest) else Good)
      && (report.Passed() <==> forall i | 0 <= i < |es| && MissedIn(raw)[i] && es[i].sha.Some? ::
                                 StatusOf(es[i], disk, digest) != Mismatch)
  {
    hide RegenFile, Decode, Entries, OnlyFieldsChanged, MissedIn;
    RegenEntries(raw, disk, digest, today);
    var es := Entries(Decode(raw));
    var raw' := RegenFile(raw, disk, digest, today);
    var disk' := disk.(files := disk.files[location := raw']);
    var report := ReportOf(raw', disk', digest);
    forall i | 0 <= i < |es|
      ensures Entries(Decode(raw'))[i].path == es[i].path
      ensures report.statuses[i] == StatusAfter(es[i], MissedIn(raw)[i], disk, digest)
    {
      assert es[i] in es;
      EntryAfterRegen(es, i, MissedIn(raw), disk, disk', location, digest);
    }
    assert report.Passed() <==> forall i | 0 <= i < |es| :: report.statuses[i] != Mismatch;
  }

  /** On a manifest whose lines end in line feeds or carriage returns only, the check passes. */
  lemma RegenThenCheckPasses(raw: string, disk: Disk, location: string, digest: Digest, today: string)
    requires HexDigest(digest) && Word(today) && LineFeedsOnly(Decode(raw))
    requires location in disk.files && NotSelfListed(Entries(Decode(raw)), disk, location)
    ensures var raw' := RegenFile(raw, disk, digest, today);
      ReportOf(raw', disk.(files := disk.files[location := raw']), digest).Passed()
    ensures forall k | 0 <= k < |MissedIn(raw)| :: !MissedIn(raw)[k]
  {
    hide RegenFile, Decode, Entries, ReportOf, NotSelfListed, Missed, SplitKeep, OddItem;
    var text := Decode(raw);
    LineFeedsAgree(text);
    AgreeIffNoOddLine(text);
    assert !AnyOdd(SplitKeep(text));
    NoneMissed(SplitKeep(text));
    RegenThenCheck(raw, disk, location, digest, today);
  }

  function StatusAfter(e: Entry, missed: bool, disk: Disk, digest: Digest): Status {
    if e.path == "" || !disk.Exists(e.path) then Missing
    else if e.sha.None? then Pending
    else if missed then StatusOf(e, disk, digest) else Good
  }

  lemma EntryAfterRegen(es: seq<Entry>, i: nat, missed: seq<bool>, disk: Disk, disk': Disk, location: string,
                        digest: Digest)
    requires HexDigest(digest) && i < |es| == |missed| && disk.resolve(es[i].path) != location && location in disk.files
    requires disk'.resolve == disk.resolve && disk'.files.Keys == disk.files.Keys
    requires forall l | l in disk.files && l != location :: disk'.files[l] == disk.files[l]
    ensures var e' := Updated(es, missed, HashMap(es, disk, digest))[i];
      e'.path == es[i].path && StatusOf(e', disk', digest) == StatusAfter(es[i], missed[i], disk, digest)
  {
    HashesAreWords(es, disk, digest);
    assert es[i] in es;
  }

  /** A second rewrite on the same day changes nothing. */
  lemma RegenTwice(raw: string, disk: Disk, location: string, digest: Digest, today: string)
    requires HexDigest(digest) && Word(today)
    requires location in disk.files && NotSelfListed(Entries(Decode(raw)), disk, location)
    ensures var raw' := RegenFile(raw, disk, digest, today);
            RegenFile(raw', disk.(files := disk.files[location := raw']), digest, today) == raw'
  {
    hide LineKept, Word, Ink, PathOf, Content, RewriteLines, ParseLines, IsLine, Terminated, Missed, Decode, InStep,
         HashMap;
    var text := Decode(raw);
    var raw' := RegenFile(raw, disk, digest, today);
    var disk' := disk.(files := disk.files[location := raw']);
    var hashes := HashMap(Entries(text), disk, digest);
    RegenEntries(raw, disk, digest, today);
    RegenLines(text, disk, digest, today);
    forall i | 0 <= i < |Entries(text)| ensures disk.resolve(Entries(text)[i].path) != location {
      assert Entries(text)[i] in Entries(text);
    }
    SameHashes(Entries(text), Entries(raw'), disk, disk', digest);
    RewriteTwice(SplitKeep(text), hashes, today);
    SplitGivesLines(raw');
  }

  /** Only the path of each entry and its file decide the hash map. */
  lemma {:induction false} SameHashes(es: seq<Entry>, es': seq<Entry>, disk: Disk, disk': Disk, digest: Digest)
    requires |es'| == |es|
    requires forall i | 0 <= i < |es| ::
      && es'[i].path == es[i].path
      && disk'.Exists(es[i].path) == disk.Exists(es[i].path)
      && (disk.Exists(es[i].path) ==> disk'.Hash(es[i].path, digest) == disk.Hash(es[i].path, digest))
    ensures HashMap(es', disk', digest) == HashMap(es, disk, digest)
  {
    hide Disk.Exists, Disk.Hash;
    if es != [] {
      SameHashes(es[..|es| - 1], es'[..|es| - 1], disk, disk', digest);
    }
  }

  // ---------------------------------------------------------------- manifests that list themselves

  /** The stored manifest needs no rewrite; all of this can be looked up before one. */
  predicate UpToDate(raw: string, disk: Disk, digest: Digest, today: string) {
    && '\r' !in raw
    && DatesAreToday(SplitKeep(raw), today)
    && AllCurrent(Entries(Decode(raw)), MissedIn(raw), HashMap(Entries(Decode(raw)), disk, digest))
  }

  /** A rewrite leaves the file as it is exactly when it is up to date. */
  lemma RegenChangesNothingIff(raw: string, disk: Disk, digest: Digest, today: string)
    requires HexDigest(digest) && Word(today)
    ensures RegenFile(raw, disk, digest, today) == raw <==> UpToDate(raw, disk, digest, today)
  {
    hide Decode, RewriteLines, ParseLines, Missed, IsLine, DateIsToday, AllCurrent, HashMap, OnlyFieldsChanged, Word,
         HexDigest, LineKept;
    RegenEntries(raw, disk, digest, today);
    DecodeIsIdentity(raw);
    if '\r' !in raw {
      RegenLines(raw, disk, digest, today);
      NothingToRewrite(SplitKeep(raw), HashMap(Entries(raw), disk, digest), today);
      SplitGivesLines(raw);
      SplitGivesLines(RegenFile(raw, disk, digest, today));
    }
  }

  /**
   A manifest that lists itself under a hash line, not missed, records the digest of its old text. Unless
   the old and the new file collide, its own entry checks out after the rewrite if and only if the manifest
   was up to date before.
   */
  lemma SelfListedEntry(raw: string, disk: Disk, location: string, digest: Digest, today: string, i: nat)
    requires HexDigest(digest) && Word(today)
    requires location in disk.files && disk.files[location] == raw
    requires i < |Entries(Decode(raw))| && !MissedIn(raw)[i]
    requires var e := Entries(Decode(raw))[i]; e.path != "" && e.sha.Some? && disk.resolve(e.path) == location
    ensures var raw' := RegenFile(raw, disk, digest, today);
      var report := ReportOf(raw', disk.(files := disk.files[location := raw']), digest);
      && i < |report.statuses|
      && report.statuses[i] == (if digest(raw) == digest(raw') then Good else Mismatch)
      && ((digest(raw) == digest(raw') ==> raw == raw') ==>
            (report.statuses[i] == Good <==> UpToDate(raw, disk, digest, today)))
  {
    hide RegenFile, Decode, Entries, OnlyFieldsChanged, MissedIn, UpToDate;
    RegenEntries(raw, disk, digest, today);
    RegenChangesNothingIff(raw, disk, digest, today);
    var es := Entries(Decode(raw));
    HashesAreWords(es, disk, digest);
    assert es[i] in es;
  }

  // ---------------------------------------------------------------- adding discovered files

  lemma ItemRest(rest: string)
    ensures PathOf("- path:" + rest) == PathValue(rest)
  {
    hide PathKeyEnd, PathOf, PathValue;
    KeyOfItem(rest);
    PathOfKey("- path:" + rest);
  }

  function HashLine(): string {
    "    sha256: pending" + "\n"
  }

  function PathLine(path: string): string {
    "  - path: " + path + "\n"
  }

  function EntryLines(paths: seq<string>): seq<string> {
    if paths == [] then [] else EntryLines(paths[..|paths| - 1]) + [PathLine(paths[|paths| - 1]), HashLine()]
  }

  function Terminate(text: string): string {
    if text != "" && text[|text| - 1] == '\n' then text else text + "\n"
  }

  /** What `discover_domain_pack_docs(add=True)` writes, having read `text`, before it regenerates. */
  function AddEntries(text: string, paths: seq<string>): string {
    Terminate(text) + Join(EntryLines(paths))
  }

  function PendingEntries(paths: seq<string>): seq<Entry> {
    seq(|paths|, i requires 0 <= i < |paths| => Entry(paths[i], Some("pending")))
  }

  /** A path as a file system gives it: something, not padded with white space, and on one line. */
  predicate CleanPath(path: string) {
    && path != "" && !IsSpace(path[0]) && !IsSpace(path[|path| - 1])
    && forall i | 0 <= i < |path| :: !IsBreak(path[i]) && path[i] != '\r'
  }

  lemma PathLineReads(path: string)
    requires CleanPath(path)
    ensures PathOf(Content(PathLine(path))) == PathOf(PathLine(path)) == Some(path)
    ensures IsLine(PathLine(path)) && Terminated(PathLine(path)) && !OddItem(PathLine(path))
  {
    hide PathOf, PathValue, IsSpace, PathKeyEnd;
    var c := "  - path: " + path;
    assert PathLine(path) == c + "\n";
    PathLineHasNoBreak(path);
    LineOf(c);
    OddLinesDisagree(PathLine(path));
    assert c == "  " + ("- path:" + (" " + path));
    IndentedItem("- path:" + (" " + path));
    ItemRest(" " + path);
    CleanPathValue(path);
  }

  lemma PathLineHasNoBreak(path: string)
    requires CleanPath(path)
    ensures var c := "  - path: " + path; forall i | 0 <= i < |c| :: !IsBreak(c[i])
  {
    var c := "  - path: " + path;
    forall i | 0 <= i < |c| ensures !IsBreak(c[i]) {
      if i >= 10 {
        assert c[i] == path[i - 10];
      }
    }
  }

  lemma LineOf(c: string)
    requires forall i | 0 <= i < |c| :: !IsBreak(c[i])
    ensures IsLine(c + "\n") && Terminated(c + "\n") && Content(c + "\n") == c && '\n' !in c
  {
    assert IsBreak('\n');
  }

  lemma IndentedItem(item: string)
    requires item != "" && item[0] == '-'
    ensures PathOf("  " + item) == PathOf(item)
  {
    hide PathAfterDash;
    TwoSpaces(item);
    DropInside("  " + item[..1], item[1..], 3);
    assert "  " + item == "  " + item[..1] + item[1..] && ("  " + item[..1])[3..] + item[1..] == item[1..];
  }

  lemma TwoSpaces(item: string)
    requires item != "" && item[0] == '-'
    ensures SpaceRun(item) == 0 && SpaceRun("  " + item) == 2
  {
    var s := "  " + item;
    assert s[1..] == " " + item && s[1..][1..] == item;
    assert SpaceRun(s[1..]) == 1;
  }

  lemma CleanPathValue(path: string)
    requires CleanPath(path)
    ensures PathValue(" " + path) == Some(path)
  {
    var rest := " " + path;
    assert rest[1..] == path && SpaceRun(path) == 0 && SpaceRun(rest) == 1;
    assert '\n' !in path;
    CutBreak(path, '\n');
    assert StripLeft(path) == path && StripRight(path) == path;
  }

  lemma HashLineReads()
    ensures PathOf(Content(HashLine())) == PathOf(HashLine()) == None
    ensures ShaOf(Content(HashLine())).Some? && ShaOf(Content(HashLine())).value.value == "pending"
    ensures IsLine(HashLine()) && Terminated(HashLine()) && !OddItem(HashLine())
  {
    hide PathOf, ShaOf, OddItem;
    var c := "    sha256: pending";
    assert forall i | 0 <= i < |c| :: !IsBreak(c[i]);
    LineOf(c);
    HashBody();
    ShaContent(HashLine());
    FieldIsNoItem(HashLine());
  }

  lemma HashBody()
    ensures ShaOf("    sha256: pending").Some? && ShaOf("    sha256: pending").value.value == "pending"
  {
    hide ShaOf, SpaceRun;
    PendingIsWord();
    ShaField("    ", "sha256:", "pending");
    assert "    " + "sha256:" + " " + "pending" == "    sha256: pending";
  }

  lemma ShaField(indent: string, key: string, value: string)
    requires indent != "" && (forall i | 0 <= i < |indent| :: IsSpace(indent[i])) && key == "sha256:" && Word(value)
    ensures var line := indent + key + " " + value;
            ShaOf(line).Some? && ShaOf(line).value.value == value
  {
    hide SplitValue, SpaceRun, Ink;
    var line := indent + key + " " + value;
    var tail := key + (" " + value);
    assert line == indent + tail && tail[0] == 's';
    SpaceRunOf(indent, tail);
    assert line[|indent|..] == tail && tail[..7] == key;
    var prefix := indent + key + " ";
    assert line == prefix + value + "";
    ReplaceValue(prefix, |indent| + 7, value, "");
  }

  lemma {:induction false} SpaceRunOf(spaces: string, tail: string)
    requires (forall i | 0 <= i < |spaces| :: IsSpace(spaces[i])) && tail != "" && !IsSpace(tail[0])
    ensures SpaceRun(spaces + tail) == |spaces|
  {
    if spaces == "" {
      assert spaces + tail == tail;
    } else {
      assert (spaces + tail)[1..] == spaces[1..] + tail;
      SpaceRunOf(spaces[1..], tail);
    }
  }

  lemma {:induction false} ParseEntryLines(lines: seq<string>, paths: seq<string>)
    requires forall p | p in paths :: CleanPath(p)
    ensures ParseLines(lines + EntryLines(paths)).entries == ParseLines(lines).entries + PendingEntries(paths)
    ensures Missed(lines + EntryLines(paths)) == Missed(lines) + NoneOf(paths)
  {
    hide ParseLine, ParseLines, Missed, NoneOf, CleanPath, PathLine, HashLine, EntryLines, PendingEntries;
    OneMoreEntry(paths);
    if paths == [] {
      assert lines + EntryLines(paths) == lines;
    } else {
      var n := |paths| - 1;
      var front, p := paths[..n], paths[n];
      ParseEntryLines(lines, front);
      var before := lines + EntryLines(front);
      var all := lines + EntryLines(paths);
      assert all == before + [PathLine(p), HashLine()];
      TwoLines(before, p);
    }
  }

  lemma OneMoreEntry(paths: seq<string>)
    ensures paths == [] ==> EntryLines(paths) == [] && PendingEntries(paths) == []
    ensures paths != [] ==>
      var front, p := paths[..|paths| - 1], paths[|paths| - 1];
      && EntryLines(paths) == EntryLines(front) + [PathLine(p), HashLine()]
      && PendingEntries(paths) == PendingEntries(front) + [Entry(p, Some("pending"))]
      && NoneOf(paths) == NoneOf(front) + [false]
    ensures paths == [] ==> NoneOf(paths) == []
  {
    hide PathLine, HashLine;
  }

  function NoneOf(paths: seq<string>): seq<bool> {
    seq(|paths|, _ => false)
  }

  lemma TwoLines(before: seq<string>, path: string)
    requires CleanPath(path)
    ensures ParseLines(before + [PathLine(path), HashLine()]).entries
         == ParseLines(before).entries + [Entry(path, Some("pending"))]
    ensures Missed(before + [PathLine(path), HashLine()]) == Missed(before) + [false]
  {
    hide PathOf, ShaOf, Content, CleanPath, PathLine, HashLine, OddItem;
    var withPath := before + [PathLine(path)];
    var all := before + [PathLine(path), HashLine()];
    assert all[..|all| - 1] == withPath && withPath[..|withPath| - 1] == before;
    PathLineReads(path);
    HashLineReads();
    PendingIsWord();
    assert ParseLines(withPath) == Parsed(ParseLines(before).entries + [Entry(path, None)], true);
  }

  lemma PendingIsWord()
    ensures Strip("pending") == "pending" && Word("pending")
  {
    assert Ink("pending");
    StripWord("pending");
  }

  predicate TerminatedLines(ls: seq<string>) {
    forall i | 0 <= i < |ls| :: IsLine(ls[i]) && Terminated(ls[i])
  }

  lemma {:induction false} EntryLinesAreLines(paths: seq<string>)
    requires forall p | p in paths :: CleanPath(p)
    ensures TerminatedLines(EntryLines(paths))
  {
    hide CleanPath, PathLine, HashLine, IsLine, Terminated, EntryLines, TerminatedLines, PathOf, ShaOf, Content,
         OddItem;
    OneMoreEntry(paths);
    if paths == [] {
      MoreTerminatedLines([], "", "");
    } else {
      var p := paths[|paths| - 1];
      EntryLinesAreLines(paths[..|paths| - 1]);
      PathLineReads(p);
      HashLineReads();
      MoreTerminatedLines(EntryLines(paths[..|paths| - 1]), PathLine(p), HashLine());
    }
  }

  lemma MoreTerminatedLines(ls: seq<string>, a: string, b: string)
    ensures TerminatedLines([])
    ensures TerminatedLines(ls) && IsLine(a) && IsLine(b) && Terminated(a) && Terminated(b) ==>
              TerminatedLines(ls + [a, b])
  {
    hide IsLine, Terminated;
  }

  lemma {:induction false} JoinConcat(a: seq<string>, b: seq<string>)
    ensures Join(a + b) == Join(a) + Join(b)
  {
    if a == [] {
      assert a + b == b;
    } else {
      assert (a + b)[1..] == a[1..] + b;
      JoinConcat(a[1..], b);
    }
  }

  /** The lines of a text after its last one has been terminated; nothing new is parsed or missed. */
  lemma TerminatedText(text: string) returns (lines: seq<string>)
    ensures AreLines(lines) && Join(lines) == Terminate(text)
    ensures lines != [] && Terminated(lines[|lines| - 1])
    ensures ParseLines(lines).entries == Entries(text) && Missed(lines) == Missed(SplitKeep(text))
  {
    hide IsBreak, ParseLines, AreLines, IsLine, Terminated, Missed, SplitKeep, Join;
    SplitGivesLines(text);
    lines := SplitKeep(text);
    if lines != [] {
      LastCharOf(lines);
      LastIsTerminated(lines);
    } else {
      JoinNothing();
    }
    if lines == [] || Terminated(lines[|lines| - 1]) {
      if lines == [] || Terminate(text) != text {
        ExtraBreak(lines);
        lines := lines + ["\n"];
      }
    } else {
      CompletedLine(lines);
      lines := lines[..|lines| - 1] + [lines[|lines| - 1] + "\n"];
    }
  }

  lemma JoinNothing()
    ensures Join([]) == ""
  {}

  lemma LastIsTerminated(lines: seq<string>)
    requires lines != [] && AreLines(lines) && lines[|lines| - 1] != ""
    ensures lines[|lines| - 1][|lines[|lines| - 1]| - 1] == '\n' ==> Terminated(lines[|lines| - 1])
  {}

  lemma ExtraBreak(lines: seq<string>)
    requires AreLines(lines) && (lines != [] ==> Terminated(lines[|lines| - 1]))
    ensures var r := lines + ["\n"];
      AreLines(r) && Terminated(r[|r| - 1]) && Join(r) == Join(lines) + "\n"
      && ParseLines(r).entries == ParseLines(lines).entries && Missed(r) == Missed(lines)
  {
    hide PathOf, ShaOf, IsBreak, Content, IsLine, Terminated, OddItem;
    NewLineIsLine();
    JoinConcat(lines, ["\n"]);
    assert Join(["\n"]) == "\n" + Join([]) == "\n";
    assert (lines + ["\n"])[..|lines|] == lines;
  }

  lemma CompletedLine(lines: seq<string>)
    requires lines != [] && AreLines(lines) && !Terminated(lines[|lines| - 1])
    ensures var r := lines[..|lines| - 1] + [lines[|lines| - 1] + "\n"];
      AreLines(r) && Terminated(r[|r| - 1]) && Join(r) == Join(lines) + "\n"
      && ParseLines(r).entries == ParseLines(lines).entries && Missed(r) == Missed(lines)
  {
    hide PathOf, ShaOf, ParseLine, PathKeyEnd;
    var n := |lines| - 1;
    var front, last := lines[..n], lines[n];
    assert lines == front + [last];
    JoinConcat(front, [last]);
    JoinConcat(front, [last + "\n"]);
    assert Join([last]) == last + "" && Join([last + "\n"]) == last + "\n" + "";
    assert forall i | 0 <= i < |last| :: !IsBreak(last[i]);
    LineOf(last);
    OddLinesDisagree(last);
    assert Content(last) == last;
    assert (front + [last + "\n"])[..n] == front;
  }

  lemma NewLineIsLine()
    ensures IsBreak('\n') && IsLine("\n") && Terminated("\n") && Content("\n") == ""
    ensures PathOf("").None? && ShaOf("").None? && !OddItem("\n")
  {}

  lemma {:induction false} LastCharOf(lines: seq<string>)
    requires lines != [] && AreLines(lines)
    ensures var t, last := Join(lines), lines[|lines| - 1];
            t != "" && last != "" && t[|t| - 1] == last[|last| - 1]
  {
    if |lines| > 1 {
      assert AreLines(lines[1..]) by {
        assert forall i | 0 <= i < |lines| - 1 :: lines[1..][i] == lines[i + 1];
      }
      LastCharOf(lines[1..]);
    }
  }

  /** Adding files lists exactly them, behind everything that was listed before, each with a pending hash line. */
  lemma AddedEntries(text: string, paths: seq<string>)
    requires forall p | p in paths :: CleanPath(p)
    ensures Entries(AddEntries(text, paths)) == Entries(text) + PendingEntries(paths)
    ensures Missed(SplitKeep(AddEntries(text, paths))) == Missed(SplitKeep(text)) + NoneOf(paths)
    ensures '\r' !in text ==> '\r' !in AddEntries(text, paths)
  {
    hide IsLine, Terminated, PathOf, Content, CleanPath, EntryLines, ParseLines, PendingEntries, SplitKeep, Join,
         Missed, NoneOf;
    var lines := TerminatedText(text);
    var added := EntryLines(paths);
    EntryLinesAreLines(paths);
    JoinConcat(lines, added);
    assert AreLines(lines + added);
    SplitJoin(lines + added);
    ParseEntryLines(lines, paths);
    AddedHaveNoReturn(paths);
  }

  lemma {:induction false} AddedHaveNoReturn(paths: seq<string>)
    requires forall p | p in paths :: CleanPath(p)
    ensures '\r' !in Join(EntryLines(paths))
  {
    hide CleanPath, PathLine, HashLine, Join;
    if paths == [] {
      InJoin([], '\r');
    } else {
      var front, p := paths[..|paths| - 1], paths[|paths| - 1];
      AddedHaveNoReturn(front);
      InJoin(EntryLines(front), '\r');
      InJoin(EntryLines(paths), '\r');
      EntryHasNoReturn(p);
    }
  }

  lemma EntryHasNoReturn(path: string)
    requires CleanPath(path)
    ensures '\r' !in PathLine(path) && '\r' !in HashLine()
  {}

  /** So the rewrite that follows turns every added file that exists into "OK". */
  lemma AddThenRegen(raw: string, paths: seq<string>, disk: Disk, location: string, digest: Digest, today: string)
    requires HexDigest(digest) && Word(today) && forall p | p in paths :: CleanPath(p)
    requires location in disk.files
    requires NotSelfListed(Entries(AddEntries(Decode(raw), paths)), disk, location)
    ensures var raw' := RegenFile(AddEntries(Decode(raw), paths), disk, digest, today);
      var report := ReportOf(raw', disk.(files := disk.files[location := raw']), digest);
      var n := |Entries(Decode(raw))|;
      && |report.statuses| == n + |paths|
      && forall i | 0 <= i < |paths| ::
           && Entries(Decode(raw'))[n + i].path == paths[i]
           && report.statuses[n + i] == if disk.Exists(paths[i]) then Good else Missing
  {
    hide IsLine, Terminated, PathOf, Content, CleanPath, RegenFile, AddEntries, NotSelfListed, StatusOf, Entries,
         Decode, MissedIn, ReportOf;
    var text := AddEntries(Decode(raw), paths);
    AddedAreDecoded(raw, paths);
    RegenThenCheck(text, disk, location, digest, today);
    forall i | 0 <= i < |paths|
      ensures var k := |Entries(Decode(raw))| + i;
        Entries(text)[k] == Entry(paths[i], Some("pending")) && paths[i] != "" && !MissedIn(text)[k]
    {
      AddedAt(raw, paths, i);
    }
  }

  lemma AddedAreDecoded(raw: string, paths: seq<string>)
    requires forall p | p in paths :: CleanPath(p)
    ensures var text := AddEntries(Decode(raw), paths);
      Decode(text) == text && |Entries(text)| == |Entries(Decode(raw))| + |paths|
  {
    hide CleanPath, AddEntries, Entries, Decode, Missed, SplitKeep;
    AddedEntries(Decode(raw), paths);
    DecodeHasNoReturn(raw);
    DecodeIsIdentity(AddEntries(Decode(raw), paths));
  }

  lemma AddedAt(raw: string, paths: seq<string>, i: nat)
    requires (forall p | p in paths :: CleanPath(p)) && i < |paths|
    ensures var text, k := AddEntries(Decode(raw), paths), |Entries(Decode(raw))| + i;
      && k < |Entries(text)| == |Entries(Decode(text))|
      && Entries(text)[k] == Entry(paths[i], Some("pending")) && paths[i] != "" && !MissedIn(text)[k]
  {
    hide CleanPath, AddEntries, Entries, Decode, Missed, SplitKeep;
    AddedAreDecoded(raw, paths);
    AddedEntries(Decode(raw), paths);
    assert paths[i] in paths;
    CleanIsSomething(paths[i]);
  }

  lemma CleanIsSomething(path: string)
    requires CleanPath(path)
    ensures path != ""
  {}
}
