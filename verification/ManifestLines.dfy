/**
 The lines of the manifest: splitting and joining them, exchanging a value in one, and on exactly which
 of them the parser and the rewriter disagree.
 */
module ManifestLines {
  import opened Text
  import opened Manifest

  // ---------------------------------------------------------------- splitting and joining lines

  /** A line as `splitlines(keepends=True)` gives it: at most one break, and only at its end. */
  predicate IsLine(line: string) {
    line != "" && forall i | 0 <= i < |line| - 1 :: !IsBreak(line[i])
  }

  predicate Terminated(line: string) {
    line != "" && IsBreak(line[|line| - 1])
  }

  /** Lines of which only the last may lack its break. */
  predicate AreLines(lines: seq<string>) {
    forall i | 0 <= i < |lines| :: IsLine(lines[i]) && (i < |lines| - 1 ==> Terminated(lines[i]))
  }

  lemma {:induction false} SplitGivesLines(text: string)
    ensures AreLines(SplitKeep(text)) && Join(SplitKeep(text)) == text
  {
    if text != "" {
      SplitGivesLines(text[1..]);
      var r, q := SplitKeep(text), SplitKeep(text[1..]);
      assert text == [text[0]] + text[1..];
      if IsBreak(text[0]) {
        assert r == [[text[0]]] + q;
        LineInFront([text[0]], q);
      } else if q != [] {
        assert r == [[text[0]] + q[0]] + q[1..];
        LongerFirstLine(text[0], q);
      }
    }
  }

  lemma LineInFront(line: string, lines: seq<string>)
    requires AreLines(lines) && IsLine(line) && Terminated(line)
    ensures AreLines([line] + lines) && Join([line] + lines) == line + Join(lines)
  {
    hide IsBreak;
    assert ([line] + lines)[1..] == lines;
  }

  lemma LongerFirstLine(c: char, lines: seq<string>)
    requires lines != [] && AreLines(lines) && !IsBreak(c)
    ensures var longer := [[c] + lines[0]] + lines[1..];
      AreLines(longer) && Join(longer) == [c] + Join(lines)
  {
    hide IsBreak, IsLine, Terminated, Join;
    var longer := [[c] + lines[0]] + lines[1..];
    LongerLine(c, lines[0]);
    assert forall i | 1 <= i < |lines| :: longer[i] == lines[i];
    LongerJoin(c, lines);
  }

  lemma LongerLine(c: char, line: string)
    requires IsLine(line) && !IsBreak(c)
    ensures IsLine([c] + line) && (Terminated([c] + line) <==> Terminated(line))
  {
    hide IsBreak;
    assert ([c] + line)[1..] == line;
  }

  lemma LongerJoin(c: char, lines: seq<string>)
    requires lines != []
    ensures Join([[c] + lines[0]] + lines[1..]) == [c] + Join(lines)
  {
    var longer := [[c] + lines[0]] + lines[1..];
    assert longer[1..] == lines[1..];
    assert [c] + lines[0] + Join(lines[1..]) == [c] + (lines[0] + Join(lines[1..]));
  }

  lemma {:induction false} SplitJoin(lines: seq<string>)
    requires AreLines(lines)
    ensures SplitKeep(Join(lines)) == lines
  {
    hide IsLine, Terminated, IsBreak;
    if lines != [] {
      assert AreLines(lines[1..]) by {
        assert forall i | 0 <= i < |lines| - 1 :: lines[1..][i] == lines[i + 1];
      }
      SplitJoin(lines[1..]);
      var tail := Join(lines[1..]);
      if Terminated(lines[0]) {
        SplitTerminated(lines[0], tail);
      } else {
        assert lines[1..] == [] && lines[0] + "" == lines[0];
        SplitUnterminated(lines[0]);
      }
    }
  }

  lemma {:induction false} SplitTerminated(line: string, tail: string)
    requires IsLine(line) && Terminated(line)
    ensures SplitKeep(line + tail) == [line] + SplitKeep(tail)
  {
    assert (line + tail)[1..] == line[1..] + tail;
    if |line| == 1 {
      assert line[1..] + tail == tail && [line[0]] == line;
    } else {
      assert !IsBreak(line[0]);
      assert line[1..][|line| - 2] == line[|line| - 1];
      SplitTerminated(line[1..], tail);
      assert [line[0]] + line[1..] == line;
    }
  }

  lemma {:induction false} SplitUnterminated(line: string)
    requires IsLine(line) && !Terminated(line)
    ensures SplitKeep(line) == [line]
  {
    assert !IsBreak(line[0]);
    if |line| > 1 {
      assert line[1..][|line| - 2] == line[|line| - 1];
      SplitUnterminated(line[1..]);
      assert [line[0]] + line[1..] == line;
    } else {
      assert line[1..] == "" && [line[0]] == line;
    }
  }

  // ---------------------------------------------------------------- one field, rewritten

  /** A field line read at `head`, with the pieces that its pattern promises. */
  lemma SplitValueShape(line: string, head: nat)
    requires head <= |line| && SplitValue(line, head).Some?
    ensures var p := SplitValue(line, head).value;
      && line == p.prefix + p.value + p.rest
      && |p.prefix| > head && p.prefix[..head] == line[..head]
      && (forall i | head <= i < |p.prefix| :: p.prefix[i] == ' ' || p.prefix[i] == '\t')
      && p.value != "" && Ink(p.value)
      && (p.rest == "" || IsSpace(p.rest[0]))
  {
    hide BlankRun, InkRun, Ink, IsSpace;
    BlanksBetween(line, head);
    var b := head + BlankRun(line[head..]);
    InkBetween(line, b);
    CutTwice(line, b, b + InkRun(line[b..]));
    TakeTwice(line, head, b);
  }

  lemma BlanksBetween(line: string, head: nat)
    requires head <= |line|
    ensures forall i | head <= i < head + BlankRun(line[head..]) :: line[i] == ' ' || line[i] == '\t'
  {
    hide BlankRun;
    BlankRunIsBlank(line[head..]);
    assert forall i | head <= i < |line| :: line[head..][i - head] == line[i];
  }

  lemma InkBetween(line: string, b: nat)
    requires b <= |line|
    ensures var e := b + InkRun(line[b..]);
      && Ink(line[b..e]) && line[b..e] == line[b..][..e - b]
      && (e < |line| ==> IsSpace(line[e..][0]))
  {
    hide InkRun, Ink, IsSpace;
    var e := b + InkRun(line[b..]);
    assert line[b..e] == line[b..][..e - b];
    assert e < |line| ==> line[e..][0] == line[b..][e - b];
  }

  lemma {:induction false} BlankRunIsBlank(s: string)
    ensures forall i | 0 <= i < BlankRun(s) :: s[i] == ' ' || s[i] == '\t'
  {
    if s != "" && (s[0] == ' ' || s[0] == '\t') {
      BlankRunIsBlank(s[1..]);
      forall i | 1 <= i < BlankRun(s) ensures s[i] == ' ' || s[i] == '\t' {
        assert s[i] == s[1..][i - 1];
      }
    }
  }

  lemma {:induction false} BlankRunOf(blanks: string, tail: string)
    requires forall i | 0 <= i < |blanks| :: blanks[i] == ' ' || blanks[i] == '\t'
    requires tail != "" && tail[0] != ' ' && tail[0] != '\t'
    ensures BlankRun(blanks + tail) == |blanks|
  {
    if blanks == "" {
      assert blanks + tail == tail;
    } else {
      assert (blanks + tail)[1..] == blanks[1..] + tail;
      BlankRunOf(blanks[1..], tail);
    }
  }

  lemma {:induction false} InkRunOf(ink: string, tail: string)
    requires Ink(ink) && (tail == "" || IsSpace(tail[0]))
    ensures InkRun(ink + tail) == |ink|
  {
    if ink == "" {
      assert ink + tail == tail;
    } else {
      assert (ink + tail)[1..] == ink[1..] + tail;
      InkRunOf(ink[1..], tail);
    }
  }

  /** Putting another word in place of the value leaves a line that reads back as that word. */
  lemma ReplaceValue(prefix: string, head: nat, value: string, rest: string)
    requires head < |prefix| && forall i | head <= i < |prefix| :: prefix[i] == ' ' || prefix[i] == '\t'
    requires value != "" && Ink(value) && (rest == "" || IsSpace(rest[0]))
    ensures SplitValue(prefix + value + rest, head) == Some(Parts(prefix, value, rest))
  {
    hide BlankRun, InkRun;
    ThreePieces(prefix, value, rest);
    DropInside(prefix, value + rest, head);
    FirstIsInk(value, rest);
    BlankRunOf(prefix[head..], value + rest);
    InkRunOf(value, rest);
  }

  lemma FirstIsInk(value: string, rest: string)
    requires value != "" && Ink(value)
    ensures (value + rest)[0] != ' ' && (value + rest)[0] != '\t'
  {
    assert (value + rest)[0] == value[0];
  }

  lemma {:induction false} SpaceRunPrefix(a: string, b: string)
    requires SpaceRun(a) < |a|
    ensures SpaceRun(a + b) == SpaceRun(a)
  {
    if IsSpace(a[0]) {
      assert (a + b)[1..] == a[1..] + b;
      SpaceRunPrefix(a[1..], b);
    }
  }

  /** A rewritten hash line is a hash line with the new value. */
  lemma ShaRewritten(line: string, value: string)
    requires ShaOf(line).Some? && value != "" && Ink(value)
    ensures var p := ShaOf(line).value;
            ShaOf(p.prefix + value + p.rest) == Some(Parts(p.prefix, value, p.rest))
  {
    hide SplitValue, SpaceRun;
    var p := ShaOf(line).value;
    var indent := SpaceRun(line);
    var head := indent + 7;
    SplitValueShape(line, head);
    assert p.prefix[indent] == line[indent] && line[indent] == line[indent..][..7][0];
    var line' := p.prefix + value + p.rest;
    assert line == p.prefix + (p.value + p.rest) && line' == p.prefix + (value + p.rest);
    SpaceRunWithin(line, p.prefix);
    SpaceRunPrefix(p.prefix, value + p.rest);
    assert line'[indent..][..7] == p.prefix[indent..head] == line[indent..][..7];
    ReplaceValue(p.prefix, head, value, p.rest);
  }

  lemma {:induction false} SpaceRunWithin(line: string, prefix: string)
    requires prefix <= line && SpaceRun(line) < |prefix|
    ensures SpaceRun(prefix) == SpaceRun(line)
  {
    if IsSpace(line[0]) {
      SpaceRunWithin(line[1..], prefix[1..]);
    }
  }

  lemma DateRewritten(line: string, value: string)
    requires DateOf(line).Some? && value != "" && Ink(value)
    ensures var p := DateOf(line).value;
            DateOf(p.prefix + value + p.rest) == Some(Parts(p.prefix, value, p.rest))
  {
    var p := DateOf(line).value;
    SplitValueShape(line, 13);
    var line' := p.prefix + value + p.rest;
    assert line'[..13] == p.prefix[..13] == line[..13];
    ReplaceValue(p.prefix, 13, value, p.rest);
  }

  /** The three patterns exclude one another. */
  lemma PatternsDisjoint(line: string)
    ensures DateOf(line).Some? ==> PathOf(line).None? && ShaOf(line).None?
    ensures ShaOf(line).Some? ==> PathOf(line).None? && DateOf(line).None?
  {
    if DateOf(line).Some? {
      assert line[0] == line[..13][0] == 'l';
      assert !IsSpace('l');
    }
    if ShaOf(line).Some? {
      var indent := SpaceRun(line);
      assert line[indent] == line[indent..][..7][0] == 's';
      assert IsSpace(line[0]);
      assert StartsWith(line, "last_updated:") ==> line[..13][0] == line[0];
    }
  }

  // ---------------------------------------------------------------- lines with and without terminator

  lemma {:induction false} SpaceRunAppend(s: string, b: char)
    requires IsSpace(b)
    ensures SpaceRun(s + [b]) == if SpaceRun(s) == |s| then |s| + 1 else SpaceRun(s)
  {
    if s == "" {
      assert s + [b] == [b] && [b][1..] == "";
    } else if IsSpace(s[0]) {
      assert (s + [b])[1..] == s[1..] + [b];
      SpaceRunAppend(s[1..], b);
    }
  }

  lemma {:induction false} BlankRunAppend(s: string, b: char)
    requires b != ' ' && b != '\t'
    ensures BlankRun(s + [b]) == BlankRun(s)
  {
    if s == "" {
      assert s + [b] == [b];
    } else {
      assert (s + [b])[1..] == s[1..] + [b];
      BlankRunAppend(s[1..], b);
    }
  }

  lemma {:induction false} InkRunAppend(s: string, b: char)
    requires IsSpace(b)
    ensures InkRun(s + [b]) == InkRun(s)
  {
    if s == "" {
      assert s + [b] == [b];
    } else {
      assert (s + [b])[1..] == s[1..] + [b];
      InkRunAppend(s[1..], b);
    }
  }

  lemma StartsWithAppend(s: string, b: char, word: string)
    requires word != "" && word[|word| - 1] != b
    ensures StartsWith(s + [b], word) <==> StartsWith(s, word)
  {
    if |word| <= |s| {
      assert (s + [b])[..|word|] == s[..|word|];
    } else if |word| == |s| + 1 {
      assert (s + [b])[..|word|][|word| - 1] == b;
    }
  }

  lemma BreaksAreSpace(b: char)
    requires IsBreak(b)
    ensures IsSpace(b) && b != ' ' && b != '\t'
  {}

  /** A terminator is part of what follows the value. */
  lemma SplitValueAppend(s: string, b: char, head: nat)
    requires head <= |s| && IsBreak(b)
    ensures SplitValue(s + [b], head)
         == match SplitValue(s, head) case None => None case Some(p) => Some(p.(rest := p.rest + [b]))
  {
    hide IsBreak, IsSpace, BlankRun, InkRun, Ink;
    BreaksAreSpace(b);
    DropInside(s, [b], head);
    BlankRunAppend(s[head..], b);
    var e := head + BlankRun(s[head..]);
    TakeInside(s, [b], e);
    DropInside(s, [b], e);
    InkRunAppend(s[e..], b);
    var f := e + InkRun(s[e..]);
    SliceInside(s, [b], e, f);
    DropInside(s, [b], f);
  }

  /** The hash line pattern sees the same value with and without the terminator. */
  lemma ShaContent(line: string)
    requires IsLine(line)
    ensures ShaOf(Content(line)).Some? <==> ShaOf(line).Some?
    ensures ShaOf(line).Some? ==> ShaOf(Content(line)).value.value == ShaOf(line).value.value
  {
    hide SplitValue, IsBreak, SpaceRun;
    if Terminated(line) {
      var s, b := Content(line), line[|line| - 1];
      assert line == s + [b];
      BreaksAreSpace(b);
      SpaceRunAppend(s, b);
      var indent := SpaceRun(s);
      if indent < |s| {
        assert line[indent..] == s[indent..] + [b];
        BreakIsNot(b, ':');
        StartsWithAppend(s[indent..], b, "sha256:");
        if StartsWith(s[indent..], "sha256:") {
          SplitValueAppend(s, b, indent + 7);
        }
      } else {
        assert !StartsWith(s[indent..], "sha256:") && !StartsWith(line[indent + 1..], "sha256:");
      }
    }
  }

  lemma BreakIsNot(b: char, c: char)
    requires IsBreak(b) && c == ':'
    ensures b != c
  {}

  // ---------------------------------------------------------------- where the two scanners disagree

  /** Where the value of an item line starts: behind its dash and its key. */
  function PathKeyEnd(line: string): (k: Option<nat>)
    ensures k.Some? ==> k.value <= |line|
  {
    var indent := SpaceRun(line);
    if indent > 2 || indent == |line| || line[indent] != '-' then None
    else
      match KeyEnd(line[indent + 1..])
      case None => None
      case Some(k) => Some(indent + 1 + k)
  }

  function KeyEnd(s: string): (k: Option<nat>)
    ensures k.Some? ==> k.value <= |s|
  {
    var gap := SpaceRun(s);
    if gap == 0 || !StartsWith(s[gap..], "path:") then None else Some(gap + 5)
  }

  lemma PathOfKeyEnd(s: string)
    ensures PathAfterDash(s) == match KeyEnd(s) case None => None case Some(k) => PathValue(s[k..])
  {}

  lemma PathOfKey(line: string)
    ensures PathOf(line) == match PathKeyEnd(line) case None => None case Some(k) => PathValue(line[k..])
  {
    hide PathValue, PathAfterDash, KeyEnd, SpaceRun;
    var indent := SpaceRun(line);
    if indent <= 2 && indent < |line| && line[indent] == '-' {
      var s := line[indent + 1..];
      PathOfKeyEnd(s);
      if KeyEnd(s).Some? {
        DropTwice(line, indent + 1, KeyEnd(s).value);
      }
    }
  }

  /** A terminator is no part of the key. */
  lemma PathKeyAppend(s: string, b: char)
    requires IsBreak(b)
    ensures PathKeyEnd(s + [b]) == PathKeyEnd(s)
  {
    hide SpaceRun, IsBreak, KeyEnd;
    BreaksAreSpace(b);
    SpaceRunAppend(s, b);
    var indent := SpaceRun(s);
    if indent <= 2 && indent < |s| && s[indent] == '-' {
      DropInside(s, [b], indent + 1);
      KeyEndAppend(s[indent + 1..], b);
    }
  }

  lemma KeyEndAppend(s: string, b: char)
    requires IsBreak(b)
    ensures KeyEnd(s + [b]) == KeyEnd(s)
  {
    hide SpaceRun, IsBreak;
    BreaksAreSpace(b);
    BreakIsNot(b, ':');
    SpaceRunAppend(s, b);
    var gap := SpaceRun(s);
    if gap < |s| {
      DropInside(s, [b], gap);
      StartsWithAppend(s[gap..], b, "path:");
    } else {
      assert !StartsWith(s[gap..], "path:") && !StartsWith((s + [b])[gap + 1..], "path:");
    }
  }

  lemma {:induction false} CutBreak(s: string, b: char)
    requires '\n' !in s
    ensures Cut(s) == s && Cut(s + [b]) == if b == '\n' then s else s + [b]
  {
    if s == "" {
      assert s + [b] == [b] && [b][1..] == "";
    } else {
      assert (s + [b])[1..] == s[1..] + [b];
      CutBreak(s[1..], b);
    }
  }

  lemma {:induction false} StripLeftBreak(s: string, b: char)
    requires IsSpace(b)
    ensures StripLeft(s + [b]) == if StripLeft(s) == "" then "" else StripLeft(s) + [b]
  {
    if s == "" {
      assert s + [b] == [b] && [b][1..] == "";
    } else if IsSpace(s[0]) {
      assert (s + [b])[1..] == s[1..] + [b];
      StripLeftBreak(s[1..], b);
    }
  }

  lemma StripBreak(s: string, b: char)
    requires IsSpace(b)
    ensures Strip(s + [b]) == Strip(s)
  {
    StripLeftBreak(s, b);
    var t := StripLeft(s);
    assert (t + [b])[..|t|] == t;
  }

  /** The value pattern sees a terminator only behind a single white-space character. */
  lemma PathValueBreak(rest: string, b: char)
    requires IsBreak(b) && '\n' !in rest
    ensures var odd := |rest| == 1 && IsSpace(rest[0]) && b != '\n';
      if odd then PathValue(rest + [b]) == Some("") && PathValue(rest) == None
      else PathValue(rest + [b]) == PathValue(rest)
  {
    hide IsBreak, Strip;
    BreaksAreSpace(b);
    SpaceRunAppend(rest, b);
    var n := SpaceRun(rest);
    if 0 < n < |rest| {
      DropInside(rest, [b], n);
      CutBreak(rest[n..], b);
      StripBreak(rest[n..], b);
    } else if |rest| >= 2 {
      assert rest[1] in rest;
    }
  }

  /**
   An item key, one white-space character, and then a line break other than a line feed. `.` matches that
   break, so the rewriter, which reads lines with their ends, sees an item with an empty path; the parser,
   which reads them without, sees none (manifest_integrity.py:41, 66 and 205).
   */
  predicate OddItem(line: string) {
    match PathKeyEnd(line)
    case None => false
    case Some(k) => |line| == k + 2 && IsSpace(line[k]) && IsBreak(line[k + 1]) && line[k + 1] != '\n'
  }

  /** The two scanners read a line differently exactly when it is an odd item. */
  lemma OddLinesDisagree(line: string)
    requires IsLine(line)
    ensures PathOf(Content(line)) != PathOf(line) <==> OddItem(line)
    ensures OddItem(line) ==> PathOf(line) == Some("") && PathOf(Content(line)) == None && Terminated(line)
  {
    hide PathValue, PathKeyEnd, IsBreak, IsSpace, PathOf;
    PathOfKey(line);
    assert OddItem(line) ==> Terminated(line);
    if Terminated(line) {
      var s, b := Content(line), line[|line| - 1];
      assert line == s + [b];
      PathKeyAppend(s, b);
      PathOfKey(s);
      if PathKeyEnd(s).Some? {
        var k := PathKeyEnd(s).value;
        NoLineFeed(line);
        DropInside(s, [b], k);
        assert '\n' !in s[k..] by { DropWithin(s, k); }
        assert |s| > k ==> s[k..][0] == line[k];
        PathValueBreak(s[k..], b);
      }
    }
  }

  lemma NoLineFeed(line: string)
    requires IsLine(line) && Terminated(line)
    ensures '\n' !in Content(line)
  {
    assert IsBreak('\n');
    assert forall i | 0 <= i < |Content(line)| :: Content(line)[i] == line[i];
  }

  lemma DropWithin(s: string, k: nat)
    requires k <= |s|
    ensures forall c | c in s[k..] :: c in s
  {}

  lemma OddItemIsNoField(line: string)
    requires IsLine(line) && OddItem(line)
    ensures DateOf(line).None? && ShaOf(line).None? && ShaOf(Content(line)).None?
  {
    hide PathOf, DateOf, ShaOf, OddItem, Content, IsLine;
    OddLinesDisagree(line);
    PatternsDisjoint(line);
    ShaContent(line);
  }

  lemma KeyOfItem(rest: string)
    ensures PathKeyEnd("- path:" + rest) == Some(7) && ("- path:" + rest)[7..] == rest
  {
    hide KeyEnd;
    var s := "- path:" + rest;
    assert SpaceRun(s) == 0;
    TakeDrop("- path:", rest);
    DropInside("- path:", rest, 1);
    assert "- path:"[1..] == " path:";
    KeyBehindDash(rest);
  }

  lemma KeyBehindDash(rest: string)
    ensures KeyEnd(" path:" + rest) == Some(6)
  {
    var t := " path:" + rest;
    assert t[1..] == "path:" + rest;
    assert SpaceRun(t[1..]) == 0 && SpaceRun(t) == 1;
    TakeDrop("path:", rest);
  }

  /** Every white-space character and every break but the line feed make such a line, a form feed for one. */
  lemma OddItemsExist(w: char, b: char)
    requires IsSpace(w) && !IsBreak(w) && IsBreak(b) && b != '\n'
    ensures IsLine("- path:" + [w, b]) && OddItem("- path:" + [w, b])
    ensures IsBreak('\U{C}')
  {
    hide PathKeyEnd, IsSpace;
    KeyOfItem([w, b]);
    var line, key := "- path:" + [w, b], "- path:";
    assert forall i | 0 <= i < 7 :: line[i] == key[i] && !IsBreak(key[i]);
    assert line[7] == w && line[8] == b;
  }

  /** The two scanners read every line of the text alike. */
  predicate ScannersAgree(text: string) {
    forall i | 0 <= i < |SplitKeep(text)| :: PathOf(Content(SplitKeep(text)[i])) == PathOf(SplitKeep(text)[i])
  }

  lemma AgreeIffNoOddLine(text: string)
    ensures ScannersAgree(text) <==> forall i | 0 <= i < |SplitKeep(text)| :: !OddItem(SplitKeep(text)[i])
  {
    hide PathOf, OddItem, Content;
    SplitGivesLines(text);
    forall i | 0 <= i < |SplitKeep(text)|
      ensures PathOf(Content(SplitKeep(text)[i])) == PathOf(SplitKeep(text)[i]) <==> !OddItem(SplitKeep(text)[i])
    {
      OddLinesDisagree(SplitKeep(text)[i]);
    }
  }

  predicate LineFeedsOnly(text: string) {
    forall i | 0 <= i < |text| :: IsBreak(text[i]) ==> text[i] == '\n'
  }

  /** With ordinary line feeds the two scanners always agree. */
  lemma LineFeedsAgree(text: string)
    requires LineFeedsOnly(text)
    ensures ScannersAgree(text)
  {
    hide PathKeyEnd, IsBreak;
    SplitGivesLines(text);
    AgreeIffNoOddLine(text);
    var lines := SplitKeep(text);
    forall i | 0 <= i < |lines| ensures !OddItem(lines[i]) {
      if OddItem(lines[i]) {
        LineInText(text, i, |lines[i]| - 1);
      }
    }
  }

  lemma {:induction false} LineInText(text: string, i: nat, k: nat)
    requires i < |SplitKeep(text)| && k < |SplitKeep(text)[i]|
    ensures SplitKeep(text)[i][k] in text
  {
    SplitGivesLines(text);
    CharInJoin(SplitKeep(text), i, k);
  }

  lemma {:induction false} CharInJoin(lines: seq<string>, i: nat, k: nat)
    requires i < |lines| && k < |lines[i]|
    ensures lines[i][k] in Join(lines)
  {
    if i == 0 {
      assert Join(lines)[k] == lines[0][k];
    } else {
      CharInJoin(lines[1..], i - 1, k);
    }
  }
}
