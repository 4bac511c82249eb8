/**
 The three line patterns of the manifest from the outside: the texts they match, and what they read off them.
 */
module ManifestPatterns {
  import opened Text
  import opened Manifest
  import opened ManifestLines
  import opened ManifestLaws

  /** White space of any kind, and of the two kinds that may stand in front of a value. */
  predicate Spaces(s: string) { forall i | 0 <= i < |s| :: IsSpace(s[i]) }

  predicate Blanks(s: string) { s != "" && forall i | 0 <= i < |s| :: s[i] == ' ' || s[i] == '\t' }

  /** A word, and what can stand behind it. */
  predicate Value(value: string, rest: string) {
    Word(value) && (rest == "" || IsSpace(rest[0]))
  }

  lemma SpaceRunIs(spaces: string, tail: string)
    requires Spaces(spaces) && tail != "" && !IsSpace(tail[0])
    ensures SpaceRun(spaces + tail) == |spaces|
  {
    hide IsSpace;
    SpaceRunOf(spaces, tail);
  }

  // ---------------------------------------------------------------- top-level dates

  lemma DateIs(blanks: string, value: string, rest: string)
    requires Blanks(blanks) && Value(value, rest)
    ensures var prefix := "last_updated:" + blanks;
            DateOf(prefix + value + rest) == Some(Parts(prefix, value, rest))
  {
    hide SplitValue, Ink, IsSpace;
    var key := "last_updated:";
    var line := key + blanks + value + rest;
    assert line[..13] == key;
    ReplaceValue(key + blanks, 13, value, rest);
  }

  lemma DateMeans(line: string)
    requires DateOf(line).Some?
    ensures var p := DateOf(line).value;
      && line == p.prefix + p.value + p.rest && Value(p.value, p.rest)
      && |p.prefix| > 13 && p.prefix[..13] == "last_updated:" && Blanks(p.prefix[13..])
  {
    SplitValueShape(line, 13);
  }

  // ---------------------------------------------------------------- hash lines

  lemma ShaIs(indent: string, blanks: string, value: string, rest: string)
    requires indent != "" && Spaces(indent) && Blanks(blanks) && Value(value, rest)
    ensures var prefix := indent + "sha256:" + blanks;
            ShaOf(prefix + value + rest) == Some(Parts(prefix, value, rest))
  {
    hide SplitValue, SpaceRun, Ink, IsSpace, Blanks;
    var key := "sha256:";
    var line, tail := indent + key + blanks + value + rest, key + (blanks + value + rest);
    assert line == indent + tail;
    assert !IsSpace('s') by { NoSpace(); }
    SpaceRunIs(indent, tail);
    assert line[|indent|..] == tail && tail[..7] == key;
    assert forall i | |indent| + 7 <= i < |indent + key + blanks| ::
        (indent + key + blanks)[i] == blanks[i - |indent| - 7];
    AreBlanks(blanks);
    ReplaceValue(indent + key + blanks, |indent| + 7, value, rest);
  }

  lemma AreBlanks(s: string)
    requires Blanks(s)
    ensures s != "" && forall i | 0 <= i < |s| :: s[i] == ' ' || s[i] == '\t'
  {}

  lemma NoSpace()
    ensures !IsSpace('s') && !IsSpace('p') && !IsSpace('-')
  {}

  lemma ShaMeans(line: string)
    requires ShaOf(line).Some?
    ensures var p, n := ShaOf(line).value, SpaceRun(line);
      && line == p.prefix + p.value + p.rest && Value(p.value, p.rest)
      && 0 < n && n + 7 < |p.prefix| && Spaces(p.prefix[..n])
      && p.prefix[n..n + 7] == "sha256:" && Blanks(p.prefix[n + 7..])
  {
    hide SplitValue;
    var p, n := ShaOf(line).value, SpaceRun(line);
    SplitValueShape(line, n + 7);
    assert p.prefix[n..n + 7] == line[n..][..7];
    assert p.prefix[..n] == line[..n];
  }

  // ---------------------------------------------------------------- items

  lemma ItemIs(indent: string, s: string)
    requires |indent| <= 2 && Spaces(indent)
    ensures PathOf(indent + ("-" + s)) == PathAfterDash(s)
  {
    hide SpaceRun, IsSpace, PathAfterDash, Spaces;
    NoSpace();
    var item := "-" + s;
    SpaceRunIs(indent, item);
    TakeDrop(indent, item);
    assert (indent + item)[|indent|] == '-' && (indent + item)[|indent| + 1..] == s;
  }

  lemma DashIs(gap: string, value: string)
    requires gap != "" && Spaces(gap)
    ensures PathAfterDash(gap + ("path:" + value)) == PathValue(value)
  {
    hide SpaceRun, IsSpace, PathValue, Spaces;
    NoSpace();
    var key := "path:" + value;
    SpaceRunIs(gap, key);
    TakeDrop(gap, key);
    assert key[..5] == "path:";
    assert (gap + key)[|gap| + 5..] == value;
  }

  lemma ValueIs(spaces: string, text: string)
    requires spaces != "" && Spaces(spaces) && text != "" && !IsSpace(text[0]) && '\n' !in text
    ensures PathValue(spaces + text) == Some(Strip(text))
  {
    hide SpaceRun, IsSpace, Strip, Spaces, Cut;
    SpaceRunIs(spaces, text);
    TakeDrop(spaces, text);
    CutNothing(text);
  }

  /** An item is up to two white-space characters, a dash, more of them, the key, more of them, and a text. */
  lemma PathIs(indent: string, gap: string, spaces: string, text: string)
    requires |indent| <= 2 && Spaces(indent) && gap != "" && Spaces(gap) && spaces != "" && Spaces(spaces)
    requires text != "" && !IsSpace(text[0]) && '\n' !in text
    ensures PathOf(indent + ("-" + (gap + ("path:" + (spaces + text))))) == Some(Strip(text))
  {
    hide PathOf, PathAfterDash, PathValue, IsSpace, Strip, Spaces;
    ItemIs(indent, gap + ("path:" + (spaces + text)));
    DashIs(gap, spaces + text);
    ValueIs(spaces, text);
  }

  lemma {:induction false} CutNothing(s: string)
    requires '\n' !in s
    ensures Cut(s) == s
  {
    if s != "" {
      assert s == [s[0]] + s[1..];
      CutNothing(s[1..]);
    }
  }

  /** What matches starts with at most two white-space characters and a dash. */
  lemma PathMeans(line: string)
    requires PathOf(line).Some?
    ensures var n := SpaceRun(line); n <= 2 && n < |line| && line[n] == '-' && PathAfterDash(line[n + 1..]).Some?
  {
    hide PathAfterDash;
  }

  /** Behind the dash come more of them, the key, and at least one more. */
  lemma DashMeans(s: string)
    requires PathAfterDash(s).Some?
    ensures var g := SpaceRun(s); 0 < g && g + 5 < |s| && s[g..g + 5] == "path:" && IsSpace(s[g + 5])
  {
    hide IsSpace, PathValue;
    var g := SpaceRun(s);
    KeyAt(s, g);
    ValueMeans(s[g + 5..]);
  }

  lemma KeyAt(s: string, g: nat)
    requires g <= |s| && StartsWith(s[g..], "path:")
    ensures g + 5 <= |s| && s[g..g + 5] == "path:" && (g + 5 < |s| ==> s[g + 5..][0] == s[g + 5])
  {
    assert s[g..][..5] == s[g..g + 5];
  }

  lemma ValueMeans(rest: string)
    requires PathValue(rest).Some?
    ensures rest != "" && IsSpace(rest[0])
  {
    hide IsSpace, Strip, Cut;
  }
}
