/**
 The MANIFEST.yaml parser, checker and in-place rewriter
 (model-packs/system/controllers/manifest_integrity.py). Files are texts as they are stored, and the
 digest of a file is an arbitrary function of its stored text.
 */
module Manifest {
  import opened Text

  // ---------------------------------------------------------------- reading

  /** `read_text`: every carriage return, with the line feed behind it if there is one, becomes a line feed. */
  function Decode(raw: string): string
    decreases |raw|
  {
    if raw == "" then ""
    else if raw[0] != '\r' then [raw[0]] + Decode(raw[1..])
    else "\n" + Decode(if |raw| > 1 && raw[1] == '\n' then raw[2..] else raw[1..])
  }

  // ---------------------------------------------------------------- lines

  /** Where `str.splitlines` ends a line of a decoded text, which holds no carriage return. */
  predicate IsBreak(c: char) {
    c in {'\n', '\U{B}', '\U{C}', '\U{1C}', '\U{1D}', '\U{1E}', '\U{85}', '\U{2028}', '\U{2029}'}
  }

  /** `text.splitlines(keepends=True)` */
  function SplitKeep(text: string): seq<string> {
    if text == "" then []
    else if IsBreak(text[0]) then [[text[0]]] + SplitKeep(text[1..])
    else
      var r := SplitKeep(text[1..]);
      if r == [] then [[text[0]]] else [[text[0]] + r[0]] + r[1..]
  }

  /** A line without its terminator, as plain `splitlines()` gives it. */
  function Content(line: string): string {
    if line != "" && IsBreak(line[|line| - 1]) then line[..|line| - 1] else line
  }

  /** `"".join(lines)` */
  function Join(lines: seq<string>): string {
    if lines == [] then "" else lines[0] + Join(lines[1..])
  }

  // ---------------------------------------------------------------- the three line patterns

  function SpaceRun(s: string): (n: nat)
    ensures n <= |s| && forall i | 0 <= i < n :: IsSpace(s[i])
    ensures n < |s| ==> !IsSpace(s[n])
  {
    if s == "" || !IsSpace(s[0]) then 0 else 1 + SpaceRun(s[1..])
  }

  /** Length of the leading `[ \t]*`. */
  function BlankRun(s: string): (n: nat)
    ensures n <= |s| && forall i | 0 <= i < n :: IsSpace(s[i])
    ensures n < |s| ==> s[n] != ' ' && s[n] != '\t'
  {
    if s == "" || (s[0] != ' ' && s[0] != '\t') then 0 else 1 + BlankRun(s[1..])
  }

  /** Length of the leading `\S*`. */
  function InkRun(s: string): (n: nat)
    ensures n <= |s| && Ink(s[..n])
    ensures n < |s| ==> IsSpace(s[n])
  {
    if s == "" || IsSpace(s[0]) then 0 else
      var n := InkRun(s[1..]);
      assert s[..1 + n] == [s[0]] + s[1..][..n];
      1 + n
  }

  predicate Ink(s: string) {
    forall i | 0 <= i < |s| :: !IsSpace(s[i])
  }

  predicate StartsWith(s: string, word: string) {
    |word| <= |s| && s[..|word|] == word
  }

  /** The text up to the first line feed, which is what `.+` takes. */
  function Cut(s: string): string {
    if s == "" || s[0] == '\n' then "" else [s[0]] + Cut(s[1..])
  }

  /** `_PATH_LINE_RE`, group 1 stripped. */
  function PathOf(line: string): Option<string> {
    var indent := SpaceRun(line);
    if indent > 2 || indent == |line| || line[indent] != '-' then None else PathAfterDash(line[indent + 1..])
  }

  function PathAfterDash(s: string): Option<string> {
    var gap := SpaceRun(s);
    if gap == 0 || !StartsWith(s[gap..], "path:") then None else PathValue(s[gap + 5..])
  }

  /** `\s+(.+)`: when nothing but white space follows the key, the group can still be a blank. */
  function PathValue(rest: string): Option<string> {
    if SpaceRun(rest) == 0 then None
    else if SpaceRun(rest) < |rest| then Some(Strip(Cut(rest[SpaceRun(rest)..])))
    else if |rest| >= 2 && rest[1] != '\n' then Some("")
    else None
  }

  /** A line cut into the part before its value, the value, and what follows it. */
  datatype Parts = Parts(prefix: string, value: string, rest: string)

  /** `[ \t]+(\S+)` behind the first `head` characters. */
  function SplitValue(line: string, head: nat): Option<Parts>
    requires head <= |line|
  {
    var b := head + BlankRun(line[head..]);
    var e := b + InkRun(line[b..]);
    if b == head || e == b then None else Some(Parts(line[..b], line[b..e], line[e..]))
  }

  /** `_SHA256_LINE_RE` */
  function ShaOf(line: string): Option<Parts> {
    var indent := SpaceRun(line);
    if indent == 0 || !StartsWith(line[indent..], "sha256:") then None else SplitValue(line, indent + 7)
  }

  /** `_LAST_UPDATED_TOP_RE` */
  function DateOf(line: string): Option<Parts> {
    if !StartsWith(line, "last_updated:") then None else SplitValue(line, 13)
  }

  // ---------------------------------------------------------------- the parser

  /** An artifact; `sha` is the value of its hash line, if it has one. */
  datatype Entry = Entry(path: string, sha: Option<string>) {
    function Recorded(): string {
      if sha.None? then "pending" else sha.value
    }
  }

  /** The entries so far, and whether the last one still waits for its hash line. */
  datatype Parsed = Parsed(entries: seq<Entry>, open: bool)

  function ParseLine(s: Parsed, line: string): Parsed {
    match PathOf(line)
    case Some(path) => Parsed(s.entries + [Entry(path, None)], true)
    case None =>
      match ShaOf(line)
      case Some(parts) =>
        if s.open && s.entries != [] then
          var n := |s.entries| - 1;
          Parsed(s.entries[n := s.entries[n].(sha := Some(Strip(parts.value)))], false)
        else s
      case None => s
  }

  function ParseLines(lines: seq<string>): Parsed {
    if lines == [] then Parsed([], false)
    else ParseLine(ParseLines(lines[..|lines| - 1]), Content(lines[|lines| - 1]))
  }

  /** `_parse_artifacts` */
  method ParseArtifacts(text: string) returns (entries: seq<Entry>)
    ensures entries == ParseLines(SplitKeep(text)).entries
  {
    hide PathOf, ShaOf, Content;
    var lines := SplitKeep(text);
    var s := Parsed([], false);
    for i := 0 to |lines|
      invariant s == ParseLines(lines[..i])
    {
      assert lines[..i + 1][..i] == lines[..i];
      s := ParseLine(s, Content(lines[i]));
    }
    assert lines[..|lines|] == lines;
    entries := s.entries;
  }

  function Entries(text: string): seq<Entry> {
    ParseLines(SplitKeep(text)).entries
  }

  // ---------------------------------------------------------------- the rewriter

  /** Lines written so far, and the path whose hash line is being looked for. */
  datatype Rewritten = Rewritten(out: seq<string>, current: Option<string>)

  function RewriteLine(s: Rewritten, line: string, hashes: map<string, string>, today: string): Rewritten {
    match DateOf(line)
    case Some(parts) => s.(out := s.out + [parts.prefix + today + parts.rest])
    case None =>
      match PathOf(line)
      case Some(path) => Rewritten(s.out + [line], Some(path))
      case None =>
        match ShaOf(line)
        case Some(parts) =>
          if s.current.Some? && s.current.value in hashes then
            Rewritten(s.out + [parts.prefix + hashes[s.current.value] + parts.rest], None)
          else s.(out := s.out + [line])
        case None => s.(out := s.out + [line])
  }

  function RewriteLines(lines: seq<string>, hashes: map<string, string>, today: string): (r: Rewritten)
    ensures |r.out| == |lines|
  {
    if lines == [] then Rewritten([], None)
    else RewriteLine(RewriteLines(lines[..|lines| - 1], hashes, today), lines[|lines| - 1], hashes, today)
  }

  // ---------------------------------------------------------------- the repository

  datatype Status = Good | Mismatch | Pending | Missing

  /** `check_manifest_report` without the printed lines. */
  datatype Report = Report(statuses: seq<Status>) {
    function Count(s: Status): nat { multiset(statuses)[s] }

    predicate Passed() { Count(Mismatch) == 0 }
  }

  type Digest = string -> string

  /** What is known about SHA-256 hex digests: they are one word, and not the word "pending". */
  ghost predicate HexDigest(digest: Digest) {
    forall t :: digest(t) != "" && Ink(digest(t)) && digest(t) != "pending"
  }

  /** Stored files by location; `resolve` maps a listed path to a location, so spellings may coincide. */
  datatype Disk = Disk(files: map<string, string>, resolve: string -> string) {
    predicate Exists(path: string) { resolve(path) in files }

    function Hash(path: string, digest: Digest): string
      requires Exists(path)
    {
      digest(files[resolve(path)])
    }
  }

  function StatusOf(e: Entry, disk: Disk, digest: Digest): Status {
    if e.path == "" || !disk.Exists(e.path) then Missing
    else if e.Recorded() == "pending" then Pending
    else if e.Recorded() == disk.Hash(e.path, digest) then Good
    else Mismatch
  }

  /** The listed paths whose files exist, with the hashes of those files. */
  function HashMap(entries: seq<Entry>, disk: Disk, digest: Digest): (m: map<string, string>)
    ensures forall p :: p in m <==> p != "" && disk.Exists(p) && exists e | e in entries :: e.path == p
    ensures forall p | p in m :: m[p] == disk.Hash(p, digest)
  {
    if entries == [] then map[]
    else
      var n := |entries| - 1;
      var m := HashMap(entries[..n], disk, digest);
      var p := entries[n].path;
      assert entries == entries[..n] + [entries[n]];
      if p != "" && disk.Exists(p) then m[p := disk.Hash(p, digest)] else m
  }

  /** The new text of a manifest that was read as `text`. */
  function RegenText(text: string, disk: Disk, digest: Digest, today: string): string {
    Join(RewriteLines(SplitKeep(text), HashMap(Entries(text), disk, digest), today).out)
  }

  /** The new manifest file: it is read with `read_text` and written as it then is. */
  function RegenFile(raw: string, disk: Disk, digest: Digest, today: string): string {
    RegenText(Decode(raw), disk, digest, today)
  }

  /** What a check of a manifest file reports. */
  function ReportOf(raw: string, disk: Disk, digest: Digest): (r: Report)
    ensures |r.statuses| == |Entries(Decode(raw))|
  {
    var entries := Entries(Decode(raw));
    Report(seq(|entries|, i requires 0 <= i < |entries| => StatusOf(entries[i], disk, digest)))
  }

  /** A checkout whose manifest is kept at `location`. */
  class Repository {
    var disk: Disk
    const location: string

    constructor (disk: Disk, location: string)
      ensures this.disk == disk && this.location == location
    {
      this.disk, this.location := disk, location;
    }

    /** `check_manifest_report`; reading the manifest is all it demands. */
    method Check(digest: Digest) returns (r: Report)
      requires location in disk.files
      ensures r == ReportOf(disk.files[location], disk, digest)
      ensures r.Passed() <==> Mismatch !in r.statuses
    {
      hide StatusOf, ParseLines, Decode;
      var entries := ParseArtifacts(Decode(disk.files[location]));
      var statuses := [];
      for i := 0 to |entries|
        invariant |statuses| == i
        invariant forall k | 0 <= k < i :: statuses[k] == StatusOf(entries[k], disk, digest)
      {
        statuses := statuses + [StatusOf(entries[i], disk, digest)];
      }
      r := Report(statuses);
    }

    /** `regen_manifest_report`: returns the number of hashes and the missing paths. */
    method Regen(digest: Digest, today: string) returns (updated: nat, missing: seq<string>)
      requires location in disk.files
      modifies this
      ensures var raw := old(disk.files[location]);
        && disk == Disk(old(disk.files)[location := RegenFile(raw, old(disk), digest, today)], old(disk.resolve))
        && updated == |HashMap(Entries(Decode(raw)), old(disk), digest)|
        && missing == MissingPaths(Entries(Decode(raw)), old(disk))
    {
      var text := Decode(disk.files[location]);
      var entries := ParseArtifacts(text);
      var hashes;
      hashes, missing := CollectHashes(entries, disk, digest);
      var out := RewriteText(text, hashes, today);
      disk := disk.(files := disk.files[location := out]);
      updated := |hashes|;
    }
  }

  /** The first loop of `regen_manifest`. */
  method CollectHashes(entries: seq<Entry>, disk: Disk, digest: Digest)
    returns (hashes: map<string, string>, missing: seq<string>)
    ensures hashes == HashMap(entries, disk, digest) && missing == MissingPaths(entries, disk)
  {
    hashes, missing := map[], [];
    for i := 0 to |entries|
      invariant hashes == HashMap(entries[..i], disk, digest)
      invariant missing == MissingPaths(entries[..i], disk)
    {
      ghost var done := entries[..i + 1];
      assert done[..i] == entries[..i] && done[i] == entries[i];
      var p := entries[i].path;
      if p != "" {
        if disk.Exists(p) {
          hashes := hashes[p := disk.Hash(p, digest)];
        } else {
          missing := missing + [p];
        }
      }
    }
    assert entries[..|entries|] == entries;
  }

  /** The second loop of `regen_manifest`. */
  method RewriteText(text: string, hashes: map<string, string>, today: string) returns (r: string)
    ensures r == Join(RewriteLines(SplitKeep(text), hashes, today).out)
  {
    hide RewriteLine;
    var lines := SplitKeep(text);
    var s := Rewritten([], None);
    for i := 0 to |lines|
      invariant s == RewriteLines(lines[..i], hashes, today)
    {
      assert lines[..i + 1][..i] == lines[..i];
      s := RewriteLine(s, lines[i], hashes, today);
    }
    assert lines[..|lines|] == lines;
    r := Join(s.out);
  }

  function MissingPaths(entries: seq<Entry>, disk: Disk): seq<string> {
    if entries == [] then []
    else
      var n := |entries| - 1;
      var p := entries[n].path;
      MissingPaths(entries[..n], disk) + if p != "" && !disk.Exists(p) then [p] else []
  }
}
