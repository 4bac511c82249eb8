/**
 JSON values, the canonical writer `json.dumps(.., sort_keys=True, separators=(",", ":"),
 ensure_ascii=False)` and a reader for what it writes. Strings follow section 7 of RFC 8259.
 */
module Json {
  import opened Text

  /** An object is a Python dictionary: its fields in insertion order. A float is the text it is printed as. */
  datatype Value =
    | Null
    | Bool(b: bool)
    | Num(n: int)
    | Float(text: string)
    | Str(s: string)
    | Arr(items: seq<Value>)
    | Obj(fields: seq<Field>)

  datatype Field = Field(key: string, value: Value)

  /**
   Every value that Python can hold is like this, at any depth: no two fields of an object share a key, and
   a float is printed as a float that reads as the same one again.
   */
  predicate IsPython(v: Value, repr: Repr) {
    match v
    case Float(text) => Printed(text, repr)
    case Arr(items) => forall i | 0 <= i < |items| :: IsPython(items[i], repr)
    case Obj(fields) => DistinctKeys(fields) && forall i | 0 <= i < |fields| :: IsPython(fields[i].value, repr)
    case _ => true
  }

  /** The same for some way of printing floats. */
  predicate WellFormed(v: Value) {
    IsPython(v, Verbatim)
  }

  predicate DistinctKeys(fields: seq<Field>) {
    forall i, j | 0 <= i < j < |fields| :: fields[i].key != fields[j].key
  }

  /**
   Equality of JSON values: dictionaries are compared without regard to order. Python's own equality also
   identifies numbers of different kinds (True with 1, 1 with 1.0), 0.0 with -0.0, and NaN with nothing.
   */
  predicate Same(a: Value, b: Value)
    decreases a
  {
    match a
    case Arr(items) =>
      b.Arr? && |items| == |b.items| && forall i | 0 <= i < |items| :: Same(items[i], b.items[i])
    case Obj(fields) =>
      && b.Obj?
      && (forall i | 0 <= i < |fields| :: SameAsOne(fields[i], b.fields))
      && (forall j | 0 <= j < |b.fields| :: OneSameAs(fields, b.fields[j]))
    case _ => a == b
  }

  predicate SameAsOne(f: Field, gs: seq<Field>)
    decreases f
  {
    exists j | 0 <= j < |gs| :: f.key == gs[j].key && Same(f.value, gs[j].value)
  }

  predicate OneSameAs(fs: seq<Field>, g: Field)
    decreases fs
  {
    exists i | 0 <= i < |fs| :: fs[i].key == g.key && Same(fs[i].value, g.value)
  }

  /** `d.get(key)` */
  function Lookup(fields: seq<Field>, key: string): Option<Value> {
    if fields == [] then None
    else if fields[0].key == key then Some(fields[0].value)
    else Lookup(fields[1..], key)
  }

  // ---------------------------------------------------------------- float literals

  function DigitsEnd(t: string): (n: nat)
    ensures n <= |t| && AllDigits(t[..n])
    ensures n < |t| ==> !IsDigit(t[n])
  {
    if t == "" || !IsDigit(t[0]) then 0
    else
      var n := DigitsEnd(t[1..]);
      assert t[..1 + n] == [t[0]] + t[1..][..n];
      1 + n
  }

  predicate Negative(t: string) { t != "" && t[0] == '-' }

  /** The length of the integer at the start of `t`, 0 if there is none; a leading zero stands alone. */
  function IntEnd(t: string): (n: nat)
    ensures n <= |t|
  {
    var k := if Negative(t) then 1 else 0;
    if k == |t| || !IsDigit(t[k]) then 0
    else if t[k] == '0' then k + 1
    else k + DigitsEnd(t[k..])
  }

  /** The length of the fraction at the start of `t`; a point without a digit is none. */
  function FractionEnd(t: string): (n: nat)
    ensures n <= |t|
  {
    if t != "" && t[0] == '.' && DigitsEnd(t[1..]) > 0 then 1 + DigitsEnd(t[1..]) else 0
  }

  function ExponentEnd(t: string): (n: nat)
    ensures n <= |t|
  {
    if t == "" || t[0] !in {'e', 'E'} then 0
    else
      var k := if |t| > 1 && t[1] in {'+', '-'} then 2 else 1;
      if DigitsEnd(t[k..]) > 0 then k + DigitsEnd(t[k..]) else 0
  }

  /** The length of the numeral at the start of `t`, if there is an integer. */
  function NumeralEnd(t: string): (n: nat)
    ensures IntEnd(t) <= n <= |t|
  {
    var i := IntEnd(t);
    var j := i + FractionEnd(t[i..]);
    j + ExponentEnd(t[j..])
  }

  /** A numeral with a fraction or an exponent. */
  predicate FloatNumeral(s: string) {
    0 < IntEnd(s) < NumeralEnd(s) == |s|
  }

  const NOT_FINITE := {"NaN", "Infinity", "-Infinity"}

  /** A text that a float is printed as: one that is not finite, or a numeral that reads as itself. */
  predicate Printed(text: string, repr: string -> string) {
    text in NOT_FINITE || (FloatNumeral(text) && repr(text) == text)
  }

  /** What `float` and then `repr` make of a float numeral. */
  type Repr = repr: string -> string | ValidRepr(repr) ghost witness Verbatim

  ghost predicate ValidRepr(repr: string -> string) {
    forall s | FloatNumeral(s) :: Printed(repr(s), repr)
  }

  function Verbatim(s: string): string { s }

  // ---------------------------------------------------------------- writing

  /** Order of strings by code points. */
  predicate Before(a: string, b: string) {
    b != "" && (a == "" || a[0] < b[0] || (a[0] == b[0] && Before(a[1..], b[1..])))
  }

  function Insert(f: Field, fields: seq<Field>): seq<Field> {
    if fields != [] && Before(fields[0].key, f.key) then [fields[0]] + Insert(f, fields[1..]) else [f] + fields
  }

  function Sort(fields: seq<Field>): seq<Field> {
    if fields == [] then [] else Insert(fields[0], Sort(fields[1..]))
  }

  /** The value with the fields of every object in key order. */
  function Canon(v: Value): Value {
    match v
    case Arr(items) => Arr(CanonItems(items))
    case Obj(fields) => Obj(Sort(CanonFields(fields)))
    case _ => v
  }

  function CanonItems(items: seq<Value>): (r: seq<Value>)
    ensures |r| == |items|
    ensures forall i | 0 <= i < |items| :: r[i] == Canon(items[i])
  {
    if items == [] then [] else [Canon(items[0])] + CanonItems(items[1..])
  }

  function CanonFields(fields: seq<Field>): (r: seq<Field>)
    ensures |r| == |fields|
    ensures forall i | 0 <= i < |fields| :: r[i] == Field(fields[i].key, Canon(fields[i].value))
  {
    if fields == [] then [] else [Field(fields[0].key, Canon(fields[0].value))] + CanonFields(fields[1..])
  }

  function HexDigit(d: nat): char
    requires d < 16
  {
    "0123456789abcdef"[d]
  }

  function Escape(c: char): string {
    if c == '\"' then "\\\""
    else if c == '\\' then "\\\\"
    else if c == '\n' then "\\n"
    else if c == '\r' then "\\r"
    else if c == '\t' then "\\t"
    else if c == '\U{8}' then "\\b"
    else if c == '\U{C}' then "\\f"
    else if c < ' ' then "\\u00" + [HexDigit(c as int / 16), HexDigit(c as int % 16)]
    else [c]
  }

  function EscapeAll(s: string): string {
    if s == "" then "" else Escape(s[0]) + EscapeAll(s[1..])
  }

  /** Prints a value as it stands. */
  function Render(v: Value): string {
    match v
    case Null => "null"
    case Bool(b) => if b then "true" else "false"
    case Num(n) => IntText(n)
    case Float(text) => text
    case Str(s) => "\"" + EscapeAll(s) + "\""
    case Arr(items) => if items == [] then "[]" else "[" + RenderItems(items)
    case Obj(fields) => if fields == [] then "{}" else "{" + RenderFields(fields)
  }

  /** The elements and the closing bracket. */
  function RenderItems(items: seq<Value>): string
    requires items != []
  {
    Render(items[0]) + if |items| == 1 then "]" else "," + RenderItems(items[1..])
  }

  function RenderFields(fields: seq<Field>): string
    requires fields != []
  {
    RenderField(fields[0]) + if |fields| == 1 then "}" else "," + RenderFields(fields[1..])
  }

  function RenderField(f: Field): string
  {
    "\"" + EscapeAll(f.key) + "\"" + ":" + Render(f.value)
  }

  /** `canonical_json`, and the text that `append_record` writes. */
  function Dumps(v: Value): string {
    Render(Canon(v))
  }

  // ---------------------------------------------------------------- reading

  predicate IsBlank(c: char) { c in {' ', '\t', '\n', '\r'} }

  function Skip(t: string): (r: string)
    ensures |r| <= |t|
  {
    if t != "" && IsBlank(t[0]) then Skip(t[1..]) else t
  }

  function HexValue(c: char): (r: Option<nat>)
    ensures r.Some? ==> r.value < 16
  {
    if '0' <= c <= '9' then Some(c as int - '0' as int)
    else if 'a' <= c <= 'f' then Some(c as int - 'a' as int + 10)
    else if 'A' <= c <= 'F' then Some(c as int - 'A' as int + 10)
    else None
  }

  /** Four hexadecimal digits. */
  function ReadHex4(t: string): (r: Option<nat>)
    requires |t| >= 4
    ensures r.Some? ==> r.value < 0x10000
  {
    match (HexValue(t[0]), HexValue(t[1]), HexValue(t[2]), HexValue(t[3]))
    case (Some(a), Some(b), Some(c), Some(d)) => Some(((a * 16 + b) * 16 + c) * 16 + d)
    case _ => None
  }

  /** The escape after `\u`: one code unit, or two that make a surrogate pair. A lone surrogate is no character here. */
  function ReadUnicode(t: string): (r: Option<(char, string)>)
    ensures r.Some? ==> |r.value.1| < |t|
  {
    if |t| < 4 || ReadHex4(t[..4]).None? then None
    else
      var code := ReadHex4(t[..4]).value;
      if code < 0xD800 || 0xE000 <= code then Some((code as char, t[4..]))
      else if code < 0xDC00 && |t| >= 10 && t[4..6] == "\\u" && ReadHex4(t[6..10]).Some? then
        var low := ReadHex4(t[6..10]).value;
        if 0xDC00 <= low < 0xE000 then Some(((0x10000 + (code - 0xD800) * 0x400 + (low - 0xDC00)) as char, t[10..]))
        else None
      else None
  }

  /** One character of a string body and the text after it. */
  function ReadChar(t: string): (r: Option<(char, string)>)
    requires t != "" && t[0] != '\"'
    ensures r.Some? ==> |r.value.1| < |t|
  {
    if t[0] == '\\' then
      if |t| < 2 then None
      else
        var e, rest := t[1], t[2..];
        if e == '\"' || e == '\\' || e == '/' then Some((e, rest))
        else if e == 'n' then Some(('\n', rest))
        else if e == 'r' then Some(('\r', rest))
        else if e == 't' then Some(('\t', rest))
        else if e == 'b' then Some(('\U{8}', rest))
        else if e == 'f' then Some(('\U{C}', rest))
        else if e == 'u' then ReadUnicode(rest)
        else None
    else if t[0] < ' ' then None
    else Some((t[0], t[1..]))
  }

  /** The rest of a string literal, after its opening quote. */
  function ReadString(t: string): (r: Option<(string, string)>)
    ensures r.Some? ==> |r.value.1| < |t|
    decreases |t|
  {
    if t == "" then None
    else if t[0] == '\"' then Some(("", t[1..]))
    else
      match ReadChar(t)
      case None => None
      case Some((c, rest)) =>
        match ReadString(rest)
        case None => None
        case Some((s, after)) => Some(([c] + s, after))
  }

  /** An integer, or a float if a fraction or an exponent follows. */
  function ReadNumber(t: string, repr: Repr): (r: Option<(Value, string)>)
    ensures r.Some? ==> |r.value.1| < |t|
  {
    var i, n := IntEnd(t), NumeralEnd(t);
    if i == 0 then None
    else if i == n then Some((Num(IntegerOf(t)), t[i..]))
    else Some((Float(repr(t[..n])), t[n..]))
  }

  function IntegerOf(t: string): int
    requires IntEnd(t) > 0
  {
    IntDigits(t);
    var k := if Negative(t) then 1 else 0;
    var m: int := ReadNat(t[k..IntEnd(t)]);
    if Negative(t) then -m else m
  }

  lemma IntDigits(t: string)
    requires IntEnd(t) > 0
    ensures var k := if Negative(t) then 1 else 0;
            k < IntEnd(t) && AllDigits(t[k..IntEnd(t)])
  {
    var k := if Negative(t) then 1 else 0;
    assert t[k..IntEnd(t)] == t[k..][..IntEnd(t) - k];
  }

  /** `d[key] = value`: an existing key keeps its place. */
  function Put(fields: seq<Field>, key: string, v: Value): seq<Field> {
    if fields == [] then [Field(key, v)]
    else if fields[0].key == key then [Field(key, v)] + fields[1..]
    else [fields[0]] + Put(fields[1..], key, v)
  }

  predicate StartsWith(t: string, word: string) {
    |word| <= |t| && t[..|word|] == word
  }

  function ReadValue(text: string, repr: Repr): (r: Option<(Value, string)>)
    ensures r.Some? ==> |r.value.1| < |text|
    decreases |text|, 0
  {
    var t := Skip(text);
    if t == "" then None
    else if t[0] == '\"' then
      match ReadString(t[1..])
      case None => None
      case Some((s, rest)) => Some((Str(s), rest))
    else if t[0] == '[' then
      var u := Skip(t[1..]);
      if u != "" && u[0] == ']' then Some((Arr([]), u[1..])) else ReadItems(t[1..], [], repr)
    else if t[0] == '{' then
      var u := Skip(t[1..]);
      if u != "" && u[0] == '}' then Some((Obj([]), u[1..])) else ReadFields(t[1..], [], repr)
    else if StartsWith(t, "null") then Some((Null, t[4..]))
    else if StartsWith(t, "true") then Some((Bool(true), t[4..]))
    else if StartsWith(t, "false") then Some((Bool(false), t[5..]))
    else if StartsWith(t, "NaN") then Some((Float("NaN"), t[3..]))
    else if StartsWith(t, "Infinity") then Some((Float("Infinity"), t[8..]))
    else if StartsWith(t, "-Infinity") then Some((Float("-Infinity"), t[9..]))
    else ReadNumber(t, repr)
  }

  function ReadItems(text: string, acc: seq<Value>, repr: Repr): (r: Option<(Value, string)>)
    ensures r.Some? ==> |r.value.1| < |text|
    decreases |text|, 1
  {
    match ReadValue(text, repr)
    case None => None
    case Some((v, rest)) =>
      var u := Skip(rest);
      if u == "" then None
      else if u[0] == ',' then ReadItems(u[1..], acc + [v], repr)
      else if u[0] == ']' then Some((Arr(acc + [v]), u[1..]))
      else None
  }

  function ReadFields(text: string, acc: seq<Field>, repr: Repr): (r: Option<(Value, string)>)
    ensures r.Some? ==> |r.value.1| < |text|
    decreases |text|, 1
  {
    match ReadField(text, repr)
    case None => None
    case Some((key, v, rest)) =>
      var u := Skip(rest);
      if u == "" then None
      else if u[0] == ',' then ReadFields(u[1..], Put(acc, key, v), repr)
      else if u[0] == '}' then Some((Obj(Put(acc, key, v)), u[1..]))
      else None
  }

  function ReadField(text: string, repr: Repr): (r: Option<(string, Value, string)>)
    ensures r.Some? ==> |r.value.2| < |text|
    decreases |text|, 0
  {
    var t := Skip(text);
    if t == "" || t[0] != '\"' then None
    else
      match ReadString(t[1..])
      case None => None
      case Some((key, rest)) =>
        var u := Skip(rest);
        if u == "" || u[0] != ':' then None
        else
          match ReadValue(u[1..], repr)
          case None => None
          case Some((v, after)) => Some((key, v, after))
  }

  /** `json.loads`: one value and nothing after it. */
  function Loads(text: string, repr: Repr): Option<Value> {
    match ReadValue(text, repr)
    case None => None
    case Some((v, rest)) => if Skip(rest) == "" then Some(v) else None
  }
}
