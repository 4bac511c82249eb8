/**
 The canonical writer is read back exactly, so it is injective up to the order of keys, and what it
 writes never contains a raw line break.
 */
module JsonLaws {
  import opened Text
  import opened Json

  // ---------------------------------------------------------------- strings

  lemma ReadEscaped(c: char, rest: string)
    ensures Escape(c) != "" && Escape(c)[0] != '\"'
    ensures ReadChar(Escape(c) + rest) == Some((c, rest))
  {
    var t := Escape(c) + rest;
    if c in {'\"', '\\', '\n', '\r', '\t', '\U{8}', '\U{C}'} {
      assert t[2..] == rest;
    } else if c < ' ' {
      var hex := "00" + [HexDigit(c as int / 16), HexDigit(c as int % 16)];
      assert t[2..] == hex + rest;
      assert t[2..][..4] == hex && t[2..][4..] == rest;
      ReadsHexByte(c);
    } else {
      assert t[1..] == rest;
    }
  }

  lemma ReadsHexByte(c: char)
    requires c < ' '
    ensures ReadHex4("00" + [HexDigit(c as int / 16), HexDigit(c as int % 16)]) == Some(c as nat)
  {
    HexRoundTrip(c as int / 16);
    HexRoundTrip(c as int % 16);
  }

  lemma HexRoundTrip(d: nat)
    requires d < 16
    ensures HexValue(HexDigit(d)) == Some(d)
  {}

  lemma {:induction false} ReadQuoted(s: string, rest: string)
    ensures ReadString(EscapeAll(s) + "\"" + rest) == Some((s, rest))
  {
    hide Escape, ReadChar;
    var t := EscapeAll(s) + "\"" + rest;
    if s == "" {
      assert t[1..] == rest;
    } else {
      var tail := EscapeAll(s[1..]) + "\"" + rest;
      assert t == Escape(s[0]) + tail;
      assert s == [s[0]] + s[1..];
      ReadEscaped(s[0], tail);
      assert t[0] == Escape(s[0])[0];
      ReadQuoted(s[1..], rest);
    }
  }

  // ---------------------------------------------------------------- numbers

  /** What may follow a value inside a printed value, or the end of the text. */
  predicate Ends(rest: string) {
    rest == "" || rest[0] == ',' || rest[0] == ']' || rest[0] == '}'
  }

  lemma {:induction false} DigitsEndAppend(s: string, rest: string)
    requires rest == "" || !IsDigit(rest[0])
    ensures DigitsEnd(s + rest) == DigitsEnd(s)
  {
    if s == "" {
      assert s + rest == rest;
    } else {
      assert (s + rest)[1..] == s[1..] + rest;
      DigitsEndAppend(s[1..], rest);
    }
  }

  lemma IntEndAppend(s: string, rest: string)
    requires Ends(rest)
    ensures IntEnd(s + rest) == IntEnd(s)
  {
    hide DigitsEnd;
    var k := if Negative(s) then 1 else 0;
    if k < |s| {
      DropInside(s, rest, k);
      DigitsEndAppend(s[k..], rest);
    }
  }

  lemma FractionEndAppend(s: string, rest: string)
    requires Ends(rest)
    ensures FractionEnd(s + rest) == FractionEnd(s)
  {
    hide DigitsEnd;
    if s == "" {
      assert s + rest == rest;
    } else {
      DropInside(s, rest, 1);
      DigitsEndAppend(s[1..], rest);
    }
  }

  lemma ExponentEndAppend(s: string, rest: string)
    requires Ends(rest)
    ensures ExponentEnd(s + rest) == ExponentEnd(s)
  {
    hide DigitsEnd;
    if s == "" {
      assert s + rest == rest;
    } else {
      var k := if |s| > 1 && s[1] in {'+', '-'} then 2 else 1;
      DropInside(s, rest, k);
      DigitsEndAppend(s[k..], rest);
    }
  }

  lemma NumeralEndAppend(s: string, rest: string)
    requires Ends(rest)
    ensures IntEnd(s + rest) == IntEnd(s) && NumeralEnd(s + rest) == NumeralEnd(s)
  {
    hide IntEnd, FractionEnd, ExponentEnd;
    IntEndAppend(s, rest);
    var i := IntEnd(s);
    DropInside(s, rest, i);
    FractionEndAppend(s[i..], rest);
    var j := i + FractionEnd(s[i..]);
    DropInside(s, rest, j);
    ExponentEndAppend(s[j..], rest);
  }

  lemma {:induction false} DigitsEndCut(t: string, k: nat)
    requires DigitsEnd(t) <= k <= |t|
    ensures DigitsEnd(t[..k]) == DigitsEnd(t)
  {
    if k > 0 && IsDigit(t[0]) {
      assert t[..k][1..] == t[1..][..k - 1];
      DigitsEndCut(t[1..], k - 1);
    }
  }

  lemma IntEndCut(t: string, n: nat)
    requires 0 < IntEnd(t) <= n <= |t|
    ensures IntEnd(t[..n]) == IntEnd(t)
  {
    hide DigitsEnd;
    var k := if Negative(t) then 1 else 0;
    assert t[..n][k..] == t[k..][..n - k];
    if t[k] != '0' {
      DigitsEndCut(t[k..], n - k);
    }
  }

  lemma FractionEndCut(t: string, n: nat)
    requires FractionEnd(t) <= n <= |t|
    ensures FractionEnd(t[..n]) == FractionEnd(t)
  {
    hide DigitsEnd;
    if n > 0 && t[0] == '.' {
      assert t[..n][1..] == t[1..][..n - 1];
      DigitsEndCut(t[1..], n - 1);
    }
  }

  lemma ExponentEndCut(t: string)
    ensures ExponentEnd(t[..ExponentEnd(t)]) == ExponentEnd(t)
  {
    hide DigitsEnd;
    var n := ExponentEnd(t);
    if n > 0 {
      var k := if |t| > 1 && t[1] in {'+', '-'} then 2 else 1;
      assert t[..n][k..] == t[k..][..n - k];
      DigitsEndCut(t[k..], n - k);
    }
  }

  /** What is read as a float is a float numeral. */
  lemma NumeralEndCut(t: string)
    requires 0 < IntEnd(t) < NumeralEnd(t)
    ensures FloatNumeral(t[..NumeralEnd(t)])
  {
    hide IntEnd, FractionEnd, ExponentEnd;
    var i, n := IntEnd(t), NumeralEnd(t);
    var j := i + FractionEnd(t[i..]);
    var s := t[..n];
    IntEndCut(t, n);
    assert s[i..] == t[i..][..n - i] && s[j..] == t[j..][..n - j];
    FractionEndCut(t[i..], n - i);
    ExponentEndCut(t[j..]);
  }

  lemma ReadPrintedNumber(n: int, rest: string, repr: Repr)
    requires Ends(rest)
    ensures ReadNumber(IntText(n) + rest, repr) == Some((Num(n), rest))
  {
    hide DigitsEnd, ReadNat, NumeralEnd, IntEnd;
    var s := IntText(n);
    IntegerText(n);
    NumeralEndAppend(s, rest);
    TakeDrop(s, rest);
    var k := if n < 0 then 1 else 0;
    SliceInside(s, rest, k, |s|);
  }

  lemma IntegerText(n: int)
    ensures var s := IntText(n);
      && 0 < IntEnd(s) == NumeralEnd(s) == |s|
      && (Negative(s) <==> n < 0)
      && s[(if n < 0 then 1 else 0)..] == Decimal(if n < 0 then -n else n)
      && AllDigits(Decimal(if n < 0 then -n else n))
      && ReadNat(Decimal(if n < 0 then -n else n)) == if n < 0 then -n else n
  {
    hide Decimal, ReadNat;
    var m: nat := if n < 0 then -n else n;
    var d := Decimal(m);
    assert IsDigit(d[0]);
    DecimalHead(m);
    ReadDecimal(m);
    assert DigitsEnd(d) == |d|;
    if n < 0 {
      TakeDrop("-", d);
    } else {
      assert d[0..] == d;
    }
    assert FractionEnd("") == 0 && ExponentEnd("") == 0;
  }

  lemma ReadFloatText(text: string, rest: string, repr: Repr)
    requires Printed(text, repr) && Ends(rest)
    ensures ReadValue(text + rest, repr) == Some((Float(text), rest))
  {
    hide ReadItems, ReadFields, ReadString, ReadNumber, DigitsEnd;
    var t := text + rest;
    FloatHead(text);
    SkipInk(t);
    StartsOtherwise(t, "null");
    StartsOtherwise(t, "true");
    StartsOtherwise(t, "false");
    TakeDrop(text, rest);
    if text == "Infinity" || text == "-Infinity" {
      StartsOtherwise(t, "NaN");
    }
    if text == "-Infinity" {
      StartsOtherwise(t, "Infinity");
    }
    if text !in NOT_FINITE {
      NumeralIsNumber(text, rest, repr);
    }
  }

  /** A numeral is none of the words that stand for a value. */
  lemma NumeralIsNumber(text: string, rest: string, repr: Repr)
    requires FloatNumeral(text) && repr(text) == text && Ends(rest)
    ensures var t := text + rest;
      && !StartsWith(t, "NaN") && !StartsWith(t, "Infinity") && !StartsWith(t, "-Infinity")
      && ReadNumber(t, repr) == Some((Float(text), rest))
  {
    hide DigitsEnd, NumeralEnd, IntEnd;
    var t := text + rest;
    NumeralHead(text);
    NumeralEndAppend(text, rest);
    TakeDrop(text, rest);
    StartsOtherwise(t, "NaN");
    StartsOtherwise(t, "Infinity");
    if t[0] == '-' {
      DiffersAt(t, "-Infinity", 1);
    } else {
      StartsOtherwise(t, "-Infinity");
    }
  }

  lemma NumeralHead(s: string)
    requires IntEnd(s) > 0
    ensures s != "" && (IsDigit(s[0]) || (s[0] == '-' && |s| > 1 && IsDigit(s[1])))
  {}

  lemma FloatHead(text: string)
    requires text in NOT_FINITE || FloatNumeral(text)
    ensures text != "" && (IsDigit(text[0]) || text[0] in {'-', 'N', 'I'})
  {
    hide IntEnd, NumeralEnd;
    if FloatNumeral(text) {
      NumeralHead(text);
    }
  }

  // ---------------------------------------------------------------- values

  /** The first character of a printed value says which kind it is, and is never white space. */
  lemma RenderHead(v: Value, repr: Repr)
    requires IsPython(v, repr)
    ensures Render(v) != "" && !IsBlank(Render(v)[0]) && Render(v)[0] != ']'
    ensures Render(v)[0] == '\"' <==> v.Str?
    ensures Render(v)[0] == '[' <==> v.Arr?
    ensures Render(v)[0] == '{' <==> v.Obj?
    ensures v.Num? ==> IsDigit(Render(v)[0]) || (Render(v)[0] == '-' && |Render(v)| > 1 && IsDigit(Render(v)[1]))
  {
    if v.Float? {
      FloatHead(v.text);
    }
    if v.Num? {
      var m: nat := if v.n < 0 then -v.n else v.n;
      assert IsDigit(Decimal(m)[0]);
    }
  }

  lemma SkipInk(t: string)
    requires t == "" || !IsBlank(t[0])
    ensures Skip(t) == t
  {}

  /** Reading a printed value gives the value and leaves the rest. */
  lemma {:induction false} ReadRendered(v: Value, rest: string, repr: Repr)
    requires IsPython(v, repr) && Ends(rest)
    ensures ReadValue(Render(v) + rest, repr) == Some((v, rest))
    decreases v
  {
    hide ReadValue;
    match v {
      case Null => ReadWord(v, rest, repr);
      case Bool(_) => ReadWord(v, rest, repr);
      case Num(n) => NumberIsNumber(n, rest, repr);
      case Float(text) => ReadFloatText(text, rest, repr);
      case Str(s) => ReadText(s, rest, repr);
      case Arr(items) => ReadRenderedArray(items, rest, repr);
      case Obj(fields) => ReadRenderedObject(fields, rest, repr);
    }
  }

  lemma ReadWord(v: Value, rest: string, repr: Repr)
    requires v.Null? || v.Bool?
    ensures ReadValue(Render(v) + rest, repr) == Some((v, rest))
  {
    hide ReadItems, ReadFields, ReadString, ReadNumber;
    var t := Render(v) + rest;
    SkipInk(t);
    TakeDrop(Render(v), rest);
    if v != Null {
      StartsOtherwise(t, "null");
    }
    if v == Bool(false) {
      StartsOtherwise(t, "true");
    }
  }

  lemma ReadText(s: string, rest: string, repr: Repr)
    ensures ReadValue(Render(Str(s)) + rest, repr) == Some((Str(s), rest))
  {
    hide ReadItems, ReadFields, ReadString, ReadNumber;
    var t := Render(Str(s)) + rest;
    SkipInk(t);
    assert t[1..] == EscapeAll(s) + "\"" + rest;
    ReadQuoted(s, rest);
  }

  lemma NumberIsNumber(n: int, rest: string, repr: Repr)
    requires Ends(rest)
    ensures ReadValue(IntText(n) + rest, repr) == Some((Num(n), rest))
  {
    hide ReadItems, ReadFields, ReadString, ReadNumber, Decimal;
    RenderHead(Num(n), repr);
    var t := IntText(n) + rest;
    SkipInk(t);
    ReadPrintedNumber(n, rest, repr);
    StartsOtherwise(t, "null");
    StartsOtherwise(t, "true");
    StartsOtherwise(t, "false");
    StartsOtherwise(t, "NaN");
    StartsOtherwise(t, "Infinity");
    if t[0] == '-' {
      DiffersAt(t, "-Infinity", 1);
    } else {
      StartsOtherwise(t, "-Infinity");
    }
  }

  lemma StartsOtherwise(t: string, word: string)
    requires t != "" && word != "" && t[0] != word[0]
    ensures !StartsWith(t, word)
  {
    DiffersAt(t, word, 0);
  }

  lemma DiffersAt(t: string, word: string, i: nat)
    requires i < |t| && i < |word| && t[i] != word[i]
    ensures !StartsWith(t, word)
  {
    assert |word| <= |t| ==> t[..|word|][i] == t[i];
  }

  lemma {:induction false} ReadRenderedArray(items: seq<Value>, rest: string, repr: Repr)
    requires IsPython(Arr(items), repr) && Ends(rest)
    ensures ReadValue(Render(Arr(items)) + rest, repr) == Some((Arr(items), rest))
    decreases items, 1
  {
    hide ReadItems, ReadFields, ReadString, ReadNumber;
    var t := Render(Arr(items)) + rest;
    SkipInk(t);
    if items == [] {
      assert t[1..] == "]" + rest && t[1..][1..] == rest;
    } else {
      var body := RenderItems(items) + rest;
      assert t[1..] == body;
      RenderHead(items[0], repr);
      assert body[0] == Render(items[0])[0];
      SkipInk(body);
      ReadRenderedItems(items, [], rest, repr);
      assert [] + items == items;
    }
  }

  lemma {:induction false} ReadRenderedItems(items: seq<Value>, acc: seq<Value>, rest: string, repr: Repr)
    requires items != [] && IsPython(Arr(items), repr) && Ends(rest)
    ensures ReadItems(RenderItems(items) + rest, acc, repr) == Some((Arr(acc + items), rest))
    decreases items, 0
  {
    hide ReadValue, ReadFields, Render, RenderItems, IsPython;
    var first, others := items[0], items[1..];
    var tail := AfterItem(items, rest);
    ItemsText(items, rest);
    ItemsOfPython(items, repr);
    ReadRendered(first, tail, repr);
    SkipInk(tail);
    assert acc + [first] + others == acc + items;
    if others == [] {
      assert acc + items == acc + [first];
    } else {
      ReadRenderedItems(others, acc + [first], rest, repr);
    }
  }

  lemma ItemsOfPython(items: seq<Value>, repr: Repr)
    requires items != [] && IsPython(Arr(items), repr)
    ensures IsPython(items[0], repr) && IsPython(Arr(items[1..]), repr)
  {}

  /** What follows the first element in a printed list. */
  function AfterItem(items: seq<Value>, rest: string): (tail: string)
    requires items != []
    ensures tail != "" && Ends(tail) && !IsBlank(tail[0])
  {
    if |items| == 1 then "]" + rest else "," + (RenderItems(items[1..]) + rest)
  }

  lemma ItemsText(items: seq<Value>, rest: string)
    requires items != []
    ensures var tail := AfterItem(items, rest);
      && RenderItems(items) + rest == Render(items[0]) + tail
      && (|items| == 1 ==> tail[0] == ']' && tail[1..] == rest)
      && (|items| != 1 ==> tail[0] == ',' && tail[1..] == RenderItems(items[1..]) + rest)
  {
    hide Render;
    var first := Render(items[0]);
    if |items| == 1 {
      Associative(first, "]", rest);
    } else {
      var others := RenderItems(items[1..]);
      Associative(first, "," + others, rest);
      Associative(",", others, rest);
    }
  }

  lemma {:induction false} ReadRenderedObject(fields: seq<Field>, rest: string, repr: Repr)
    requires IsPython(Obj(fields), repr) && Ends(rest)
    ensures ReadValue(Render(Obj(fields)) + rest, repr) == Some((Obj(fields), rest))
    decreases fields, 1
  {
    hide ReadItems, ReadFields, ReadString, ReadNumber, RenderFields, IsPython, Render;
    assert DistinctKeys([] + fields) && forall i | 0 <= i < |fields| :: IsPython(fields[i].value, repr) by {
      FieldsOfPython(fields, repr);
    }
    ObjectText(fields, rest);
    var t := Render(Obj(fields)) + rest;
    SkipInk(t);
    if fields != [] {
      SkipInk(t[1..]);
      ReadRenderedFields(fields, [], rest, repr);
      assert [] + fields == fields;
    }
  }

  lemma ObjectText(fields: seq<Field>, rest: string)
    ensures var t := Render(Obj(fields)) + rest;
      && t != "" && t[0] == '{'
      && (fields == [] ==> t[1..] == "}" + rest && t[1..][1..] == rest)
      && (fields != [] ==> t[1..] == RenderFields(fields) + rest && t[1..] != "" && t[1..][0] == '\"')
  {
    hide EscapeAll;
    if fields == [] {
      Associative("{", "}", rest);
    } else {
      Associative("{", RenderFields(fields), rest);
      TakeDrop("{", RenderFields(fields) + rest);
      assert RenderFields(fields)[0] == RenderField(fields[0])[0] == '\"';
    }
  }

  lemma FieldsOfPython(fields: seq<Field>, repr: Repr)
    requires IsPython(Obj(fields), repr)
    ensures DistinctKeys([] + fields) && forall i | 0 <= i < |fields| :: IsPython(fields[i].value, repr)
  {
    assert [] + fields == fields;
  }

  lemma {:induction false} PutNew(fields: seq<Field>, key: string, v: Value)
    requires forall f | f in fields :: f.key != key
    ensures Put(fields, key, v) == fields + [Field(key, v)]
  {
    if fields != [] {
      PutNew(fields[1..], key, v);
    }
  }

  lemma {:induction false} ReadRenderedFields(fields: seq<Field>, acc: seq<Field>, rest: string, repr: Repr)
    requires fields != [] && DistinctKeys(acc + fields) && Ends(rest)
    requires forall i | 0 <= i < |fields| :: IsPython(fields[i].value, repr)
    ensures ReadFields(RenderFields(fields) + rest, acc, repr) == Some((Obj(acc + fields), rest))
    decreases fields, 0
  {
    hide ReadValue, ReadItems, ReadField, RenderField, RenderFields, DistinctKeys, Put, IsPython;
    var first, others := fields[0], fields[1..];
    var tail := AfterFirst(fields, rest);
    FieldsText(fields, rest);
    ReadRendered(first.value, tail, repr);
    ReadRenderedField(first, tail, repr);
    SkipInk(tail);
    NewKey(acc, fields);
    PutNew(acc, first.key, first.value);
    assert acc + [first] + others == acc + fields;
    if others == [] {
      assert acc + fields == acc + [first];
    } else {
      ReadRenderedFields(others, acc + [first], rest, repr);
    }
  }

  /** What follows the first field in a printed object. */
  function AfterFirst(fields: seq<Field>, rest: string): (tail: string)
    requires fields != []
    ensures tail != "" && Ends(tail) && !IsBlank(tail[0])
  {
    if |fields| == 1 then "}" + rest else "," + (RenderFields(fields[1..]) + rest)
  }

  lemma FieldsText(fields: seq<Field>, rest: string)
    requires fields != []
    ensures var tail := AfterFirst(fields, rest);
      && RenderFields(fields) + rest == RenderField(fields[0]) + tail
      && (|fields| == 1 ==> tail[0] == '}' && tail[1..] == rest)
      && (|fields| != 1 ==> tail[0] == ',' && tail[1..] == RenderFields(fields[1..]) + rest)
  {
    hide RenderField;
    var first := RenderField(fields[0]);
    if |fields| == 1 {
      Associative(first, "}", rest);
    } else {
      var others := RenderFields(fields[1..]);
      Associative(first, "," + others, rest);
      Associative(",", others, rest);
    }
  }

  lemma NewKey(acc: seq<Field>, fields: seq<Field>)
    requires fields != [] && DistinctKeys(acc + fields)
    ensures forall f | f in acc :: f.key != fields[0].key
  {
    var all := acc + fields;
    forall i | 0 <= i < |acc| ensures acc[i].key != fields[0].key {
      assert all[i].key != all[|acc|].key;
    }
  }

  lemma ReadRenderedField(f: Field, tail: string, repr: Repr)
    requires ReadValue(Render(f.value) + tail, repr) == Some((f.value, tail))
    ensures ReadField(RenderField(f) + tail, repr) == Some((f.key, f.value, tail))
  {
    hide ReadValue, Render, ReadString, EscapeAll;
    var t := RenderField(f) + tail;
    SkipInk(t);
    var u := ":" + (Render(f.value) + tail);
    assert t[1..] == EscapeAll(f.key) + "\"" + u;
    ReadQuoted(f.key, u);
    SkipInk(u);
    assert u[1..] == Render(f.value) + tail;
  }

  // ---------------------------------------------------------------- whatever is read is a Python value

  lemma {:induction false} PutKeepsDistinct(fields: seq<Field>, key: string, v: Value)
    requires DistinctKeys(fields)
    ensures DistinctKeys(Put(fields, key, v))
    ensures forall f :: f in Put(fields, key, v) ==> f == Field(key, v) || f in fields
  {
    if fields != [] && fields[0].key != key {
      var rest := fields[1..];
      PutKeepsDistinct(rest, key, v);
      forall f | f in rest ensures f.key != fields[0].key {
        var i :| 0 <= i < |rest| && rest[i] == f;
        assert fields[i + 1] == f;
      }
    }
  }

  predicate PythonFields(fields: seq<Field>, repr: Repr) {
    DistinctKeys(fields) && forall f | f in fields :: IsPython(f.value, repr)
  }

  lemma PythonFieldsMakeObject(fields: seq<Field>, repr: Repr)
    requires PythonFields(fields, repr)
    ensures IsPython(Obj(fields), repr)
  {}

  lemma PutKeepsPython(fields: seq<Field>, key: string, v: Value, repr: Repr)
    requires PythonFields(fields, repr) && IsPython(v, repr)
    ensures PythonFields(Put(fields, key, v), repr)
  {
    hide IsPython, Put, DistinctKeys;
    PutKeepsDistinct(fields, key, v);
  }

  lemma {:induction false} ReadValuePython(text: string, repr: Repr)
    ensures ReadValue(text, repr).Some? ==> IsPython(ReadValue(text, repr).value.0, repr)
    decreases |text|, 0
  {
    hide ReadString, ReadNumber, ReadItems, ReadFields;
    var t := Skip(text);
    if t != "" && t[0] == '[' {
      ReadItemsPython(t[1..], [], repr);
    } else if t != "" && t[0] == '{' {
      ReadFieldsPython(t[1..], [], repr);
    } else if t != "" && t[0] != '\"' {
      NumbersArePython(t, repr);
    }
  }

  lemma NumbersArePython(t: string, repr: Repr)
    ensures ReadNumber(t, repr).Some? ==> IsPython(ReadNumber(t, repr).value.0, repr)
  {
    hide IntEnd, NumeralEnd;
    if 0 < IntEnd(t) < NumeralEnd(t) {
      NumeralEndCut(t);
    }
  }

  lemma {:induction false} ReadItemsPython(text: string, acc: seq<Value>, repr: Repr)
    requires forall i | 0 <= i < |acc| :: IsPython(acc[i], repr)
    ensures ReadItems(text, acc, repr).Some? ==> IsPython(ReadItems(text, acc, repr).value.0, repr)
    decreases |text|, 1
  {
    hide ReadValue;
    ReadValuePython(text, repr);
    if ReadValue(text, repr).Some? {
      var (v, rest) := ReadValue(text, repr).value;
      var u := Skip(rest);
      if u != "" && u[0] == ',' {
        ReadItemsPython(u[1..], acc + [v], repr);
      }
    }
  }

  lemma {:induction false} ReadFieldsPython(text: string, acc: seq<Field>, repr: Repr)
    requires PythonFields(acc, repr)
    ensures ReadFields(text, acc, repr).Some? ==> IsPython(ReadFields(text, acc, repr).value.0, repr)
    decreases |text|, 1
  {
    hide ReadField, PythonFields, IsPython, Put;
    ReadFieldPython(text, repr);
    if ReadField(text, repr).Some? {
      var (key, v, rest) := ReadField(text, repr).value;
      PutKeepsPython(acc, key, v, repr);
      PythonFieldsMakeObject(Put(acc, key, v), repr);
      var u := Skip(rest);
      if u != "" && u[0] == ',' {
        ReadFieldsPython(u[1..], Put(acc, key, v), repr);
      }
    }
  }

  lemma {:induction false} ReadFieldPython(text: string, repr: Repr)
    ensures ReadField(text, repr).Some? ==> IsPython(ReadField(text, repr).value.1, repr)
    decreases |text|, 0
  {
    hide ReadValue, ReadString, IsPython;
    var t := Skip(text);
    if t != "" && t[0] == '\"' {
      var s := ReadString(t[1..]);
      if s.Some? {
        var u := Skip(s.value.1);
        if u != "" {
          ReadValuePython(u[1..], repr);
        }
      }
    }
  }

  /** A repeated key overwrites, so whatever text is read, the value is one that Python can hold. */
  lemma LoadsPython(text: string, repr: Repr)
    ensures Loads(text, repr).Some? ==> IsPython(Loads(text, repr).value, repr)
  {
    hide ReadValue, IsPython;
    ReadValuePython(text, repr);
  }

  lemma {:induction false} PythonIsWellFormed(v: Value, repr: Repr)
    requires IsPython(v, repr)
    ensures WellFormed(v)
    decreases v
  {
    match v {
      case Arr(items) =>
        forall i | 0 <= i < |items| ensures IsPython(items[i], Verbatim) { PythonIsWellFormed(items[i], repr); }
      case Obj(fields) =>
        forall i | 0 <= i < |fields| ensures IsPython(fields[i].value, Verbatim) {
          PythonIsWellFormed(fields[i].value, repr);
        }
      case _ =>
    }
  }

  // ---------------------------------------------------------------- key order

  lemma {:induction false} BeforeTotal(a: string, b: string)
    ensures a == b || Before(a, b) || Before(b, a)
    ensures !(Before(a, b) && Before(b, a)) && !Before(a, a)
  {
    if a != "" {
      BeforeTotal(a[1..], a[1..]);
      if b != "" {
        BeforeTotal(a[1..], b[1..]);
        if a[0] == b[0] && a[1..] == b[1..] {
          assert a == [a[0]] + a[1..] == b;
        }
      }
    }
  }

  lemma {:induction false} BeforeTransitive(a: string, b: string, c: string)
    requires Before(a, b) && Before(b, c)
    ensures Before(a, c)
  {
    if a != "" && a[0] == b[0] == c[0] {
      BeforeTransitive(a[1..], b[1..], c[1..]);
    }
  }

  ghost predicate Sorted(fields: seq<Field>) {
    forall i, j | 0 <= i < j < |fields| :: Before(fields[i].key, fields[j].key)
  }

  lemma {:induction false} InsertSorted(f: Field, fields: seq<Field>)
    requires Sorted(fields) && forall g | g in fields :: g.key != f.key
    ensures Sorted(Insert(f, fields))
    ensures forall g :: g in Insert(f, fields) <==> g == f || g in fields
  {
    hide Before;
    if fields != [] {
      var first, others := fields[0], fields[1..];
      assert fields == [first] + others;
      BeforeTotal(first.key, f.key);
      if Before(first.key, f.key) {
        InsertSorted(f, others);
        var r := Insert(f, others);
        forall j | 0 <= j < |r| ensures Before(first.key, r[j].key) {
          assert r[j] in r;
        }
      } else {
        forall j | 0 <= j < |fields| ensures Before(f.key, fields[j].key) {
          if j > 0 {
            BeforeTransitive(f.key, first.key, fields[j].key);
          }
        }
      }
    }
  }

  lemma {:induction false} SortSorts(fields: seq<Field>)
    requires DistinctKeys(fields)
    ensures Sorted(Sort(fields))
    ensures forall g :: g in Sort(fields) <==> g in fields
  {
    hide Insert, Before;
    if fields != [] {
      assert fields == [fields[0]] + fields[1..];
      SortSorts(fields[1..]);
      InsertSorted(fields[0], Sort(fields[1..]));
    }
  }

  lemma SortedIsDistinct(fields: seq<Field>)
    requires Sorted(fields)
    ensures DistinctKeys(fields)
  {
    forall i, j | 0 <= i < j < |fields| ensures fields[i].key != fields[j].key {
      BeforeTotal(fields[i].key, fields[j].key);
    }
  }

  /** There is only one sorted sequence with given elements. */
  lemma {:induction false} SortedIsUnique(a: seq<Field>, b: seq<Field>)
    requires Sorted(a) && Sorted(b) && forall g :: g in a <==> g in b
    ensures a == b
  {
    hide Before;
    assert a != [] ==> a[0] in b;
    assert b != [] ==> b[0] in a;
    if a != [] {
      var i :| 0 <= i < |b| && b[i] == a[0];
      var j :| 0 <= j < |a| && a[j] == b[0];
      BeforeTotal(a[0].key, b[0].key);
      assert a[0] == b[0];
      TailMembers(a, b);
      TailMembers(b, a);
      SortedIsUnique(a[1..], b[1..]);
      assert a == [a[0]] + a[1..] && b == [b[0]] + b[1..];
    }
  }

  lemma TailMembers(a: seq<Field>, b: seq<Field>)
    requires Sorted(a) && a != [] && b != [] && a[0] == b[0] && forall g | g in a :: g in b
    ensures forall g | g in a[1..] :: g in b[1..]
  {
    hide Before;
    forall g | g in a[1..] ensures g in b[1..] {
      var i :| 1 <= i < |a| && a[i] == g;
      BeforeTotal(a[0].key, g.key);
      assert g in b && g != b[0];
      assert b == [b[0]] + b[1..];
    }
  }

  // ---------------------------------------------------------------- the canonical form

  lemma {:induction false} CanonIsPython(v: Value, repr: Repr)
    requires IsPython(v, repr)
    ensures IsPython(Canon(v), repr)
    decreases v
  {
    hide Sort;
    match v {
      case Arr(items) =>
        forall i | 0 <= i < |items| ensures IsPython(Canon(items[i]), repr) {
          CanonIsPython(items[i], repr);
        }
      case Obj(fields) =>
        var canon := CanonFields(fields);
        assert DistinctKeys(canon);
        SortSorts(canon);
        var sorted := Sort(canon);
        SortedIsDistinct(sorted);
        forall j | 0 <= j < |sorted| ensures IsPython(sorted[j].value, repr) {
          assert sorted[j] in sorted;
          var i :| 0 <= i < |canon| && canon[i] == sorted[j];
          CanonIsPython(fields[i].value, repr);
        }
      case _ =>
    }
  }

  /** Reading back what was written gives the record with its keys in order. */
  lemma LoadsDumps(v: Value, repr: Repr)
    requires IsPython(v, repr)
    ensures Loads(Dumps(v), repr) == Some(Canon(v))
  {
    hide ReadValue, Render, Canon, IsPython;
    CanonIsPython(v, repr);
    ReadRendered(Canon(v), "", repr);
    assert Render(Canon(v)) + "" == Render(Canon(v));
  }

  ghost predicate OneOf(f: Field, gs: seq<Field>) {
    exists j | 0 <= j < |gs| :: f.key == gs[j].key && Canon(f.value) == Canon(gs[j].value)
  }

  /** Each field of `fs` occurs in `gs`, with the same canonical value. */
  ghost predicate Within(fs: seq<Field>, gs: seq<Field>) {
    forall i | 0 <= i < |fs| :: OneOf(fs[i], gs)
  }

  lemma OneOfMember(f: Field, gs: seq<Field>)
    ensures OneOf(f, gs) <==> Field(f.key, Canon(f.value)) in CanonFields(gs)
  {
    hide CanonFields;
    var cs := CanonFields(gs);
    if OneOf(f, gs) {
      var j :| 0 <= j < |gs| && f.key == gs[j].key && Canon(f.value) == Canon(gs[j].value);
      assert cs[j] == Field(f.key, Canon(f.value));
    }
    if Field(f.key, Canon(f.value)) in cs {
      var j :| 0 <= j < |cs| && cs[j] == Field(f.key, Canon(f.value));
      assert f.key == gs[j].key && Canon(f.value) == Canon(gs[j].value);
    }
  }

  lemma WithinMembers(fs: seq<Field>, gs: seq<Field>)
    ensures Within(fs, gs) <==> forall g | g in CanonFields(fs) :: g in CanonFields(gs)
  {
    hide CanonFields, OneOf, Canon;
    forall i | 0 <= i < |fs| ensures OneOf(fs[i], gs) <==> CanonFields(fs)[i] in CanonFields(gs) {
      OneOfMember(fs[i], gs);
    }
  }

  /** Dictionaries match both ways exactly when their sorted canonical fields are the same. */
  lemma WithinIffSorted(fs: seq<Field>, gs: seq<Field>)
    requires DistinctKeys(fs) && DistinctKeys(gs)
    ensures Within(fs, gs) && Within(gs, fs) <==> Sort(CanonFields(fs)) == Sort(CanonFields(gs))
  {
    hide Sort, Canon, Within;
    WithinMembers(fs, gs);
    WithinMembers(gs, fs);
    SortSorts(CanonFields(fs));
    SortSorts(CanonFields(gs));
    if Within(fs, gs) && Within(gs, fs) {
      SortedIsUnique(Sort(CanonFields(fs)), Sort(CanonFields(gs)));
    }
  }

  lemma SameObjects(fs: seq<Field>, gs: seq<Field>)
    requires forall i, j | 0 <= i < |fs| && 0 <= j < |gs| ::
               Same(fs[i].value, gs[j].value) <==> Canon(fs[i].value) == Canon(gs[j].value)
    ensures Same(Obj(fs), Obj(gs)) <==> Within(fs, gs) && Within(gs, fs)
  {
    forall i | 0 <= i < |fs| ensures SameAsOne(fs[i], gs) <==> OneOf(fs[i], gs) {
      hide Canon;
    }
    forall j | 0 <= j < |gs| ensures OneSameAs(fs, gs[j]) <==> OneOf(gs[j], fs) {
      hide Canon;
    }
    hide Canon, OneOf, SameAsOne, OneSameAs;
  }

  /** Values are equal exactly when their canonical forms are identical. */
  lemma {:induction false} SameIffCanon(a: Value, b: Value, repr: Repr)
    requires IsPython(a, repr) && IsPython(b, repr)
    ensures Same(a, b) <==> Canon(a) == Canon(b)
    decreases a
  {
    hide Sort, Within;
    match a {
      case Arr(items) =>
        if b.Arr? && |items| == |b.items| {
          SameArrays(items, b.items, repr);
        }
      case Obj(fields) =>
        if b.Obj? {
          forall i, j | 0 <= i < |fields| && 0 <= j < |b.fields|
            ensures Same(fields[i].value, b.fields[j].value)
                    <==> Canon(fields[i].value) == Canon(b.fields[j].value)
          {
            SameIffCanon(fields[i].value, b.fields[j].value, repr);
          }
          SameObjects(fields, b.fields);
          WithinIffSorted(fields, b.fields);
        }
      case _ =>
    }
  }

  lemma {:induction false} SameArrays(xs: seq<Value>, ys: seq<Value>, repr: Repr)
    requires IsPython(Arr(xs), repr) && IsPython(Arr(ys), repr) && |xs| == |ys|
    ensures Same(Arr(xs), Arr(ys)) <==> CanonItems(xs) == CanonItems(ys)
    decreases xs
  {
    forall i | 0 <= i < |xs| ensures Same(xs[i], ys[i]) <==> CanonItems(xs)[i] == CanonItems(ys)[i] {
      SameIffCanon(xs[i], ys[i], repr);
    }
  }

  /** Two records are written alike exactly when they are equal as JSON values. */
  lemma DumpsInjective(a: Value, b: Value)
    requires WellFormed(a) && WellFormed(b)
    ensures Dumps(a) == Dumps(b) <==> Same(a, b)
  {
    hide Same, IsPython, Canon, Render;
    SameIffCanon(a, b, Verbatim);
    LoadsDumps(a, Verbatim);
    LoadsDumps(b, Verbatim);
  }

  /** The loaded record equals the written one, whatever order its keys were inserted in. */
  lemma LoadedIsSame(v: Value, repr: Repr)
    requires IsPython(v, repr)
    ensures Loads(Dumps(v), repr).Some? && IsPython(Loads(Dumps(v), repr).value, repr)
    ensures Same(Loads(Dumps(v), repr).value, v) && Dumps(Loads(Dumps(v), repr).value) == Dumps(v)
  {
    hide Same, IsPython, Render, Canon;
    LoadsDumps(v, repr);
    CanonIsPython(v, repr);
    CanonTwice(v, repr);
    SameIffCanon(Canon(v), v, repr);
  }

  lemma {:induction false} CanonTwice(v: Value, repr: Repr)
    requires IsPython(v, repr)
    ensures Canon(Canon(v)) == Canon(v)
    decreases v
  {
    hide Sort;
    match v {
      case Arr(items) =>
        forall i | 0 <= i < |items| ensures Canon(Canon(items[i])) == Canon(items[i]) {
          CanonTwice(items[i], repr);
        }
        assert CanonItems(CanonItems(items)) == CanonItems(items);
      case Obj(fields) =>
        var canon := CanonFields(fields);
        assert DistinctKeys(canon);
        SortSorts(canon);
        var sorted := Sort(canon);
        forall j | 0 <= j < |sorted| ensures Canon(sorted[j].value) == sorted[j].value {
          assert sorted[j] in sorted;
          var i :| 0 <= i < |canon| && canon[i] == sorted[j];
          CanonTwice(fields[i].value, repr);
        }
        assert CanonFields(sorted) == sorted;
        SortedIsDistinct(sorted);
        SortSorts(sorted);
        SortedIsUnique(Sort(sorted), sorted);
      case _ =>
    }
  }

  // ---------------------------------------------------------------- line breaks

  /** No character below the blank, so in particular no line feed and no carriage return. */
  predicate OneLine(s: string) {
    forall c | c in s :: c >= ' '
  }

  lemma {:induction false} EscapedIsOneLine(s: string)
    ensures OneLine(EscapeAll(s))
  {
    hide Escape;
    if s != "" {
      EscapedCharIsOneLine(s[0]);
      EscapedIsOneLine(s[1..]);
    }
  }

  lemma EscapedCharIsOneLine(c: char)
    ensures OneLine(Escape(c))
  {}

  lemma {:induction false} RenderIsOneLine(v: Value, repr: Repr)
    requires IsPython(v, repr)
    ensures OneLine(Render(v))
    decreases v
  {
    match v {
      case Float(text) => FloatIsOneLine(text);
      case Num(n) =>
        assert forall c | IsDigit(c) :: c >= ' ';
      case Str(s) => EscapedIsOneLine(s);
      case Arr(items) => if items != [] { ItemsAreOneLine(items, repr); }
      case Obj(fields) => if fields != [] { FieldsAreOneLine(fields, repr); }
      case _ =>
    }
  }

  /** A float is printed with digits, letters, signs and a point. */
  lemma FloatIsOneLine(text: string)
    requires text in NOT_FINITE || FloatNumeral(text)
    ensures OneLine(text)
  {
    hide DigitsEnd, NumeralEnd, IntEnd;
    if text !in NOT_FINITE {
      hide OneLine;
      NumeralIsOneLine(text);
      assert text[..NumeralEnd(text)] == text;
    }
  }

  lemma NumeralIsOneLine(t: string)
    ensures OneLine(t[..NumeralEnd(t)])
  {
    hide IntEnd, FractionEnd, ExponentEnd;
    var i := IntEnd(t);
    var j := i + FractionEnd(t[i..]);
    var n := NumeralEnd(t);
    IntIsOneLine(t);
    FractionIsOneLine(t[i..]);
    ExponentIsOneLine(t[j..]);
    assert t[..n] == t[..i] + t[i..][..j - i] + t[j..][..n - j];
  }

  lemma DigitsAreOneLine(s: string)
    requires AllDigits(s)
    ensures OneLine(s)
  {
    assert forall c | IsDigit(c) :: c >= ' ';
  }

  lemma IntIsOneLine(t: string)
    ensures OneLine(t[..IntEnd(t)])
  {
    hide DigitsEnd;
    if IntEnd(t) > 0 {
      var k := if Negative(t) then 1 else 0;
      IntDigits(t);
      DigitsAreOneLine(t[k..IntEnd(t)]);
      assert t[..IntEnd(t)] == t[..k] + t[k..IntEnd(t)];
    }
  }

  lemma FractionIsOneLine(t: string)
    ensures OneLine(t[..FractionEnd(t)])
  {
    hide DigitsEnd;
    var n := FractionEnd(t);
    if n > 0 {
      DigitsAreOneLine(t[1..][..n - 1]);
      assert t[..n] == t[..1] + t[1..][..n - 1];
    }
  }

  lemma ExponentIsOneLine(t: string)
    ensures OneLine(t[..ExponentEnd(t)])
  {
    hide DigitsEnd;
    var n := ExponentEnd(t);
    if n > 0 {
      var k := if |t| > 1 && t[1] in {'+', '-'} then 2 else 1;
      DigitsAreOneLine(t[k..][..n - k]);
      assert t[..n] == t[..k] + t[k..][..n - k];
    }
  }

  lemma {:induction false} ItemsAreOneLine(items: seq<Value>, repr: Repr)
    requires items != [] && IsPython(Arr(items), repr)
    ensures OneLine(RenderItems(items))
    decreases items
  {
    RenderIsOneLine(items[0], repr);
    if |items| > 1 {
      assert IsPython(Arr(items[1..]), repr);
      ItemsAreOneLine(items[1..], repr);
    }
  }

  lemma {:induction false} FieldsAreOneLine(fields: seq<Field>, repr: Repr)
    requires fields != [] && forall i | 0 <= i < |fields| :: IsPython(fields[i].value, repr)
    ensures OneLine(RenderFields(fields))
    decreases fields
  {
    EscapedIsOneLine(fields[0].key);
    RenderIsOneLine(fields[0].value, repr);
    if |fields| > 1 {
      FieldsAreOneLine(fields[1..], repr);
    }
  }

  /** A written object fills one line: no raw line break, and nothing for `strip` to remove. */
  lemma DumpsIsOneLine(v: Value)
    requires WellFormed(v)
    ensures OneLine(Dumps(v))
    ensures v.Obj? ==> Strip(Dumps(v)) == Dumps(v) != ""
  {
    hide Sort, Render, IsPython;
    CanonIsPython(v, Verbatim);
    RenderIsOneLine(Canon(v), Verbatim);
    if v.Obj? {
      ObjectIsBracketed(Canon(v));
      var s := Dumps(v);
      assert StripLeft(s) == s && StripRight(s) == s;
    }
  }

  lemma ObjectIsBracketed(v: Value)
    requires v.Obj?
    ensures var s := Render(v); |s| >= 2 && s[0] == '{' && s[|s| - 1] == '}'
  {
    if v.fields != [] {
      FieldsEndBraced(v.fields);
    }
  }

  lemma {:induction false} FieldsEndBraced(fields: seq<Field>)
    requires fields != []
    ensures var s := RenderFields(fields); s != "" && s[|s| - 1] == '}'
  {
    if |fields| > 1 {
      FieldsEndBraced(fields[1..]);
    }
  }
}
