/**
 Character classes, stripping and decimal numerals: the part of Python's `str` that the
 scanners and the JSON writer of Project Lumina rely on.
 */
module Text {

  datatype Option<+T> = None | Some(value: T)

  /** `str.isspace` for one character, which is also the class `\s` of Python's `re`. */
  predicate IsSpace(c: char) {
    || '\t' <= c <= '\r'
    || '\U{1C}' <= c <= ' '
    || c in {'\U{85}', '\U{A0}', '\U{1680}', '\U{2028}', '\U{2029}', '\U{202F}', '\U{205F}', '\U{3000}'}
    || '\U{2000}' <= c <= '\U{200A}'
  }

  /** ASCII digits only; see README.md for the non-ASCII digits of `str.isdigit`. */
  predicate IsDigit(c: char) {
    '0' <= c <= '9'
  }

  predicate AllDigits(s: string) {
    forall c | c in s :: IsDigit(c)
  }

  function StripLeft(s: string): string {
    if s != "" && IsSpace(s[0]) then StripLeft(s[1..]) else s
  }

  function StripRight(s: string): string {
    if s != "" && IsSpace(s[|s| - 1]) then StripRight(s[..|s| - 1]) else s
  }

  /** `str.strip()` */
  function Strip(s: string): string {
    StripRight(StripLeft(s))
  }

  /** `s.replace(" ", "")` */
  function RemoveBlanks(s: string): string {
    if s == "" then ""
    else (if s[0] == ' ' then "" else [s[0]]) + RemoveBlanks(s[1..])
  }

  /** The only white space in `s` is the blank. */
  predicate OnlyBlanks(s: string) {
    forall c | c in s :: IsSpace(c) ==> c == ' '
  }

  lemma {:induction false} RemoveBlanksConcat(a: string, b: string)
    ensures RemoveBlanks(a + b) == RemoveBlanks(a) + RemoveBlanks(b)
  {
    if a == "" {
      assert a + b == b;
    } else {
      assert (a + b)[1..] == a[1..] + b;
      RemoveBlanksConcat(a[1..], b);
    }
  }

  lemma {:induction false} StripLeftKeepsInk(s: string)
    requires OnlyBlanks(s)
    ensures RemoveBlanks(StripLeft(s)) == RemoveBlanks(s)
    ensures OnlyBlanks(StripLeft(s))
    ensures forall c | c in StripLeft(s) :: c in s
  {
    if s != "" && IsSpace(s[0]) {
      StripLeftKeepsInk(s[1..]);
    }
  }

  lemma {:induction false} StripRightKeepsInk(s: string)
    requires OnlyBlanks(s)
    ensures RemoveBlanks(StripRight(s)) == RemoveBlanks(s)
    ensures OnlyBlanks(StripRight(s))
    ensures forall c | c in StripRight(s) :: c in s
  {
    if s != "" && IsSpace(s[|s| - 1]) {
      var front := s[..|s| - 1];
      assert s == front + [s[|s| - 1]];
      RemoveBlanksConcat(front, [s[|s| - 1]]);
      StripRightKeepsInk(front);
    }
  }

  lemma StripKeepsInk(s: string)
    requires OnlyBlanks(s)
    ensures RemoveBlanks(Strip(s)) == RemoveBlanks(s)
    ensures OnlyBlanks(Strip(s))
    ensures forall c | c in Strip(s) :: c in s
  {
    StripLeftKeepsInk(s);
    StripRightKeepsInk(StripLeft(s));
  }

  /** A character that is not white space stops the stripping from either side. */
  lemma {:induction false} StripWithin(s: string, c: char)
    requires c in Strip(s)
    ensures c in s
  {
    StripRightWithin(StripLeft(s), c);
    StripLeftWithin(s, c);
  }

  lemma {:induction false} StripLeftWithin(s: string, c: char)
    ensures c in StripLeft(s) ==> c in s
  {
    if s != "" && IsSpace(s[0]) {
      StripLeftWithin(s[1..], c);
    }
  }

  lemma {:induction false} StripRightWithin(s: string, c: char)
    ensures c in StripRight(s) ==> c in s
  {
    if s != "" && IsSpace(s[|s| - 1]) {
      StripRightWithin(s[..|s| - 1], c);
    }
  }

  lemma {:induction false} StripAround(l: string, c: char, r: string)
    requires !IsSpace(c)
    ensures StripLeft(l + [c] + r) == StripLeft(l) + [c] + r
    ensures StripRight(l + [c] + r) == l + [c] + StripRight(r)
    ensures Strip(l + [c] + r) == StripLeft(l) + [c] + StripRight(r)
  {
    StripLeftAround(l, c, r);
    StripRightAround(l, c, r);
    StripRightAround(StripLeft(l), c, r);
  }

  lemma {:induction false} StripLeftAround(l: string, c: char, r: string)
    requires !IsSpace(c)
    ensures StripLeft(l + [c] + r) == StripLeft(l) + [c] + r
  {
    if l != "" {
      assert (l + [c] + r)[1..] == l[1..] + [c] + r;
      StripLeftAround(l[1..], c, r);
    }
  }

  lemma {:induction false} StripRightAround(l: string, c: char, r: string)
    requires !IsSpace(c)
    ensures StripRight(l + [c] + r) == l + [c] + StripRight(r)
  {
    var s := l + [c] + r;
    if r != "" {
      assert s[|s| - 1] == r[|r| - 1];
      assert s[..|s| - 1] == l + [c] + r[..|r| - 1];
      StripRightAround(l, c, r[..|r| - 1]);
    }
  }

  /** The value of a string of decimal digits, most significant digit first. */
  function ReadNat(s: string): nat
    requires AllDigits(s)
  {
    if s == "" then 0
    else
      var last := s[|s| - 1];
      assert last in s;
      10 * ReadNat(s[..|s| - 1]) + (last as int - '0' as int)
  }

  function DigitChar(d: nat): (c: char)
    requires d < 10
    ensures IsDigit(c) && c as int - '0' as int == d
  {
    ('0' as int + d) as char
  }

  /** `str(n)` for a natural number. */
  function Decimal(n: nat): (s: string)
    ensures s != "" && AllDigits(s)
  {
    if n < 10 then [DigitChar(n)] else Decimal(n / 10) + [DigitChar(n % 10)]
  }

  /** `str(n)` */
  function IntText(n: int): string {
    if n < 0 then "-" + Decimal(-n) else Decimal(n)
  }

  lemma {:induction false} ReadDecimal(n: nat)
    ensures ReadNat(Decimal(n)) == n
  {
    var s := Decimal(n);
    if n < 10 {
      assert s[..0] == "";
    } else {
      assert s[..|s| - 1] == Decimal(n / 10);
      ReadDecimal(n / 10);
    }
  }

  /** No leading zero, except for zero itself. */
  lemma {:induction false} DecimalHead(n: nat)
    ensures Decimal(n)[0] == '0' <==> n == 0
    ensures Decimal(n)[0] == '0' ==> |Decimal(n)| == 1
  {
    if n >= 10 {
      DecimalHead(n / 10);
    }
  }

  function Abs(x: real): (r: real)
    ensures r >= 0.0 && (r == x || r == -x)
  {
    if x < 0.0 then -x else x
  }

  // ---------------------------------------------------------------- slices

  lemma TakeDrop<T>(a: seq<T>, b: seq<T>)
    ensures (a + b)[..|a|] == a && (a + b)[|a|..] == b
  {}

  lemma Associative<T>(a: seq<T>, b: seq<T>, c: seq<T>)
    ensures a + b + c == a + (b + c)
  {}

  lemma TakeInside<T>(a: seq<T>, b: seq<T>, k: nat)
    requires k <= |a|
    ensures (a + b)[..k] == a[..k]
  {}

  lemma DropInside<T>(a: seq<T>, b: seq<T>, k: nat)
    requires k <= |a|
    ensures (a + b)[k..] == a[k..] + b
  {}

  lemma TakeTwice<T>(s: seq<T>, i: nat, j: nat)
    requires i <= j <= |s|
    ensures s[..j][..i] == s[..i]
  {}

  lemma DropTwice<T>(s: seq<T>, i: nat, j: nat)
    requires i + j <= |s|
    ensures s[i..][j..] == s[i + j..]
  {}

  lemma SliceInside<T>(a: seq<T>, b: seq<T>, i: nat, j: nat)
    requires i <= j <= |a|
    ensures (a + b)[i..j] == a[i..j]
  {}

  lemma ThreePieces<T>(a: seq<T>, b: seq<T>, c: seq<T>)
    ensures var s := a + b + c;
      && |s| == |a| + |b| + |c|
      && s == a + (b + c)
      && s[..|a|] == a && s[|a|..] == b + c
      && s[|a|..|a| + |b|] == b && s[|a| + |b|..] == c
  {}

  lemma CutTwice<T>(s: seq<T>, i: nat, j: nat)
    requires i <= j <= |s|
    ensures s == s[..i] + s[i..j] + s[j..]
  {}
}
