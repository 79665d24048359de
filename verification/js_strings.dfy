/** JavaScript strings as sequences of UTF-16 code units, with the few string
    operations the installer relies on: `Array.prototype.join`,
    `String.prototype.split` on a one-unit separator, and the decimal rendering
    of a non-negative number. */
module JsStrings {

  /** One UTF-16 code unit, the element type of a JavaScript string. */
  newtype CodeUnit = x: int | 0 <= x < 0x1_0000

  type JsString = seq<CodeUnit>

  const Zero: CodeUnit := 48
  const Dash: CodeUnit := 45

  predicate IsDigit(u: CodeUnit) {
    48 <= u <= 57
  }

  predicate IsHighSurrogate(u: CodeUnit) {
    0xD800 <= u <= 0xDBFF
  }

  predicate IsLowSurrogate(u: CodeUnit) {
    0xDC00 <= u <= 0xDFFF
  }

  /** The UTF-16 encoding of one Unicode scalar value: one unit inside the
      Basic Multilingual Plane, a surrogate pair outside it. */
  function EncodeChar(c: char): (r: JsString)
    ensures |r| == 1 <==> c as int < 0x1_0000
    ensures |r| == 1 ==> r[0] as int == c as int
    ensures |r| != 1 ==> |r| == 2 && IsHighSurrogate(r[0]) && IsLowSurrogate(r[1])
  {
    var v := c as int;
    if v < 0x1_0000 then [v as CodeUnit]
    else
      var w := v - 0x1_0000;
      [(0xD800 + w / 0x400) as CodeUnit, (0xDC00 + w % 0x400) as CodeUnit]
  }

  /** The UTF-16 encoding of a Dafny string, i.e. the JavaScript string that
      holds the same text. */
  function Utf16(s: string): (r: JsString)
    ensures |s| <= |r| <= 2 * |s|
  {
    if s == [] then [] else EncodeChar(s[0]) + Utf16(s[1..])
  }

  predicate InBmp(s: string) {
    forall i | 0 <= i < |s| :: s[i] as int < 0x1_0000
  }

  /** A string literal of the installer. Every one of them is ASCII, so each
      character is the one code unit holding its value (the low 16 bits of a
      character's value, which is the value itself within the Basic
      Multilingual Plane). `Utf16Bmp` shows that this is the UTF-16 encoding
      of such text; the literals use this form because it is not recursive. */
  function Text(s: string): (r: JsString)
    ensures |r| == |s|
  {
    seq(|s|, i requires 0 <= i < |s| => (s[i] as int % 0x1_0000) as CodeUnit)
  }

  /** On such text the general encoding and the literal form agree. */
  lemma {:induction false} Utf16Bmp(s: string)
    requires InBmp(s)
    ensures Utf16(s) == Text(s)
  {
    if s != [] {
      Utf16Bmp(s[1..]);
      assert s[0] as int < 0x1_0000;
      assert Text(s) == [s[0] as int as CodeUnit] + Text(s[1..]);
    }
  }

  /** `parts.join(sep)`: the parts with one separator between neighbours. */
  function Join(parts: seq<JsString>, sep: JsString): JsString
  {
    if |parts| == 0 then []
    else if |parts| == 1 then parts[0]
    else parts[0] + sep + Join(parts[1..], sep)
  }

  lemma JoinCons(p: JsString, parts: seq<JsString>, sep: JsString)
    requires |parts| >= 1
    ensures Join([p] + parts, sep) == p + sep + Join(parts, sep)
  {
    assert ([p] + parts)[1..] == parts;
  }

  /** `s.split(c)` for a separator of one code unit: the maximal runs between
      separators, so a string without separators splits into itself. */
  function Split(s: JsString, c: CodeUnit): (r: seq<JsString>)
    ensures |r| >= 1
    ensures forall i | 0 <= i < |r| :: c !in r[i]
  {
    if s == [] then [[]]
    else if s[0] == c then [[]] + Split(s[1..], c)
    else
      var rest := Split(s[1..], c);
      [[s[0]] + rest[0]] + rest[1..]
  }

  lemma {:induction false} SplitNoSeparator(a: JsString, c: CodeUnit)
    requires c !in a
    ensures Split(a, c) == [a]
  {
    if a != [] {
      assert a[0] in a;
      SplitNoSeparator(a[1..], c);
      assert [a[0]] + a[1..] == a;
    }
  }

  /** Splitting at the first separator peels off the leading part. */
  lemma {:induction false} SplitAtFirst(a: JsString, c: CodeUnit, b: JsString)
    requires c !in a
    ensures Split(a + [c] + b, c) == [a] + Split(b, c)
  {
    if a == [] {
      assert a + [c] + b == [c] + b;
      assert ([c] + b)[1..] == b;
    } else {
      SplitAtFirst(a[1..], c, b);
      assert (a + [c] + b)[1..] == a[1..] + [c] + b;
      assert [a[0]] + a[1..] == a;
    }
  }

  /** `split` undoes `join` when no part contains the separator. */
  lemma {:induction false} SplitJoin(parts: seq<JsString>, c: CodeUnit)
    requires |parts| >= 1
    requires forall i | 0 <= i < |parts| :: c !in parts[i]
    ensures Split(Join(parts, [c]), c) == parts
  {
    if |parts| == 1 {
      SplitNoSeparator(parts[0], c);
    } else {
      SplitJoin(parts[1..], c);
      SplitAtFirst(parts[0], c, Join(parts[1..], [c]));
      assert [parts[0]] + parts[1..] == parts;
    }
  }

  /** `String(n)` for a non-negative integer: its decimal digits, most
      significant first, without leading zeros. */
  function Decimal(n: nat): (r: JsString)
    ensures |r| >= 1
    ensures forall i | 0 <= i < |r| :: IsDigit(r[i])
    ensures r[0] == Zero ==> n == 0
    decreases n
  {
    if n < 10 then [(48 + n) as CodeUnit]
    else Decimal(n / 10) + [(48 + n % 10) as CodeUnit]
  }

  /** The value of a string of decimal digits. */
  function DecimalValue(s: JsString): nat
    requires forall i | 0 <= i < |s| :: IsDigit(s[i])
  {
    if s == [] then 0
    else
      assert IsDigit(s[|s| - 1]);
      DecimalValue(s[..|s| - 1]) * 10 + (s[|s| - 1] as int - 48)
  }

  /** Reading the digits back gives the number: the rendering loses nothing. */
  lemma {:induction false} DecimalRoundTrip(n: nat)
    ensures DecimalValue(Decimal(n)) == n
    decreases n
  {
    if n >= 10 {
      DecimalRoundTrip(n / 10);
      var d := Decimal(n);
      assert d[..|d| - 1] == Decimal(n / 10);
    }
  }
}
