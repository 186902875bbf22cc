/** How JavaScript prints the leaves of a JSON text, and how they are read back. */
module JsonText {
  import opened PayloadParser
  import opened Unicode

  const OPEN_BRACE: Unit := 123
  const OPEN_BRACKET: Unit := 91
  const CLOSE_BRACKET: Unit := 93
  const MINUS: Unit := 45

  /** What a reader gets from the front of a text, and what it leaves. */
  datatype Read<+T> = Got(value: T, rest: JsString) | Stuck

  // ---------------------------------------------------------------------------
  // Strings
  // ---------------------------------------------------------------------------

  function HexDigit(n: nat): Unit
    requires n < 16
  {
    if n < 10 then 48 + n else 87 + n
  }

  function HexValue(u: Unit): int {
    if 48 <= u <= 57 then u - 48 else u - 87
  }

  /** `\uxxxx`, in lower case. */
  function UnicodeEscape(u: Unit): JsString {
    [BACKSLASH, 117, HexDigit(u / 0x1000), HexDigit(u / 0x100 % 16), HexDigit(u / 0x10 % 16), HexDigit(u % 16)]
  }

  /** The letter of a two-character escape; 0 when there is none. */
  function ShortEscape(u: Unit): Unit {
    if u == 8 then 98
    else if u == 9 then 116
    else if u == 10 then 110
    else if u == 12 then 102
    else if u == 13 then 114
    else if u == QUOTE || u == BACKSLASH then u
    else 0
  }

  /** The unit a two-character escape stands for; 0 when it is none. */
  function ShortMeaning(letter: Unit): Unit {
    if letter == 98 then 8
    else if letter == 116 then 9
    else if letter == 110 then 10
    else if letter == 102 then 12
    else if letter == 114 then 13
    else if letter == QUOTE || letter == BACKSLASH then letter
    else 0
  }

  /** One unit that is not the front of a surrogate pair, as JSON.stringify prints it. */
  function EscapeUnit(u: Unit): JsString {
    if ShortEscape(u) != 0 then [BACKSLASH, ShortEscape(u)]
    else if u < 0x20 || High(u) || Low(u) then UnicodeEscape(u)
    else [u]
  }

  /** The text between the quotes. */
  function Escape(s: JsString): JsString
    decreases |s|
  {
    if s == [] then []
    else if Paired(s) then s[..2] + Escape(s[2..])
    else EscapeUnit(s[0]) + Escape(s[1..])
  }

  function Quoted(s: JsString): JsString {
    [QUOTE] + Escape(s) + [QUOTE]
  }

  /** The string whose text starts here, after the opening quote. */
  function ReadString(t: JsString): (r: Read<JsString>)
    ensures r.Got? ==> |r.rest| < |t|
    decreases |t|
  {
    if t == [] then Stuck
    else if t[0] == QUOTE then Got([], t[1..])
    else if t[0] == BACKSLASH && |t| >= 2 && ShortMeaning(t[1]) != 0 then
      Prepend(ShortMeaning(t[1]), ReadString(t[2..]))
    else if t[0] == BACKSLASH && |t| >= 6 then
      var u := HexValue(t[2]) * 0x1000 + HexValue(t[3]) * 0x100 + HexValue(t[4]) * 0x10 + HexValue(t[5]);
      if 0 <= u < 0x10000 then Prepend(u, ReadString(t[6..])) else Stuck
    else if t[0] == BACKSLASH then Stuck
    else Prepend(t[0], ReadString(t[1..]))
  }

  function Prepend(u: Unit, r: Read<JsString>): Read<JsString> {
    match r
    case Got(s, rest) => Got([u] + s, rest)
    case Stuck => Stuck
  }

  lemma HexDigitsAddUp(u: Unit)
    ensures u == u / 0x1000 * 0x1000 + u / 0x100 % 16 * 0x100 + u / 0x10 % 16 * 0x10 + u % 16
  {
    Shift(u, 0x10, 0x100);
    Shift(u, 0x100, 0x1000);
  }

  /** Dividing by 16 once more. */
  lemma Shift(u: Unit, d: nat, e: nat)
    requires (d == 0x10 && e == 0x100) || (d == 0x100 && e == 0x1000)
    ensures u / d == u / e * 16 + u / d % 16
  {
    if d == 0x10 {
      assert u / 0x10 / 16 == u / 0x100;
    } else {
      assert u / 0x100 / 16 == u / 0x1000;
    }
  }

  lemma ReadEscapedUnit(u: Unit, rest: JsString)
    requires ReadString(rest).Got?
    ensures ReadString(EscapeUnit(u) + rest) == Prepend(u, ReadString(rest))
  {
    var t := EscapeUnit(u) + rest;
    assert t[|EscapeUnit(u)|..] == rest;
    if ShortEscape(u) != 0 {
      assert ShortMeaning(ShortEscape(u)) == u;
    } else if u < 0x20 || High(u) || Low(u) {
      HexDigitsAddUp(u);
      assert HexValue(t[2]) == u / 0x1000 && HexValue(t[3]) == u / 0x100 % 16;
      assert HexValue(t[4]) == u / 0x10 % 16 && HexValue(t[5]) == u % 16;
    }
  }

  lemma ReadSurrogate(u: Unit, rest: JsString)
    requires (High(u) || Low(u)) && ReadString(rest).Got?
    ensures ReadString([u] + rest) == Prepend(u, ReadString(rest))
  {
    assert ([u] + rest)[1..] == rest;
  }

  lemma ReadClosingQuote(rest: JsString)
    ensures ReadString([QUOTE] + rest) == Got([], rest)
  {
    assert ([QUOTE] + rest)[1..] == rest;
  }

  /** Reading a printed string gives it back and stops after its closing quote. */
  lemma {:induction false} ReadQuoted(s: JsString, rest: JsString)
    ensures ReadString(Escape(s) + [QUOTE] + rest) == Got(s, rest)
    decreases |s|
  {
    hide ReadString;
    hide EscapeUnit;
    if s == [] {
      assert Escape(s) + [QUOTE] + rest == [QUOTE] + rest;
      ReadClosingQuote(rest);
    } else if Paired(s) {
      ReadQuoted(s[2..], rest);
      var tail := Escape(s[2..]) + [QUOTE] + rest;
      assert Escape(s) + [QUOTE] + rest == [s[0]] + ([s[1]] + tail);
      ReadSurrogate(s[1], tail);
      ReadSurrogate(s[0], [s[1]] + tail);
      assert s == [s[0]] + ([s[1]] + s[2..]);
    } else {
      ReadQuoted(s[1..], rest);
      var tail := Escape(s[1..]) + [QUOTE] + rest;
      assert Escape(s) + [QUOTE] + rest == EscapeUnit(s[0]) + tail;
      ReadEscapedUnit(s[0], tail);
      assert s == [s[0]] + s[1..];
    }
  }

  /** A printed string can be encoded without loss: its surrogates are paired or escaped away. */
  lemma {:induction false} EscapeWellFormed(s: JsString)
    ensures WellFormed(Escape(s))
    decreases |s|
  {
    if s == [] {
    } else if Paired(s) {
      EscapeWellFormed(s[2..]);
      assert Escape(s)[2..] == Escape(s[2..]);
    } else {
      EscapeWellFormed(s[1..]);
      EscapedUnitWellFormed(s[0]);
      EncodeAppend(EscapeUnit(s[0]), Escape(s[1..]));
    }
  }

  lemma EscapedUnitWellFormed(u: Unit)
    ensures WellFormed(EscapeUnit(u))
  {
    if ShortEscape(u) != 0 || u < 0x20 || High(u) || Low(u) {
      EncodeAscii(EscapeUnit(u));
    } else {
      assert EscapeUnit(u)[1..] == [];
    }
  }

  // ---------------------------------------------------------------------------
  // Integers
  // ---------------------------------------------------------------------------

  /** The integers that a JavaScript number holds exactly. */
  type SafeInt = n: int | -0x1F_FFFF_FFFF_FFFF <= n <= 0x1F_FFFF_FFFF_FFFF

  function Decimal(n: nat): (r: JsString)
    ensures r != []
  {
    if n < 10 then [DIGIT_0 + n] else Decimal(n / 10) + [DIGIT_0 + n % 10]
  }

  function IntText(n: int): JsString {
    if n < 0 then [MINUS] + Decimal(-n) else Decimal(n)
  }

  predicate IsDigit(u: Unit) {
    DIGIT_0 <= u <= DIGIT_9
  }

  /** The digits at the front, after `acc`. */
  function ReadDigits(t: JsString, acc: int): (r: Read<int>)
    ensures r.Got? && |r.rest| <= |t|
    ensures t != [] && IsDigit(t[0]) ==> |r.rest| < |t|
    decreases |t|
  {
    if t != [] && IsDigit(t[0]) then ReadDigits(t[1..], acc * 10 + (t[0] - DIGIT_0)) else Got(acc, t)
  }

  function ReadInt(t: JsString): (r: Read<int>)
    ensures r.Got? && |r.rest| <= |t|
    ensures t != [] && (t[0] == MINUS || IsDigit(t[0])) ==> |r.rest| < |t|
  {
    if t != [] && t[0] == MINUS then
      match ReadDigits(t[1..], 0)
      case Got(n, rest) => Got(-n, rest)
      case Stuck => Stuck
    else ReadDigits(t, 0)
  }

  /** No digit follows. */
  predicate Ends(rest: JsString) {
    rest == [] || !IsDigit(rest[0])
  }

  lemma {:induction false} ReadDecimal(n: nat, rest: JsString)
    ensures ReadDigits(Decimal(n) + rest, 0) == ReadDigits(rest, n)
  {
    if n < 10 {
      assert (Decimal(n) + rest)[1..] == rest;
    } else {
      var tail := [(DIGIT_0 + n % 10) as Unit] + rest;
      assert Decimal(n) + rest == Decimal(n / 10) + tail;
      ReadDecimal(n / 10, tail);
      assert tail[1..] == rest;
    }
  }

  lemma {:induction false} DecimalDigits(n: nat)
    ensures forall i :: 0 <= i < |Decimal(n)| ==> IsDigit(Decimal(n)[i])
  {
    if n >= 10 {
      DecimalDigits(n / 10);
    }
  }

  lemma ReadNatural(n: nat, rest: JsString)
    requires Ends(rest)
    ensures ReadDigits(Decimal(n) + rest, 0) == Got(n, rest)
  {
    hide Decimal;
    ReadDecimal(n, rest);
  }

  lemma ReadPrintedInt(n: int, rest: JsString)
    requires Ends(rest)
    ensures ReadInt(IntText(n) + rest) == Got(n, rest)
  {
    hide ReadDigits;
    hide Decimal;
    hide Ends;
    if n < 0 {
      ReadNatural(-n, rest);
      assert (IntText(n) + rest)[1..] == Decimal(-n) + rest;
    } else {
      ReadNatural(n, rest);
      DecimalDigits(n);
      assert (IntText(n) + rest)[0] == Decimal(n)[0];
    }
  }

  lemma IntTextAscii(n: int)
    ensures IsAscii(IntText(n))
  {
    DecimalDigits(if n < 0 then -n else n);
  }
}
