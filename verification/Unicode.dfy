/** JavaScript strings as UTF-16 code units, and the UTF-8 bytes TextEncoder makes of them. */
module Unicode {
  import opened ProtocolTypes

  type Unit = u: int | 0 <= u < 0x10000
  type JsString = seq<Unit>

  predicate High(u: Unit) {
    0xD800 <= u < 0xDC00
  }

  predicate Low(u: Unit) {
    0xDC00 <= u < 0xE000
  }

  /** A surrogate pair stands at the front. */
  predicate Paired(s: JsString) {
    |s| >= 2 && High(s[0]) && Low(s[1])
  }

  /** Every surrogate belongs to a pair. */
  predicate WellFormed(s: JsString)
    decreases |s|
  {
    if s == [] then true
    else if Paired(s) then WellFormed(s[2..])
    else !High(s[0]) && !Low(s[0]) && WellFormed(s[1..])
  }

  function CodePoint(high: Unit, low: Unit): int
    requires High(high) && Low(low)
  {
    0x10000 + (high - 0xD800) * 0x400 + (low - 0xDC00)
  }

  /** One unit outside the surrogates. */
  function EncodeUnit(u: Unit): Bytes {
    if u < 0x80 then [u]
    else if u < 0x800 then [0xC0 + u / 0x40, 0x80 + u % 0x40]
    else [0xE0 + u / 0x1000, 0x80 + u / 0x40 % 0x40, 0x80 + u % 0x40]
  }

  function EncodePair(high: Unit, low: Unit): Bytes
    requires High(high) && Low(low)
  {
    var c := CodePoint(high, low);
    [0xF0 + c / 0x40000, 0x80 + c / 0x1000 % 0x40, 0x80 + c / 0x40 % 0x40, 0x80 + c % 0x40]
  }

  /** What a lone surrogate is encoded as: U+FFFD. */
  const REPLACEMENT: Bytes := [0xEF, 0xBF, 0xBD]

  /** How many units the next encoding step takes. */
  function Width(s: JsString): nat {
    if Paired(s) then 2 else 1
  }

  function EncodeFront(s: JsString): Bytes
    requires s != []
  {
    if Paired(s) then EncodePair(s[0], s[1])
    else if High(s[0]) || Low(s[0]) then REPLACEMENT
    else EncodeUnit(s[0])
  }

  function Encode(s: JsString): Bytes
    decreases |s|
  {
    if s == [] then [] else EncodeFront(s) + Encode(s[Width(s)..])
  }

  // ---------------------------------------------------------------------------
  // Decoding
  // ---------------------------------------------------------------------------

  /** The units that valid UTF-8 stands for. */
  function Decode(b: Bytes): seq<int>
    decreases |b|
  {
    if b == [] then []
    else if b[0] < 0x80 then [b[0]] + Decode(b[1..])
    else if b[0] < 0xE0 && |b| >= 2 then
      [(b[0] - 0xC0) * 0x40 + (b[1] - 0x80)] + Decode(b[2..])
    else if b[0] < 0xF0 && |b| >= 3 then
      [(b[0] - 0xE0) * 0x1000 + (b[1] - 0x80) * 0x40 + (b[2] - 0x80)] + Decode(b[3..])
    else if |b| >= 4 then
      var b0: int, b1: int, b2: int, b3: int := b[0], b[1], b[2], b[3];
      var c := (b0 - 0xF0) * 0x40000 + (b1 - 0x80) * 0x1000 + (b2 - 0x80) * 0x40 + (b3 - 0x80) - 0x10000;
      [0xD800 + c / 0x400, 0xDC00 + c % 0x400] + Decode(b[4..])
    else []
  }

  lemma DecodeUnit(u: Unit, rest: Bytes)
    requires !High(u) && !Low(u)
    ensures Decode(EncodeUnit(u) + rest) == [u] + Decode(rest)
  {
    var b := EncodeUnit(u) + rest;
    assert b[|EncodeUnit(u)|..] == rest;
    assert u == u / 0x1000 * 0x1000 + u / 0x40 % 0x40 * 0x40 + u % 0x40;
  }

  lemma DecodePair(high: Unit, low: Unit, rest: Bytes)
    requires High(high) && Low(low)
    ensures Decode(EncodePair(high, low) + rest) == [high, low] + Decode(rest)
  {
    var c := CodePoint(high, low);
    var b := EncodePair(high, low) + rest;
    assert b[4..] == rest;
    PairDigits(c);
    assert (c - 0x10000) / 0x400 == high - 0xD800 && (c - 0x10000) % 0x400 == low - 0xDC00;
  }

  lemma PairDigits(c: int)
    requires 0x10000 <= c < 0x110000
    ensures c == c / 0x40000 * 0x40000 + c / 0x1000 % 0x40 * 0x1000 + c / 0x40 % 0x40 * 0x40 + c % 0x40
    ensures c / 0x40000 < 5
  {
  }

  /** UTF-8 loses nothing of a well-formed string. */
  lemma {:induction false} DecodeEncode(s: JsString)
    requires WellFormed(s)
    ensures Decode(Encode(s)) == s
    decreases |s|
  {
    hide Decode;
    hide EncodeUnit;
    hide EncodePair;
    if s == [] {
      DecodeNothing();
    } else if Paired(s) {
      DecodeEncode(s[2..]);
      DecodePair(s[0], s[1], Encode(s[2..]));
    } else {
      DecodeEncode(s[1..]);
      DecodeUnit(s[0], Encode(s[1..]));
    }
  }

  lemma DecodeNothing()
    ensures Decode([]) == []
  {
  }

  lemma EncodeInjective(s: JsString, t: JsString)
    requires WellFormed(s) && WellFormed(t) && Encode(s) == Encode(t)
    ensures s == t
  {
    DecodeEncode(s);
    DecodeEncode(t);
  }

  // ---------------------------------------------------------------------------
  // Concatenation
  // ---------------------------------------------------------------------------

  lemma SameFront(s: JsString, t: JsString)
    requires WellFormed(s) && s != []
    ensures 1 <= Width(s + t) == Width(s) <= |s| && EncodeFront(s + t) == EncodeFront(s) && WellFormed(s[Width(s)..])
    ensures WellFormed(s[Width(s)..] + t) ==> WellFormed(s + t)
  {
    assert (s + t)[Width(s)..] == s[Width(s)..] + t;
  }

  lemma {:induction false} EncodeAppend(s: JsString, t: JsString)
    requires WellFormed(s)
    ensures Encode(s + t) == Encode(s) + Encode(t)
    ensures WellFormed(t) ==> WellFormed(s + t)
    decreases |s|
  {
    hide EncodeFront;
    hide Width;
    hide WellFormed;
    if s == [] {
      assert s + t == t;
    } else {
      SameFront(s, t);
      var n := Width(s);
      EncodeAppend(s[n..], t);
      assert (s + t)[n..] == s[n..] + t;
    }
  }

  predicate IsAscii(s: JsString) {
    forall i :: 0 <= i < |s| ==> s[i] < 0x80
  }

  lemma {:induction false} EncodeAscii(s: JsString)
    requires IsAscii(s)
    ensures WellFormed(s) && Encode(s) == s
    decreases |s|
  {
    if s != [] {
      EncodeAscii(s[1..]);
    }
  }
}
