/**
 * The canonical JSON printers (wallet-service/src/canonicalize.ts, press/src/serialization.ts,
 * governance/scripts/registry.ts): equal bytes if and only if equal values.
 */
module CanonicalJson {
  import opened ProtocolTypes
  import opened PayloadParser
  import opened Unicode
  import opened JsonText
  import opened KeySort

  /** A JavaScript value as the printers find it; an object lists its properties in insertion order. */
  datatype Json =
    | Null
    | Bool(b: bool)
    | Num(n: SafeInt)
    | Str(s: JsString)
    | Arr(items: seq<Json>)
    | Obj(members: seq<Member>)

  datatype Member = Member(key: JsString, value: Json)

  function KeysOf(members: seq<Member>): seq<JsString> {
    if members == [] then [] else [members[0].key] + KeysOf(members[1..])
  }

  lemma {:induction false} KeysOfAt(members: seq<Member>)
    ensures |KeysOf(members)| == |members|
    ensures forall i :: 0 <= i < |members| ==> KeysOf(members)[i] == members[i].key
    decreases |members|
  {
    if members != [] {
      KeysOfAt(members[1..]);
    }
  }

  /** Where a key is. */
  function IndexOf(members: seq<Member>, key: JsString): (i: nat)
    requires key in KeysOf(members)
    ensures i < |members| && members[i].key == key
  {
    if members[0].key == key then 0 else 1 + IndexOf(members[1..], key)
  }

  /** A JavaScript object has no key twice. */
  ghost predicate Wf(v: Json) {
    match v
    case Arr(items) => forall i :: 0 <= i < |items| ==> Wf(items[i])
    case Obj(members) => Unique(KeysOf(members)) && forall i :: 0 <= i < |members| ==> Wf(members[i].value)
    case _ => true
  }

  // ---------------------------------------------------------------------------
  // Printing
  // ---------------------------------------------------------------------------

  function SerializeValue(v: Json): JsString
    decreases v, 1, 0
  {
    match v
    case Null => Ascii("null")
    case Bool(b) => if b then Ascii("true") else Ascii("false")
    case Num(n) => IntText(n)
    case Str(s) => Quoted(s)
    case Arr(items) => [OPEN_BRACKET] + Items(v, 0) + [CLOSE_BRACKET]
    case Obj(members) =>
      var keys := Sort(KeysOf(members));
      SortKeeps(KeysOf(members));
      [OPEN_BRACE] + Pairs(v, keys) + [CLOSE_BRACE]
  }

  /** The items from index `i` on, joined by commas. */
  function Items(v: Json, i: nat): JsString
    requires v.Arr? && i <= |v.items|
    decreases v, 0, |v.items| - i
  {
    if i == |v.items| then []
    else SerializeValue(v.items[i]) + (if i + 1 == |v.items| then [] else [COMMA] + Items(v, i + 1))
  }

  /** The properties under the given keys, joined by commas. */
  function Pairs(v: Json, keys: seq<JsString>): JsString
    requires v.Obj? && forall k :: k in keys ==> k in KeysOf(v.members)
    decreases v, 0, |keys|
  {
    if keys == [] then []
    else
      Quoted(keys[0]) + [COLON] + SerializeValue(v.members[IndexOf(v.members, keys[0])].value)
      + (if |keys| == 1 then [] else [COMMA] + Pairs(v, keys[1..]))
  }

  function Canonicalize(v: Json): Bytes {
    Encode(SerializeValue(v))
  }

  // ---------------------------------------------------------------------------
  // Meaning
  // ---------------------------------------------------------------------------

  /** What a value is apart from the order in which properties were inserted. */
  datatype Value =
    | VNull
    | VBool(b: bool)
    | VNum(n: int)
    | VStr(s: JsString)
    | VArr(items: seq<Value>)
    | VObj(members: map<JsString, Value>)

  ghost function Meaning(v: Json): Value
    decreases v, 1, 0
  {
    match v
    case Null => VNull
    case Bool(b) => VBool(b)
    case Num(n) => VNum(n)
    case Str(s) => VStr(s)
    case Arr(items) => VArr(Meanings(v, 0))
    case Obj(members) => VObj(MeaningsOf(v, KeysOf(members)))
  }

  ghost function Meanings(v: Json, i: nat): (r: seq<Value>)
    requires v.Arr? && i <= |v.items|
    ensures |r| == |v.items| - i
    decreases v, 0, |v.items| - i
  {
    if i == |v.items| then [] else [Meaning(v.items[i])] + Meanings(v, i + 1)
  }

  ghost function MeaningsOf(v: Json, keys: seq<JsString>): map<JsString, Value>
    requires v.Obj? && forall k :: k in keys ==> k in KeysOf(v.members)
    decreases v, 0, |keys|
  {
    if keys == [] then map[]
    else MeaningsOf(v, keys[1..])[keys[0] := Meaning(v.members[IndexOf(v.members, keys[0])].value)]
  }

  lemma {:induction false} MeaningsOfAt(v: Json, keys: seq<JsString>)
    requires v.Obj? && forall k :: k in keys ==> k in KeysOf(v.members)
    ensures MeaningsOf(v, keys).Keys == set k | k in keys
    ensures forall k :: k in keys ==> MeaningsOf(v, keys)[k] == Meaning(v.members[IndexOf(v.members, k)].value)
    decreases |keys|
  {
    hide Meaning;
    hide IndexOf;
    if keys != [] {
      MeaningsOfAt(v, keys[1..]);
      assert forall k :: k in keys <==> k == keys[0] || k in keys[1..];
    }
  }

  // ---------------------------------------------------------------------------
  // An inverse
  // ---------------------------------------------------------------------------

  function ReadLiteral(t: JsString): (r: Read<Value>)
    ensures r.Got? ==> |r.rest| < |t|
  {
    if Ascii("null") <= t then Got(VNull, t[4..])
    else if Ascii("true") <= t then Got(VBool(true), t[4..])
    else if Ascii("false") <= t then Got(VBool(false), t[5..])
    else Stuck
  }

  function ReadValue(t: JsString): (r: Read<Value>)
    ensures r.Got? ==> |r.rest| < |t|
    decreases |t|, 0
  {
    if t == [] then Stuck
    else if t[0] == QUOTE then
      match ReadString(t[1..])
      case Got(s, rest) => Got(VStr(s), rest)
      case Stuck => Stuck
    else if t[0] == MINUS || IsDigit(t[0]) then
      match ReadInt(t)
      case Got(n, rest) => Got(VNum(n), rest)
      case Stuck => Stuck
    else if t[0] == OPEN_BRACKET then
      if |t| >= 2 && t[1] == CLOSE_BRACKET then Got(VArr([]), t[2..])
      else
        match ReadItems(t[1..])
        case Got(items, rest) => Got(VArr(items), rest)
        case Stuck => Stuck
    else if t[0] == OPEN_BRACE then
      if |t| >= 2 && t[1] == CLOSE_BRACE then Got(VObj(map[]), t[2..])
      else
        match ReadMembers(t[1..])
        case Got(members, rest) => Got(VObj(members), rest)
        case Stuck => Stuck
    else ReadLiteral(t)
  }

  function ReadItems(t: JsString): (r: Read<seq<Value>>)
    ensures r.Got? ==> |r.rest| < |t|
    decreases |t|, 1
  {
    match ReadValue(t)
    case Stuck => Stuck
    case Got(v, rest) =>
      if rest != [] && rest[0] == CLOSE_BRACKET then Got([v], rest[1..])
      else if rest != [] && rest[0] == COMMA then
        match ReadItems(rest[1..])
        case Got(vs, after) => Got([v] + vs, after)
        case Stuck => Stuck
      else Stuck
  }

  /** A key, its colon and what follows. */
  function ReadKey(t: JsString): (r: Read<JsString>)
    ensures r.Got? ==> |r.rest| < |t|
  {
    if t == [] || t[0] != QUOTE then Stuck
    else
      match ReadString(t[1..])
      case Stuck => Stuck
      case Got(key, rest) => if rest != [] && rest[0] == COLON then Got(key, rest[1..]) else Stuck
  }

  function ReadMembers(t: JsString): (r: Read<map<JsString, Value>>)
    ensures r.Got? ==> |r.rest| < |t|
    decreases |t|, 1
  {
    match ReadKey(t)
    case Stuck => Stuck
    case Got(key, text) =>
      match ReadValue(text)
      case Stuck => Stuck
      case Got(v, rest) =>
        if rest != [] && rest[0] == CLOSE_BRACE then Got(map[key := v], rest[1..])
        else if rest != [] && rest[0] == COMMA then
          match ReadMembers(rest[1..])
          case Got(members, after) => Got(members[key := v], after)
          case Stuck => Stuck
        else Stuck
  }

  /** No printed value starts with a closing bracket or brace. */
  lemma FirstUnit(v: Json)
    ensures var t := SerializeValue(v); t != [] && t[0] != CLOSE_BRACKET && t[0] != CLOSE_BRACE
  {
    match v {
      case Num(n) => DecimalDigits(if n < 0 then -n else n);
      case _ =>
    }
  }

  lemma ReadPrintedKey(key: JsString, text: JsString)
    ensures ReadKey(Quoted(key) + [COLON] + text) == Got(key, text)
  {
    var t := Quoted(key) + [COLON] + text;
    ReadQuoted(key, [COLON] + text);
    assert t[1..] == Escape(key) + [QUOTE] + ([COLON] + text);
    assert ([COLON] + text)[1..] == text;
  }

  lemma ReadPrintedLiteral(v: Json, rest: JsString)
    requires v.Null? || v.Bool?
    ensures ReadValue(SerializeValue(v) + rest) == Got(Meaning(v), rest)
  {
    hide ReadString;
    hide ReadInt;
    var word := SerializeValue(v);
    var t := word + rest;
    assert t[|word|..] == rest && t[..|word|] == word;
  }

  lemma ReadPrintedNumber(n: SafeInt, rest: JsString)
    requires Ends(rest)
    ensures ReadValue(IntText(n) + rest) == Got(VNum(n), rest)
  {
    hide ReadInt;
    hide ReadString;
    hide ReadLiteral;
    ReadPrintedInt(n, rest);
    DecimalDigits(if n < 0 then -n else n);
  }

  lemma ReadPrintedString(s: JsString, rest: JsString)
    ensures ReadValue(Quoted(s) + rest) == Got(VStr(s), rest)
  {
    hide ReadString;
    hide ReadInt;
    hide ReadLiteral;
    hide Escape;
    ReadQuoted(s, rest);
    assert (Quoted(s) + rest)[1..] == Escape(s) + [QUOTE] + rest;
  }

  lemma ReadPrintedLeaf(v: Json, rest: JsString)
    requires !v.Arr? && !v.Obj? && Ends(rest)
    ensures ReadValue(SerializeValue(v) + rest) == Got(Meaning(v), rest)
  {
    hide ReadValue;
    match v {
      case Null => ReadPrintedLiteral(v, rest);
      case Bool(_) => ReadPrintedLiteral(v, rest);
      case Num(n) => ReadPrintedNumber(n, rest);
      case Str(s) => ReadPrintedString(s, rest);
    }
  }

  lemma ReadLastItem(v: Value, text: JsString, rest: JsString)
    requires ReadValue(text) == Got(v, [CLOSE_BRACKET] + rest)
    ensures ReadItems(text) == Got([v], rest)
  {
    assert ([CLOSE_BRACKET] + rest)[1..] == rest;
  }

  lemma ReadNextItem(v: Value, vs: seq<Value>, text: JsString, tail: JsString, rest: JsString)
    requires ReadValue(text) == Got(v, [COMMA] + tail) && ReadItems(tail) == Got(vs, rest)
    ensures ReadItems(text) == Got([v] + vs, rest)
  {
    assert ([COMMA] + tail)[1..] == tail;
  }

  lemma ReadLastMember(key: JsString, v: Value, text: JsString, rest: JsString)
    requires ReadValue(text) == Got(v, [CLOSE_BRACE] + rest)
    ensures ReadMembers(Quoted(key) + [COLON] + text) == Got(map[key := v], rest)
  {
    hide Quoted;
    hide ReadKey;
    ReadPrintedKey(key, text);
    assert ([CLOSE_BRACE] + rest)[1..] == rest;
  }

  lemma ReadNextMember(key: JsString, v: Value, m: map<JsString, Value>, text: JsString, tail: JsString, rest: JsString)
    requires ReadValue(text) == Got(v, [COMMA] + tail) && ReadMembers(tail) == Got(m, rest)
    ensures ReadMembers(Quoted(key) + [COLON] + text) == Got(m[key := v], rest)
  {
    hide Quoted;
    hide ReadKey;
    ReadPrintedKey(key, text);
    assert ([COMMA] + tail)[1..] == tail;
  }

  lemma ReadBracketed(items: seq<Value>, text: JsString, rest: JsString)
    requires text != [] && text[0] != CLOSE_BRACKET && ReadItems(text) == Got(items, rest)
    ensures ReadValue([OPEN_BRACKET] + text) == Got(VArr(items), rest)
  {
    assert ([OPEN_BRACKET] + text)[1..] == text;
  }

  lemma ReadBraced(m: map<JsString, Value>, text: JsString, rest: JsString)
    requires text != [] && text[0] != CLOSE_BRACE && ReadMembers(text) == Got(m, rest)
    ensures ReadValue([OPEN_BRACE] + text) == Got(VObj(m), rest)
  {
    assert ([OPEN_BRACE] + text)[1..] == text;
  }

  lemma ReadEmpty(rest: JsString)
    ensures ReadValue([OPEN_BRACKET, CLOSE_BRACKET] + rest) == Got(VArr([]), rest)
    ensures ReadValue([OPEN_BRACE, CLOSE_BRACE] + rest) == Got(VObj(map[]), rest)
  {
    assert ([OPEN_BRACKET, CLOSE_BRACKET] + rest)[2..] == rest;
    assert ([OPEN_BRACE, CLOSE_BRACE] + rest)[2..] == rest;
  }

  /** Sorting the keys does not change what an object means. */
  lemma SortedMeanings(v: Json)
    requires v.Obj?
    ensures forall k :: k in Sort(KeysOf(v.members)) ==> k in KeysOf(v.members)
    ensures Meaning(v) == VObj(MeaningsOf(v, Sort(KeysOf(v.members))))
    ensures SerializeValue(v) == [OPEN_BRACE] + Pairs(v, Sort(KeysOf(v.members))) + [CLOSE_BRACE]
  {
    hide Sort;
    SortKeeps(KeysOf(v.members));
    MeaningsOfAt(v, Sort(KeysOf(v.members)));
    MeaningsOfAt(v, KeysOf(v.members));
    assert MeaningsOf(v, Sort(KeysOf(v.members))) == MeaningsOf(v, KeysOf(v.members));
  }

  /** Reading a printed value gives its meaning and stops at its end. */
  lemma {:induction false} ReadPrinted(v: Json, rest: JsString)
    requires Ends(rest)
    ensures ReadValue(SerializeValue(v) + rest) == Got(Meaning(v), rest)
    decreases v, 2, 0
  {
    hide *;
    match v {
      case Arr(items) => ReadPrintedArray(v, rest);
      case Obj(members) => ReadPrintedObject(v, rest);
      case _ => ReadPrintedLeaf(v, rest);
    }
  }

  lemma {:induction false} ReadPrintedArray(v: Json, rest: JsString)
    requires v.Arr?
    ensures ReadValue(SerializeValue(v) + rest) == Got(Meaning(v), rest)
    decreases v, 1, 0
  {
    hide ReadValue;
    if v.items == [] {
      ReadEmpty(rest);
      assert SerializeValue(v) + rest == [OPEN_BRACKET, CLOSE_BRACKET] + rest;
    } else {
      var text := Items(v, 0) + [CLOSE_BRACKET] + rest;
      FirstUnit(v.items[0]);
      ReadPrintedItems(v, 0, rest);
      ReadBracketed(Meanings(v, 0), text, rest);
      assert SerializeValue(v) + rest == [OPEN_BRACKET] + text;
    }
  }

  lemma NoMeanings(v: Json)
    requires v.Obj?
    ensures MeaningsOf(v, []) == map[]
  {
  }

  lemma FirstOfPairs(v: Json, keys: seq<JsString>)
    requires v.Obj? && forall k :: k in keys ==> k in KeysOf(v.members)
    ensures if keys == [] then Pairs(v, keys) == [] else Pairs(v, keys) != [] && Pairs(v, keys)[0] == QUOTE
  {
    hide SerializeValue;
    hide Escape;
  }

  lemma {:induction false} ReadPrintedObject(v: Json, rest: JsString)
    requires v.Obj?
    ensures ReadValue(SerializeValue(v) + rest) == Got(Meaning(v), rest)
    decreases v, 1, 0
  {
    hide ReadValue;
    hide SerializeValue;
    hide Meaning;
    hide Sort;
    hide KeysOf;
    hide Pairs;
    hide MeaningsOf;
    hide ReadMembers;
    SortedMeanings(v);
    var keys := Sort(KeysOf(v.members));
    FirstOfPairs(v, keys);
    if keys == [] {
      ReadEmpty(rest);
      NoMeanings(v);
      assert SerializeValue(v) + rest == [OPEN_BRACE, CLOSE_BRACE] + rest;
    } else {
      var text := Pairs(v, keys) + [CLOSE_BRACE] + rest;
      ReadPrintedPairs(v, keys, rest);
      ReadBraced(MeaningsOf(v, keys), text, rest);
      assert SerializeValue(v) + rest == [OPEN_BRACE] + text;
    }
  }

  lemma {:induction false} ReadPrintedItems(v: Json, i: nat, rest: JsString)
    requires v.Arr? && i < |v.items|
    ensures ReadItems(Items(v, i) + [CLOSE_BRACKET] + rest) == Got(Meanings(v, i), rest)
    decreases v, 0, |v.items| - i
  {
    hide ReadItems;
    hide ReadValue;
    hide SerializeValue;
    var item := SerializeValue(v.items[i]);
    var text := Items(v, i) + [CLOSE_BRACKET] + rest;
    if i + 1 == |v.items| {
      ReadPrinted(v.items[i], [CLOSE_BRACKET] + rest);
      assert text == item + ([CLOSE_BRACKET] + rest);
      ReadLastItem(Meaning(v.items[i]), text, rest);
      assert Meanings(v, i) == [Meaning(v.items[i])] + Meanings(v, i + 1) == [Meaning(v.items[i])];
    } else {
      var tail := Items(v, i + 1) + [CLOSE_BRACKET] + rest;
      ReadPrinted(v.items[i], [COMMA] + tail);
      ReadPrintedItems(v, i + 1, rest);
      assert text == item + ([COMMA] + tail);
      ReadNextItem(Meaning(v.items[i]), Meanings(v, i + 1), text, tail, rest);
    }
  }

  lemma {:induction false} ReadPrintedPairs(v: Json, keys: seq<JsString>, rest: JsString)
    requires v.Obj? && keys != [] && forall k :: k in keys ==> k in KeysOf(v.members)
    ensures ReadMembers(Pairs(v, keys) + [CLOSE_BRACE] + rest) == Got(MeaningsOf(v, keys), rest)
    decreases v, 0, |keys|
  {
    hide ReadMembers;
    hide ReadValue;
    hide SerializeValue;
    hide Quoted;
    hide KeysOf;
    var value := v.members[IndexOf(v.members, keys[0])].value;
    var front := Quoted(keys[0]) + [COLON];
    var text := Pairs(v, keys) + [CLOSE_BRACE] + rest;
    if |keys| == 1 {
      ReadPrinted(value, [CLOSE_BRACE] + rest);
      ReadLastMember(keys[0], Meaning(value), SerializeValue(value) + ([CLOSE_BRACE] + rest), rest);
      assert text == front + (SerializeValue(value) + ([CLOSE_BRACE] + rest));
      assert MeaningsOf(v, keys[1..]) == map[];
    } else {
      var tail := Pairs(v, keys[1..]) + [CLOSE_BRACE] + rest;
      ReadPrinted(value, [COMMA] + tail);
      ReadPrintedPairs(v, keys[1..], rest);
      ReadNextMember(keys[0], Meaning(value), MeaningsOf(v, keys[1..]),
                     SerializeValue(value) + ([COMMA] + tail), tail, rest);
      assert text == front + (SerializeValue(value) + ([COMMA] + tail));
    }
  }
}
