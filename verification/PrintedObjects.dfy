/** The canonical bytes of a flat object are the flat text that find_field reads correctly. */
module PrintedObjects {
  import opened Wrappers
  import opened ProtocolTypes
  import opened PayloadParser
  import opened Unicode
  import opened JsonText
  import opened KeySort
  import opened CanonicalJson
  import opened CanonicalBytes
  import opened Extraction
  import opened FlatObjects

  // ---------------------------------------------------------------------------
  // Escaped strings as bytes
  // ---------------------------------------------------------------------------

  lemma {:induction false} EscapedAppend(a: Bytes, b: Bytes)
    requires Escaped(a) && Escaped(b)
    ensures Escaped(a + b)
    decreases |a|
  {
    if a == [] {
      assert a + b == b;
    } else {
      var n := if a[0] == BACKSLASH then 2 else 1;
      EscapedAppend(a[n..], b);
      assert (a + b)[n..] == a[n..] + b;
    }
  }

  lemma EscapePair(x: byte)
    ensures Escaped([BACKSLASH, x])
  {
    assert [BACKSLASH, x][2..] == [];
  }

  lemma EscapedUnit(u: Unit)
    ensures Escaped(Encode(EscapeUnit(u))) && WellFormed(EscapeUnit(u))
  {
    EscapedUnitWellFormed(u);
    var t := EscapeUnit(u);
    if ShortEscape(u) != 0 {
      EncodeAscii(t);
      EscapePair(ShortEscape(u));
    } else if u < 0x20 || High(u) || Low(u) {
      EncodeAscii(t);
      EscapePair(117);
      assert t == [BACKSLASH, 117] + t[2..];
      PlainEscaped(t[2..]);
      EscapedAppend([BACKSLASH, 117], t[2..]);
    } else {
      assert t[1..] == [];
      assert Encode(t) == EncodeUnit(u) + Encode([]) == EncodeUnit(u);
      PlainEscaped(EncodeUnit(u));
    }
  }

  lemma PairEscaped(high: Unit, low: Unit)
    requires High(high) && Low(low)
    ensures Escaped(EncodePair(high, low))
  {
    PlainEscaped(EncodePair(high, low));
  }

  /** What JSON.stringify puts between the quotes is escaped text, in bytes as well. */
  lemma {:induction false} EscapeIsEscaped(s: JsString)
    ensures Escaped(Encode(Escape(s)))
    decreases |s|
  {
    hide Escaped;
    hide EncodePair;
    hide EscapeUnit;
    if s == [] {
      NothingEscaped();
    } else if Paired(s) {
      EscapeIsEscaped(s[2..]);
      PairEscaped(s[0], s[1]);
      var t := Escape(s);
      assert t[2..] == Escape(s[2..]);
      assert Encode(t) == EncodePair(s[0], s[1]) + Encode(Escape(s[2..]));
      EscapedAppend(EncodePair(s[0], s[1]), Encode(Escape(s[2..])));
    } else {
      EscapeIsEscaped(s[1..]);
      EscapedUnit(s[0]);
      EncodeAppend(EscapeUnit(s[0]), Escape(s[1..]));
      EscapedAppend(Encode(EscapeUnit(s[0])), Encode(Escape(s[1..])));
    }
  }

  lemma NothingEscaped()
    ensures Escaped([])
  {
  }

  /** A key that is printed as it is: no quote, backslash, control character or lone surrogate. */
  predicate PlainKey(k: JsString) {
    WellFormed(k) && forall i :: 0 <= i < |k| ==> k[i] >= 0x20 && k[i] != QUOTE && k[i] != BACKSLASH
  }

  lemma PlainFront(k: JsString)
    requires PlainKey(k) && k != []
    ensures Width(k) <= |k| && PlainKey(k[Width(k)..]) && Plain(EncodeFront(k))
    ensures !Paired(k) ==> EscapeUnit(k[0]) == [k[0]]
  {
  }

  lemma {:induction false} PlainKeyVerbatim(k: JsString)
    requires PlainKey(k)
    ensures Escape(k) == k && Plain(Encode(k))
    decreases |k|
  {
    hide PlainKey;
    hide EncodeFront;
    hide EscapeUnit;
    if k != [] {
      PlainFront(k);
      PlainKeyVerbatim(k[Width(k)..]);
      assert k == k[..Width(k)] + k[Width(k)..];
    }
  }

  // ---------------------------------------------------------------------------
  // Flat objects
  // ---------------------------------------------------------------------------

  /** Integers, strings and arrays of strings. */
  predicate FlatJson(v: Json) {
    v.Num? || v.Str? || (v.Arr? && forall i :: 0 <= i < |v.items| ==> v.items[i].Str?)
  }

  ghost predicate FlatObject(v: Json) {
    v.Obj? && forall m :: m in v.members ==> PlainKey(m.key) && FlatJson(m.value)
  }

  function Bodies(v: Json, i: nat): seq<Bytes>
    requires v.Arr? && FlatJson(v) && i <= |v.items|
    decreases |v.items| - i
  {
    if i == |v.items| then [] else [Encode(Escape(v.items[i].s))] + Bodies(v, i + 1)
  }

  function FlatValueOf(v: Json): FlatValue
    requires FlatJson(v)
  {
    match v
    case Num(n) => Int(n)
    case Str(s) => Text(Encode(Escape(s)))
    case Arr(_) => List(Bodies(v, 0))
  }

  function FlatFieldOf(m: Member): FlatField
    requires FlatJson(m.value)
  {
    FlatField(Encode(m.key), FlatValueOf(m.value))
  }

  lemma QuotedBytes(s: JsString)
    ensures Encode(Quoted(s)) == Quote(Encode(Escape(s))) && WellFormed(Quoted(s))
  {
    QuotedWellFormed(s);
    EscapeWellFormed(s);
    EncodeAscii([QUOTE]);
    EncodeAppend([QUOTE], Escape(s));
    EncodeAppend([QUOTE] + Escape(s), [QUOTE]);
  }

  lemma {:induction false} ItemsBytes(v: Json, i: nat)
    requires v.Arr? && FlatJson(v) && i <= |v.items|
    ensures Encode(Items(v, i)) == ListText(Bodies(v, i)) && |Bodies(v, i)| == |v.items| - i
    decreases |v.items| - i
  {
    hide Encode;
    hide Quote;
    hide Quoted;
    if i == |v.items| {
      EncodeAscii([]);
    } else {
      var text := Quoted(v.items[i].s);
      QuotedBytes(v.items[i].s);
      ItemsBytes(v, i + 1);
      assert Bodies(v, i)[1..] == Bodies(v, i + 1);
      if i + 1 == |v.items| {
        assert Items(v, i) == text;
      } else {
        EncodeAscii([COMMA]);
        EncodeAppend([COMMA], Items(v, i + 1));
        EncodeAppend(text, [COMMA] + Items(v, i + 1));
      }
    }
  }

  lemma ValueBytes(v: Json)
    requires FlatJson(v)
    ensures Encode(SerializeValue(v)) == ValueText(FlatValueOf(v))
  {
    hide Encode;
    match v {
      case Num(n) =>
      case Str(s) => QuotedBytes(s);
      case Arr(_) =>
        var items := Items(v, 0);
        ItemsBytes(v, 0);
        ItemsWellFormed(v, 0);
        EncodeAscii([OPEN_BRACKET]);
        EncodeAscii([CLOSE_BRACKET]);
        EncodeAppend([OPEN_BRACKET], items);
        EncodeAppend([OPEN_BRACKET] + items, [CLOSE_BRACKET]);
    }
  }

  /** The member under a key. */
  function MemberAt(v: Json, key: JsString): Member
    requires v.Obj? && key in KeysOf(v.members)
  {
    v.members[IndexOf(v.members, key)]
  }

  function FieldsOf(v: Json, keys: seq<JsString>): (r: seq<FlatField>)
    requires v.Obj? && forall k :: k in keys ==> k in KeysOf(v.members)
    requires forall k :: k in keys ==> FlatJson(MemberAt(v, k).value)
    ensures |r| == |keys|
  {
    if keys == [] then [] else [FlatFieldOf(MemberAt(v, keys[0]))] + FieldsOf(v, keys[1..])
  }

  /** `"key":value`, in bytes. */
  lemma PairBytes(v: Json, key: JsString)
    requires v.Obj? && key in KeysOf(v.members) && PlainKey(key) && FlatJson(MemberAt(v, key).value)
    ensures var text := Quoted(key) + [COLON] + SerializeValue(MemberAt(v, key).value);
            WellFormed(text) && Encode(text) == FieldText(FlatFieldOf(MemberAt(v, key)))
  {
    hide Encode;
    hide Quoted;
    hide SerializeValue;
    hide ValueText;
    var value := MemberAt(v, key).value;
    PlainKeyVerbatim(key);
    QuotedBytes(key);
    ValueBytes(value);
    TextWellFormed(value);
    EncodeAscii([COLON]);
    EncodeAppend(Quoted(key), [COLON]);
    EncodeAppend(Quoted(key) + [COLON], SerializeValue(value));
  }

  /** A list of properties whose first `n` are flat, in bytes. */
  lemma {:induction false} PairsBytes(v: Json, keys: seq<JsString>, n: nat)
    requires v.Obj? && n < |keys| && forall k :: k in keys ==> k in KeysOf(v.members)
    requires forall i :: 0 <= i < n ==> PlainKey(keys[i]) && FlatJson(MemberAt(v, keys[i]).value)
    ensures (forall k :: k in keys[..n] ==> FlatJson(MemberAt(v, k).value))
    ensures Encode(Pairs(v, keys)) + [CLOSE_BRACE]
            == FieldsThen(FieldsOf(v, keys[..n]), Encode(Pairs(v, keys[n..])) + [CLOSE_BRACE])
    decreases n
  {
    hide Encode;
    hide Quoted;
    hide SerializeValue;
    hide FieldText;
    hide FlatFieldOf;
    hide KeysOf;
    hide PlainKey;
    if n == 0 {
      assert keys[0..] == keys;
    } else {
      var rest := keys[1..];
      var text := Quoted(keys[0]) + [COLON] + SerializeValue(MemberAt(v, keys[0]).value);
      PairBytes(v, keys[0]);
      PairsBytes(v, rest, n - 1);
      EncodeAscii([COMMA]);
      EncodeAppend([COMMA], Pairs(v, rest));
      EncodeAppend(text, [COMMA] + Pairs(v, rest));
      assert Pairs(v, keys) == text + ([COMMA] + Pairs(v, rest));
      assert keys[..n][0] == keys[0] && keys[..n][1..] == rest[..n - 1] && rest[n - 1..] == keys[n..];
    }
  }

  /** The list from a flat property on: its bytes, a separator, and some text. */
  lemma PairsFrom(v: Json, keys: seq<JsString>) returns (sep: byte, tail: Bytes)
    requires v.Obj? && keys != [] && forall k :: k in keys ==> k in KeysOf(v.members)
    requires PlainKey(keys[0]) && FlatJson(MemberAt(v, keys[0]).value)
    ensures sep == if |keys| == 1 then CLOSE_BRACE else COMMA
    ensures |keys| == 1 ==> tail == []
    ensures Encode(Pairs(v, keys)) + [CLOSE_BRACE] == FieldText(FlatFieldOf(MemberAt(v, keys[0]))) + [sep] + tail
  {
    hide Encode;
    hide Quoted;
    hide SerializeValue;
    hide FieldText;
    hide FlatFieldOf;
    hide KeysOf;
    hide PlainKey;
    var rest := keys[1..];
    var text := Quoted(keys[0]) + [COLON] + SerializeValue(MemberAt(v, keys[0]).value);
    PairBytes(v, keys[0]);
    if rest == [] {
      sep, tail := CLOSE_BRACE, [];
      assert Pairs(v, keys) == text;
    } else {
      sep, tail := COMMA, Encode(Pairs(v, rest)) + [CLOSE_BRACE];
      EncodeAscii([COMMA]);
      EncodeAppend([COMMA], Pairs(v, rest));
      EncodeAppend(text, [COMMA] + Pairs(v, rest));
      assert Pairs(v, keys) == text + ([COMMA] + Pairs(v, rest));
    }
  }

  /** An object with properties, in bytes. */
  lemma ObjectText(v: Json)
    requires v.Obj? && Sort(KeysOf(v.members)) != []
    ensures forall k :: k in Sort(KeysOf(v.members)) ==> k in KeysOf(v.members)
    ensures Canonicalize(v) == [123] + (Encode(Pairs(v, Sort(KeysOf(v.members)))) + [CLOSE_BRACE])
  {
    hide Encode;
    hide SerializeValue;
    hide Sort;
    hide Pairs;
    hide KeysOf;
    SortedMeanings(v);
    var keys := Sort(KeysOf(v.members));
    EncodeAscii([OPEN_BRACE]);
    EncodeAscii([CLOSE_BRACE]);
    PairsWellFormed(v, keys);
    EncodeAppend([OPEN_BRACE], Pairs(v, keys));
    EncodeAppend([OPEN_BRACE] + Pairs(v, keys), [CLOSE_BRACE]);
  }

  lemma SortedKeysAreKeys(v: Json)
    requires FlatObject(v)
    ensures forall k :: k in Sort(KeysOf(v.members)) <==> k in KeysOf(v.members)
    ensures forall k :: k in KeysOf(v.members) ==>
              MemberAt(v, k).key == k && PlainKey(k) && FlatJson(MemberAt(v, k).value)
  {
    SortKeeps(KeysOf(v.members));
    hide Sort;
    forall k | k in KeysOf(v.members) ensures MemberAt(v, k) in v.members && MemberAt(v, k).key == k {
    }
  }

  /** The fields in the order in which they are printed. */
  ghost function PrintedFields(v: Json): seq<FlatField>
    requires FlatObject(v)
  {
    SortedKeysAreKeys(v);
    FieldsOf(v, Sort(KeysOf(v.members)))
  }

  lemma {:induction false} FieldsOfFront(v: Json, keys: seq<JsString>, n: nat)
    requires v.Obj? && n <= |keys| && forall k :: k in keys ==> k in KeysOf(v.members)
    requires forall k :: k in keys ==> FlatJson(MemberAt(v, k).value)
    ensures FieldsOf(v, keys)[..n] == FieldsOf(v, keys[..n])
    decreases |keys|
  {
    hide FlatFieldOf;
    if n > 0 {
      FieldsOfFront(v, keys[1..], n - 1);
      assert keys[..n][1..] == keys[1..][..n - 1];
    }
  }

  /** The canonical bytes of a flat object. */
  lemma ObjectBytes(v: Json)
    requires FlatObject(v)
    ensures Canonicalize(v) == FlatText(PrintedFields(v))
  {
    hide Encode;
    hide SerializeValue;
    hide Sort;
    hide Pairs;
    hide FieldText;
    hide KeysOf;
    hide PlainKey;
    SortedKeysAreKeys(v);
    var keys := Sort(KeysOf(v.members));
    if keys == [] {
      SortedMeanings(v);
      FirstOfPairs(v, keys);
      EncodeAscii([OPEN_BRACE, CLOSE_BRACE]);
      assert SerializeValue(v) == [OPEN_BRACE, CLOSE_BRACE];
    } else {
      var last := |keys| - 1;
      ObjectText(v);
      PairsBytes(v, keys, last);
      var sep, tail := PairsFrom(v, keys[last..]);
      FieldsOfFront(v, keys, last);
      FieldsOfAt(v, keys, last);
      assert FieldText(PrintedFields(v)[last]) + [sep] + tail == FieldText(PrintedFields(v)[last]) + [CLOSE_BRACE];
    }
  }

  lemma {:induction false} FieldsOfAt(v: Json, keys: seq<JsString>, i: nat)
    requires v.Obj? && forall k :: k in keys ==> k in KeysOf(v.members)
    requires forall k :: k in keys ==> FlatJson(MemberAt(v, k).value)
    requires i < |keys|
    ensures FieldsOf(v, keys)[i] == FlatFieldOf(MemberAt(v, keys[i]))
    decreases |keys|
  {
    hide FlatFieldOf;
    if i > 0 {
      FieldsOfAt(v, keys[1..], i - 1);
    }
  }

  lemma {:induction false} BodiesEscaped(v: Json, i: nat)
    requires v.Arr? && FlatJson(v) && i <= |v.items|
    ensures forall k :: 0 <= k < |Bodies(v, i)| ==> Escaped(Bodies(v, i)[k])
    decreases |v.items| - i
  {
    hide Escaped;
    if i < |v.items| {
      EscapeIsEscaped(v.items[i].s);
      BodiesEscaped(v, i + 1);
    }
  }

  lemma FieldGood(m: Member)
    requires PlainKey(m.key) && FlatJson(m.value)
    ensures GoodField(FlatFieldOf(m))
  {
    hide Escaped;
    hide Plain;
    PlainKeyVerbatim(m.key);
    match m.value {
      case Num(_) =>
      case Str(s) => EscapeIsEscaped(s);
      case Arr(_) => BodiesEscaped(m.value, 0);
    }
  }

  lemma PrintedFieldsGood(v: Json)
    requires FlatObject(v)
    ensures GoodFields(PrintedFields(v))
  {
    hide GoodField;
    hide Sort;
    hide KeysOf;
    hide FieldsOf;
    SortedKeysAreKeys(v);
    var keys := Sort(KeysOf(v.members));
    forall i | 0 <= i < |keys| ensures GoodField(PrintedFields(v)[i]) {
      FieldsOfAt(v, keys, i);
      FieldGood(MemberAt(v, keys[i]));
    }
  }

  /** The printed keys, as bytes. */
  lemma PrintedKeys(v: Json, i: nat)
    requires FlatObject(v) && i < |Sort(KeysOf(v.members))|
    ensures i < |PrintedFields(v)| && PrintedFields(v)[i].key == Encode(Sort(KeysOf(v.members))[i])
  {
    hide Sort;
    hide KeysOf;
    hide FieldsOf;
    SortedKeysAreKeys(v);
    FieldsOfAt(v, Sort(KeysOf(v.members)), i);
  }

  // ---------------------------------------------------------------------------
  // The round trip
  // ---------------------------------------------------------------------------

  /** Every property printed up to and including a key is flat and under a plain key. */
  ghost predicate FlatUpTo(v: Json, key: JsString) {
    v.Obj? && forall k :: k in KeysOf(v.members) && AtMost(k, key) ==> PlainKey(k) && FlatJson(MemberAt(v, k).value)
  }

  /** The keys printed before one. */
  lemma KeysBefore(v: Json, key: JsString) returns (n: nat)
    requires Wf(v) && FlatUpTo(v, key) && key in KeysOf(v.members)
    ensures forall k :: k in Sort(KeysOf(v.members)) ==> k in KeysOf(v.members)
    ensures n < |Sort(KeysOf(v.members))| && Sort(KeysOf(v.members))[n] == key
    ensures forall i :: 0 <= i <= n ==>
              PlainKey(Sort(KeysOf(v.members))[i]) && FlatJson(MemberAt(v, Sort(KeysOf(v.members))[i]).value)
    ensures forall i :: 0 <= i < n ==> Sort(KeysOf(v.members))[i] != key
  {
    hide Sort;
    hide AtMost;
    hide KeysOf;
    hide PlainKey;
    var keys := Sort(KeysOf(v.members));
    SortKeeps(KeysOf(v.members));
    SortSorts(KeysOf(v.members));
    TotalOrder(key, key);
    n :| 0 <= n < |keys| && keys[n] == key;
    forall i | 0 <= i <= n ensures PlainKey(keys[i]) && FlatJson(MemberAt(v, keys[i]).value) {
      assert AtMost(keys[i], key);
    }
  }

  /** The flat fields of some keys are good, and of other names than a key that is not among them. */
  lemma {:induction false} FieldsOfGood(v: Json, keys: seq<JsString>, key: JsString)
    requires v.Obj? && forall k :: k in keys ==> k in KeysOf(v.members)
    requires forall k :: k in keys ==> PlainKey(k) && FlatJson(MemberAt(v, k).value)
    requires PlainKey(key) && key !in keys
    ensures GoodFields(FieldsOf(v, keys))
    ensures forall i :: 0 <= i < |keys| ==> FieldsOf(v, keys)[i].key != Encode(key)
    decreases |keys|
  {
    hide GoodField;
    hide PlainKey;
    hide KeysOf;
    hide Encode;
    if keys != [] {
      FieldsOfGood(v, keys[1..], key);
      FieldGood(MemberAt(v, keys[0]));
      DifferentKeys(keys[0], key);
    }
  }

  /**
   * An integer or string property comes back from the canonical bytes exactly as printed, whatever
   * is printed after it.
   */
  lemma PropertyComesBack(v: Json, key: JsString)
    requires Wf(v) && FlatUpTo(v, key) && key in KeysOf(v.members) && !GapName(Encode(key))
    requires !MemberAt(v, key).value.Arr?
    ensures FlatJson(MemberAt(v, key).value)
    ensures Field(Canonicalize(v), Encode(key)) == Success(Some(Printed(FlatValueOf(MemberAt(v, key).value))))
  {
    hide Sort;
    hide KeysOf;
    hide FieldsOf;
    hide PlainKey;
    hide GapName;
    hide Field;
    hide FieldsThen;
    hide FieldText;
    hide Canonicalize;
    hide Printed;
    hide GoodFields;
    hide Encode;
    hide Pairs;
    var n := KeysBefore(v, key);
    var keys := Sort(KeysOf(v.members));
    ObjectText(v);
    PairsBytes(v, keys, n);
    var sep, tail := PairsFrom(v, keys[n..]);
    FieldGood(MemberAt(v, key));
    FieldsOfGood(v, keys[..n], key);
    FirstComesBack(FieldsOf(v, keys[..n]), FlatFieldOf(MemberAt(v, key)), sep, tail);
  }

  lemma DifferentKeys(a: JsString, b: JsString)
    requires PlainKey(a) && PlainKey(b) && a != b
    ensures Encode(a) != Encode(b)
  {
    if Encode(a) == Encode(b) {
      EncodeInjective(a, b);
    }
  }

  /** A property that is not there is not found. */
  lemma AbsentProperty(v: Json, name: Bytes)
    requires FlatObject(v) && Plain(name) && !GapName(name)
    requires forall k :: k in KeysOf(v.members) ==> Encode(k) != name
    ensures Field(Canonicalize(v), name) == Success(None)
  {
    hide Sort;
    hide KeysOf;
    hide FieldsOf;
    hide GapName;
    hide Plain;
    hide Field;
    hide FlatText;
    hide Canonicalize;
    hide GoodFields;
    SortedKeysAreKeys(v);
    var keys, fields := Sort(KeysOf(v.members)), PrintedFields(v);
    forall i | 0 <= i < |fields| ensures fields[i].key != name {
      PrintedKeys(v, i);
      assert keys[i] in keys;
    }
    ObjectBytes(v);
    PrintedFieldsGood(v);
    AbsentField(fields, name);
  }
}
