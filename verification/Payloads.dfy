/**
 * The builders of governance and press payloads (governance/scripts/registry.ts and
 * press/src/chain/registry.ts): what they put in, the gates read out.
 */
module Payloads {
  import opened Wrappers
  import opened ProtocolTypes
  import opened PayloadParser
  import opened Unicode
  import opened JsonText
  import opened KeySort
  import opened CanonicalJson
  import opened Extraction
  import opened FlatObjects
  import opened PrintedObjects

  const OP: JsString := FIELD_OP
  const GOVERNANCE_VERSION: JsString := FIELD_GOVERNANCE_VERSION
  const NONCE: JsString := FIELD_NONCE
  const SEQUENCE: JsString := FIELD_SEQUENCE
  const TIMESTAMP: JsString := Ascii("timestamp")
  const PRESS_ADDRESS: JsString := Ascii("press_address")

  // ---------------------------------------------------------------------------
  // Building a JavaScript object
  // ---------------------------------------------------------------------------

  /** The value under a key, if there is one. */
  function PropertyOf(members: seq<Member>, key: JsString): Option<Json> {
    if members == [] then None
    else if members[0].key == key then Some(members[0].value)
    else PropertyOf(members[1..], key)
  }

  /** A property set by an object literal: it keeps its place when the key is already there. */
  function SetProperty(members: seq<Member>, key: JsString, value: Json): seq<Member> {
    if members == [] then [Member(key, value)]
    else if members[0].key == key then [Member(key, value)] + members[1..]
    else [members[0]] + SetProperty(members[1..], key, value)
  }

  /** `...fields` */
  function Spread(members: seq<Member>, fields: seq<Member>): seq<Member>
    decreases |fields|
  {
    if fields == [] then members
    else Spread(SetProperty(members, fields[0].key, fields[0].value), fields[1..])
  }

  lemma {:induction false} PropertyIsMember(members: seq<Member>, key: JsString)
    ensures PropertyOf(members, key)
            == if key in KeysOf(members) then Some(members[IndexOf(members, key)].value) else None
    decreases |members|
  {
    if members != [] {
      PropertyIsMember(members[1..], key);
    }
  }

  lemma {:induction false} SetPropertySets(members: seq<Member>, key: JsString, value: Json, other: JsString)
    ensures PropertyOf(SetProperty(members, key, value), other)
            == if other == key then Some(value) else PropertyOf(members, other)
    decreases |members|
  {
    if members != [] && members[0].key != key {
      SetPropertySets(members[1..], key, value, other);
      assert SetProperty(members, key, value)[1..] == SetProperty(members[1..], key, value);
    } else if members != [] {
      assert SetProperty(members, key, value)[1..] == members[1..];
    }
  }

  lemma {:induction false} SetPropertyKeys(members: seq<Member>, key: JsString, value: Json)
    ensures forall k :: k in KeysOf(SetProperty(members, key, value)) <==> k == key || k in KeysOf(members)
    ensures Unique(KeysOf(members)) ==> Unique(KeysOf(SetProperty(members, key, value)))
    ensures forall m :: m in SetProperty(members, key, value) ==> m == Member(key, value) || m in members
    decreases |members|
  {
    if members != [] {
      var result, rest := SetProperty(members, key, value), members[1..];
      assert KeysOf(members)[1..] == KeysOf(rest);
      if members[0].key == key {
        assert result[1..] == rest;
        assert KeysOf(result) == KeysOf(members);
      } else {
        SetPropertyKeys(rest, key, value);
        assert result[1..] == SetProperty(rest, key, value);
        UniqueCons(members[0].key, KeysOf(rest), KeysOf(result[1..]));
      }
    }
  }

  lemma UniqueCons(k: JsString, keys: seq<JsString>, keys': seq<JsString>)
    requires Unique(keys) ==> Unique(keys')
    requires k !in keys ==> k !in keys'
    ensures Unique([k] + keys) ==> Unique([k] + keys')
  {
    if Unique([k] + keys) {
      forall i, j | 0 <= i < j < |keys| ensures keys[i] != keys[j] {
        assert ([k] + keys)[i + 1] != ([k] + keys)[j + 1];
      }
      forall j | 0 <= j < |keys| ensures k != keys[j] {
        assert ([k] + keys)[0] != ([k] + keys)[j + 1];
      }
    }
  }

  /** Every member up to a key, in printed order, is flat and under a plain key. */
  ghost predicate FlatThrough(members: seq<Member>, key: JsString) {
    forall m :: m in members && AtMost(m.key, key) ==> PlainKey(m.key) && FlatJson(m.value)
  }

  /** A JavaScript object that is flat up to a key; what is printed after it may be anything. */
  ghost predicate Readable(members: seq<Member>, key: JsString) {
    Wf(Obj(members)) && FlatThrough(members, key)
  }

  lemma SetPropertyReadable(members: seq<Member>, key: JsString, value: Json, upTo: JsString)
    requires Readable(members, upTo) && PlainKey(key) && FlatJson(value)
    ensures Readable(SetProperty(members, key, value), upTo)
  {
    hide PlainKey;
    hide AtMost;
    hide SetProperty;
    SetPropertyWf(members, key, value);
    SetPropertyKeys(members, key, value);
  }

  lemma SetPropertyWf(members: seq<Member>, key: JsString, value: Json)
    requires Wf(Obj(members)) && Wf(value)
    ensures Wf(Obj(SetProperty(members, key, value)))
  {
    hide SetProperty;
    SetPropertyKeys(members, key, value);
    var result := SetProperty(members, key, value);
    forall i | 0 <= i < |result| ensures Wf(result[i].value) {
      assert result[i] in result;
    }
  }

  lemma UniqueTail(fields: seq<Member>)
    requires fields != [] && Unique(KeysOf(fields))
    ensures Unique(KeysOf(fields[1..])) && fields[0].key !in KeysOf(fields[1..])
  {
    assert KeysOf(fields)[1..] == KeysOf(fields[1..]);
    var rest := KeysOf(fields[1..]);
    forall i, j | 0 <= i < j < |rest| ensures rest[i] != rest[j] {
      assert KeysOf(fields)[i + 1] != KeysOf(fields)[j + 1];
    }
    forall j | 0 <= j < |rest| ensures rest[j] != fields[0].key {
      assert KeysOf(fields)[0] != KeysOf(fields)[j + 1];
    }
  }

  /** Spread properties win over earlier ones. */
  lemma {:induction false} SpreadSets(members: seq<Member>, fields: seq<Member>, key: JsString)
    requires Unique(KeysOf(fields))
    ensures PropertyOf(Spread(members, fields), key)
            == if PropertyOf(fields, key).Some? then PropertyOf(fields, key) else PropertyOf(members, key)
    decreases |fields|
  {
    if fields != [] {
      UniqueTail(fields);
      SpreadSets(SetProperty(members, fields[0].key, fields[0].value), fields[1..], key);
      SetPropertySets(members, fields[0].key, fields[0].value, key);
      PropertyIsMember(fields[1..], key);
    }
  }

  lemma {:induction false} SpreadReadable(members: seq<Member>, fields: seq<Member>, upTo: JsString)
    requires Readable(members, upTo) && Readable(fields, upTo)
    ensures Readable(Spread(members, fields), upTo)
    decreases |fields|
  {
    hide PlainKey;
    hide FlatJson;
    hide AtMost;
    hide SetProperty;
    hide KeysOf;
    if fields != [] {
      var next := SetProperty(members, fields[0].key, fields[0].value);
      assert fields[0] in fields && Wf(fields[0].value);
      SetPropertyWf(members, fields[0].key, fields[0].value);
      SetPropertyKeys(members, fields[0].key, fields[0].value);
      UniqueTail(fields);
      SpreadReadable(next, fields[1..], upTo);
    }
  }

  // ---------------------------------------------------------------------------
  // Names
  // ---------------------------------------------------------------------------

  lemma NameIsPlain(s: string)
    requires forall i :: 0 <= i < |s| ==> 32 as char <= s[i] < 128 as char && s[i] != '"' && s[i] != '\\'
    ensures PlainKey(Ascii(s)) && Encode(Ascii(s)) == Ascii(s)
  {
    hide Encode;
    hide WellFormed;
    EncodeAscii(Ascii(s));
  }

  lemma NamesArePlain()
    ensures PlainKey(OP) && PlainKey(GOVERNANCE_VERSION) && PlainKey(NONCE) && PlainKey(SEQUENCE)
    ensures PlainKey(TIMESTAMP) && PlainKey(PRESS_ADDRESS)
    ensures Encode(OP) == FIELD_OP && Encode(GOVERNANCE_VERSION) == FIELD_GOVERNANCE_VERSION
    ensures Encode(NONCE) == FIELD_NONCE && Encode(SEQUENCE) == FIELD_SEQUENCE
  {
    hide Encode;
    hide PlainKey;
    NameIsPlain("op");
    NameIsPlain("governance_version");
    NameIsPlain("nonce");
    NameIsPlain("sequence");
    NameIsPlain("timestamp");
    NameIsPlain("press_address");
  }

  lemma NamesDiffer()
    ensures OP != GOVERNANCE_VERSION && OP != NONCE && OP != TIMESTAMP && OP != SEQUENCE && OP != PRESS_ADDRESS
    ensures GOVERNANCE_VERSION != NONCE && GOVERNANCE_VERSION != TIMESTAMP && NONCE != TIMESTAMP
    ensures SEQUENCE != TIMESTAMP && SEQUENCE != PRESS_ADDRESS
  {
    assert |OP| == 2 && |GOVERNANCE_VERSION| == 18 && |NONCE| == 5 && |TIMESTAMP| == 9;
    assert |SEQUENCE| == 8 && |PRESS_ADDRESS| == 13;
  }

  /** The order in which the names are printed. */
  lemma NamesInOrder()
    ensures AtMost(GOVERNANCE_VERSION, OP) && AtMost(NONCE, OP) && AtMost(OP, OP)
    ensures AtMost(OP, SEQUENCE) && AtMost(SEQUENCE, SEQUENCE)
  {
    assert GOVERNANCE_VERSION[0] == 103 && NONCE[0] == 110 && OP[0] == 111 && SEQUENCE[0] == 115;
    TotalOrder(OP, OP);
    TotalOrder(SEQUENCE, SEQUENCE);
  }

  /** The field names that the gates and the sub-card check look for. */
  ghost predicate InUse(name: Bytes) {
    name in {FIELD_OP, FIELD_SEQUENCE, FIELD_GOVERNANCE_VERSION, FIELD_NONCE, FIELD_DEADLINE_BLOCK,
             FIELD_SUB_CARD_ADDRESS, FIELD_SUB_CARD_DOC_CID}
  }

  /** None of them can be misread. */
  lemma NamesAreSafe(name: Bytes)
    requires InUse(name)
    ensures Plain(name) && !GapName(name)
  {
    hide IntBytes;
    hide FlatObjects.GapName;
    FirstLetters();
    NamesInUseArePlain(name);
    GapNamesStart(name);
  }

  lemma FirstLetters()
    ensures FIELD_OP[..1] == [111] && FIELD_SEQUENCE[..1] == [115] && FIELD_GOVERNANCE_VERSION[..1] == [103]
    ensures FIELD_NONCE[..1] == [110] && FIELD_DEADLINE_BLOCK[..1] == [100]
    ensures FIELD_SUB_CARD_ADDRESS[..1] == [115] && FIELD_SUB_CARD_DOC_CID[..1] == [115]
  {
  }

  lemma NamesInUseArePlain(name: Bytes)
    requires InUse(name)
    ensures Plain(name)
  {
  }

  lemma GapNamesStart(name: Bytes)
    ensures GapName(name) ==> name != [] && name[0] in {COLON, COMMA, 93}
  {
    hide IntBytes;
    assert forall n: int :: ([COLON] + IntBytes(n) + [COMMA])[0] == COLON;
  }

  // ---------------------------------------------------------------------------
  // Reading a property back
  // ---------------------------------------------------------------------------

  lemma ReadableIsFlat(members: seq<Member>, key: JsString)
    requires Readable(members, key)
    ensures FlatUpTo(Obj(members), key)
  {
    hide PlainKey;
    hide AtMost;
    hide FlatJson;
    forall k | k in KeysOf(members) && AtMost(k, key)
      ensures PlainKey(k) && FlatJson(MemberAt(Obj(members), k).value)
    {
      assert MemberAt(Obj(members), k) in members && MemberAt(Obj(members), k).key == k;
    }
  }

  /** A property of an object, read from its canonical bytes. */
  lemma ReadsBack(members: seq<Member>, key: JsString)
    requires Readable(members, key) && PlainKey(key) && !GapName(Encode(key))
    requires PropertyOf(members, key).Some? && !PropertyOf(members, key).value.Arr?
    ensures FlatJson(PropertyOf(members, key).value)
    ensures Field(Canonicalize(Obj(members)), Encode(key))
            == Success(Some(Printed(FlatValueOf(PropertyOf(members, key).value))))
  {
    hide PlainKey;
    hide FlatUpTo;
    hide GapName;
    hide Field;
    hide Canonicalize;
    hide Printed;
    hide Wf;
    ReadableIsFlat(members, key);
    PropertyIsMember(members, key);
    PropertyIsFlat(members, key);
    PropertyComesBack(Obj(members), key);
  }

  lemma PropertyIsFlat(members: seq<Member>, key: JsString)
    requires FlatThrough(members, key) && key in KeysOf(members)
    ensures FlatJson(members[IndexOf(members, key)].value)
  {
    hide PlainKey;
    TotalOrder(key, key);
    assert members[IndexOf(members, key)] in members;
  }

  lemma ReadableIsUnique(members: seq<Member>, key: JsString)
    requires Readable(members, key)
    ensures Unique(KeysOf(members))
  {
  }

  /** Flatness up to a key is flatness up to every earlier one. */
  lemma ReadableEarlier(members: seq<Member>, key: JsString, earlier: JsString)
    requires Readable(members, key) && AtMost(earlier, key)
    ensures Readable(members, earlier)
  {
    hide PlainKey;
    hide AtMost;
    hide Wf;
    forall m | m in members && AtMost(m.key, earlier) ensures AtMost(m.key, key) {
      Transitive(m.key, earlier, key);
    }
  }

  lemma {:induction false} DecimalValue(n: nat)
    ensures IsAscii(Decimal(n)) && AllDigits(Decimal(n)) && DigitsValue(Decimal(n)) == n
  {
    var d: Bytes := [DIGIT_0 + n % 10];
    if n < 10 {
      assert Decimal(n)[..0] == [];
    } else {
      DecimalValue(n / 10);
      assert Decimal(n)[..|Decimal(n)| - 1] == Decimal(n / 10);
    }
  }

  /** A printed integer is read as a number exactly when it is one of 64 bits without a sign. */
  lemma IntegerValue(n: int)
    ensures U64Of(IntBytes(n)) == if 0 <= n < U64_RANGE then Some(n) else None
  {
    if n >= 0 {
      DecimalValue(n);
      EncodeAscii(Decimal(n));
    } else {
      IntTextAscii(n);
      EncodeAscii(IntText(n));
      assert IntText(n)[0] == MINUS;
    }
  }

  /** A number property of any readable object, as the gates extract numbers. */
  lemma NumberComesBack(members: seq<Member>, key: JsString)
    requires Readable(members, key) && PlainKey(key) && !GapName(Encode(key))
    requires PropertyOf(members, key).Some? && PropertyOf(members, key).value.Num?
    ensures var n := PropertyOf(members, key).value.n;
            Number(Canonicalize(Obj(members)), Encode(key)) == Success(if n >= 0 then Some(n) else None)
  {
    hide PlainKey;
    hide Readable;
    hide GapName;
    hide Field;
    hide Canonicalize;
    hide U64Of;
    hide IntBytes;
    ReadsBack(members, key);
    IntegerValue(PropertyOf(members, key).value.n);
  }

  // ---------------------------------------------------------------------------
  // buildGovPayload
  // ---------------------------------------------------------------------------

  function Stamped(members: seq<Member>, version: SafeInt, nonce: JsString, timestamp: JsString): seq<Member> {
    SetProperty(SetProperty(SetProperty(members, GOVERNANCE_VERSION, Num(version)), NONCE, Str(nonce)),
                TIMESTAMP, Str(timestamp))
  }

  /** The payload, before it is printed. Version, nonce and clock are what the builder found. */
  function GovPayload(op: JsString, fields: seq<Member>, version: SafeInt, nonce: JsString, timestamp: JsString)
    : seq<Member>
  {
    Stamped(Spread([Member(OP, Str(op))], fields), version, nonce, timestamp)
  }

  lemma StampedSets(members: seq<Member>, version: SafeInt, nonce: JsString, timestamp: JsString)
    ensures var p := Stamped(members, version, nonce, timestamp);
            && PropertyOf(p, GOVERNANCE_VERSION) == Some(Num(version))
            && PropertyOf(p, NONCE) == Some(Str(nonce))
            && PropertyOf(p, OP) == PropertyOf(members, OP)
    ensures forall key ::
              PropertyOf(Stamped(members, version, nonce, timestamp), key)
              == if key == TIMESTAMP then Some(Str(timestamp))
                 else if key == NONCE then Some(Str(nonce))
                 else if key == GOVERNANCE_VERSION then Some(Num(version))
                 else PropertyOf(members, key)
  {
    hide SetProperty;
    hide PropertyOf;
    NamesDiffer();
    var one := SetProperty(members, GOVERNANCE_VERSION, Num(version));
    var two := SetProperty(one, NONCE, Str(nonce));
    forall key ensures PropertyOf(Stamped(members, version, nonce, timestamp), key)
                       == if key == TIMESTAMP then Some(Str(timestamp))
                          else if key == NONCE then Some(Str(nonce))
                          else if key == GOVERNANCE_VERSION then Some(Num(version))
                          else PropertyOf(members, key)
    {
      SetPropertySets(members, GOVERNANCE_VERSION, Num(version), key);
      SetPropertySets(one, NONCE, Str(nonce), key);
      SetPropertySets(two, TIMESTAMP, Str(timestamp), key);
    }
  }

  /** The whole payload, property by property: the stamps win over the fields, and those over the op. */
  lemma GovPayloadProperties(op: JsString, fields: seq<Member>, version: SafeInt, nonce: JsString,
                             timestamp: JsString, key: JsString)
    requires Unique(KeysOf(fields))
    ensures PropertyOf(GovPayload(op, fields, version, nonce, timestamp), key)
            == if key == Ascii("timestamp") then Some(Str(timestamp))
               else if key == Ascii("nonce") then Some(Str(nonce))
               else if key == Ascii("governance_version") then Some(Num(version))
               else if key in KeysOf(fields) then Some(fields[IndexOf(fields, key)].value)
               else if key == Ascii("op") then Some(Str(op))
               else None
  {
    hide Stamped;
    hide Spread;
    hide Ascii;
    hide Unique;
    var first := [Member(OP, Str(op))];
    StampedSets(Spread(first, fields), version, nonce, timestamp);
    SpreadSets(first, fields, key);
    PropertyIsMember(fields, key);
  }

  lemma StampedReadable(members: seq<Member>, version: SafeInt, nonce: JsString, timestamp: JsString, upTo: JsString)
    requires Readable(members, upTo)
    ensures Readable(Stamped(members, version, nonce, timestamp), upTo)
  {
    hide PlainKey;
    hide SetProperty;
    hide Readable;
    NamesArePlain();
    var one := SetProperty(members, GOVERNANCE_VERSION, Num(version));
    SetPropertyReadable(members, GOVERNANCE_VERSION, Num(version), upTo);
    SetPropertyReadable(one, NONCE, Str(nonce), upTo);
    SetPropertyReadable(SetProperty(one, NONCE, Str(nonce)), TIMESTAMP, Str(timestamp), upTo);
  }

  lemma OneMember(op: JsString, upTo: JsString)
    ensures Readable([Member(OP, Str(op))], upTo) && PropertyOf([Member(OP, Str(op))], OP) == Some(Str(op))
  {
    hide Readable;
    hide PlainKey;
    hide PropertyOf;
    NamesArePlain();
    SingleMember(OP, Str(op), upTo);
  }

  lemma SingleMember(key: JsString, value: Json, upTo: JsString)
    requires PlainKey(key) && FlatJson(value)
    ensures Readable([Member(key, value)], upTo) && PropertyOf([Member(key, value)], key) == Some(value)
  {
    hide PlainKey;
    hide AtMost;
    KeysOfAt([Member(key, value)]);
    FlatIsWf(value);
    assert KeysOf([Member(key, value)]) == [key];
  }

  lemma FlatIsWf(value: Json)
    requires FlatJson(value)
    ensures Wf(value)
  {
    if value.Arr? {
      forall i | 0 <= i < |value.items| ensures Wf(value.items[i]) {
        assert value.items[i].Str?;
      }
    }
  }

  /** The op that ends up in a payload: the builder's, unless the extra fields bring their own. */
  function FinalOp(op: JsString, fields: seq<Member>): Json {
    match PropertyOf(fields, OP)
    case Some(own) => own
    case None => Str(op)
  }

  /** What is read of the op of an object. */
  lemma OpComesBack(members: seq<Member>, expected: Bytes)
    requires Readable(members, OP) && PropertyOf(members, OP).Some? && PropertyOf(members, OP).value.Str?
    ensures VerifyOp(Canonicalize(Obj(members)), expected)
            == Success(expected == Encode(Escape(PropertyOf(members, OP).value.s)))
  {
    hide PlainKey;
    hide Readable;
    hide GapName;
    hide Field;
    hide Canonicalize;
    hide Encode;
    hide Escape;
    NamesArePlain();
    NamesAreSafe(FIELD_OP);
    ReadsBack(members, OP);
  }

  lemma NonceComesBack(members: seq<Member>)
    requires Readable(members, NONCE) && PropertyOf(members, NONCE).Some? && PropertyOf(members, NONCE).value.Str?
    ensures ExtractNonceBytes(Canonicalize(Obj(members)))
            == Success(Some(Encode(Escape(PropertyOf(members, NONCE).value.s))))
  {
    hide PlainKey;
    hide Readable;
    hide GapName;
    hide Field;
    hide Canonicalize;
    hide Encode;
    hide Escape;
    NamesArePlain();
    NamesAreSafe(FIELD_NONCE);
    ReadsBack(members, NONCE);
  }

  lemma VersionComesBack(members: seq<Member>)
    requires Readable(members, GOVERNANCE_VERSION) && PropertyOf(members, GOVERNANCE_VERSION).Some?
    requires PropertyOf(members, GOVERNANCE_VERSION).value.Num?
    ensures var n := PropertyOf(members, GOVERNANCE_VERSION).value.n;
            ExtractGovernanceVersion(Canonicalize(Obj(members)))
            == Success(if n >= 0 then Some(n % U32_RANGE) else None)
  {
    hide Encode;
    hide PropertyOf;
    hide Ascii;
    hide PlainKey;
    hide Readable;
    hide GapName;
    hide Number;
    hide Canonicalize;
    NamesArePlain();
    NamesAreSafe(FIELD_GOVERNANCE_VERSION);
    NumberComesBack(members, GOVERNANCE_VERSION);
  }

  lemma SequenceComesBack(members: seq<Member>)
    requires Readable(members, SEQUENCE) && PropertyOf(members, SEQUENCE).Some?
    requires PropertyOf(members, SEQUENCE).value.Num?
    ensures var n := PropertyOf(members, SEQUENCE).value.n;
            ExtractSequence(Canonicalize(Obj(members))) == Success(if n >= 0 then Some(n) else None)
  {
    hide Encode;
    hide PropertyOf;
    hide Ascii;
    hide PlainKey;
    hide Readable;
    hide GapName;
    hide Number;
    hide Canonicalize;
    NamesArePlain();
    NamesAreSafe(FIELD_SEQUENCE);
    NumberComesBack(members, SEQUENCE);
  }

  /**
   * Everything the gate reads of a payload built by the governance scripts comes back: the
   * version, the nonce as printed, and the op that is in it. Only extra fields that are printed
   * up to the op need be flat.
   */
  lemma PayloadComesBack(op: JsString, fields: seq<Member>, version: SafeInt, nonce: JsString, timestamp: JsString)
    requires Readable(fields, OP) && 0 <= version < U32_RANGE
    ensures var p := Canonicalize(Obj(GovPayload(op, fields, version, nonce, timestamp)));
            && ExtractGovernanceVersion(p) == Success(Some(version))
            && ExtractNonceBytes(p) == Success(Some(Encode(Escape(nonce))))
            && (FinalOp(op, fields).Str? ==>
                  forall expected ::
                    VerifyOp(p, expected) == Success(expected == Encode(Escape(FinalOp(op, fields).s))))
  {
    hide Canonicalize;
    hide Readable;
    hide Spread;
    hide Stamped;
    hide Encode;
    hide Escape;
    hide AtMost;
    hide VerifyOp;
    hide PropertyOf;
    hide ExtractGovernanceVersion;
    hide ExtractNonceBytes;
    var first := [Member(OP, Str(op))];
    var body := Spread(first, fields);
    var members := Stamped(body, version, nonce, timestamp);
    OneMember(op, OP);
    SpreadReadable(first, fields, OP);
    ReadableIsUnique(fields, OP);
    SpreadSets(first, fields, OP);
    StampedReadable(body, version, nonce, timestamp, OP);
    StampedSets(body, version, nonce, timestamp);
    NamesInOrder();
    ReadableEarlier(members, OP, GOVERNANCE_VERSION);
    ReadableEarlier(members, OP, NONCE);
    VersionComesBack(members);
    NonceComesBack(members);
    if FinalOp(op, fields).Str? {
      forall expected
        ensures VerifyOp(Canonicalize(Obj(members)), expected)
                == Success(expected == Encode(Escape(FinalOp(op, fields).s)))
      {
        OpComesBack(members, expected);
      }
    }
  }

  /** A nonce without characters that need escaping, like the hex ones in use, is read as it is. */
  lemma PlainNonce(nonce: JsString)
    requires PlainKey(nonce)
    ensures Encode(Escape(nonce)) == Encode(nonce)
  {
    PlainKeyVerbatim(nonce);
  }

  // ---------------------------------------------------------------------------
  // buildAndSignPayload
  // ---------------------------------------------------------------------------

  function PressStamped(members: seq<Member>, press: JsString, sequence: SafeInt, timestamp: JsString): seq<Member> {
    SetProperty(SetProperty(SetProperty(members, PRESS_ADDRESS, Str(press)), SEQUENCE, Num(sequence)),
                TIMESTAMP, Str(timestamp))
  }

  /** A press payload, before it is printed. */
  function PressPayload(op: JsString, fields: seq<Member>, press: JsString, sequence: SafeInt, timestamp: JsString)
    : seq<Member>
  {
    PressStamped(Spread([Member(OP, Str(op))], fields), press, sequence, timestamp)
  }

  lemma PressStampedSets(members: seq<Member>, press: JsString, sequence: SafeInt, timestamp: JsString)
    ensures var p := PressStamped(members, press, sequence, timestamp);
            PropertyOf(p, SEQUENCE) == Some(Num(sequence)) && PropertyOf(p, OP) == PropertyOf(members, OP)
    ensures forall key ::
              PropertyOf(PressStamped(members, press, sequence, timestamp), key)
              == if key == TIMESTAMP then Some(Str(timestamp))
                 else if key == SEQUENCE then Some(Num(sequence))
                 else if key == PRESS_ADDRESS then Some(Str(press))
                 else PropertyOf(members, key)
  {
    hide SetProperty;
    hide PropertyOf;
    NamesDiffer();
    var one := SetProperty(members, PRESS_ADDRESS, Str(press));
    var two := SetProperty(one, SEQUENCE, Num(sequence));
    forall key ensures PropertyOf(PressStamped(members, press, sequence, timestamp), key)
                       == if key == TIMESTAMP then Some(Str(timestamp))
                          else if key == SEQUENCE then Some(Num(sequence))
                          else if key == PRESS_ADDRESS then Some(Str(press))
                          else PropertyOf(members, key)
    {
      SetPropertySets(members, PRESS_ADDRESS, Str(press), key);
      SetPropertySets(one, SEQUENCE, Num(sequence), key);
      SetPropertySets(two, TIMESTAMP, Str(timestamp), key);
    }
  }

  lemma PressPayloadProperties(op: JsString, fields: seq<Member>, press: JsString, sequence: SafeInt,
                               timestamp: JsString, key: JsString)
    requires Unique(KeysOf(fields))
    ensures PropertyOf(PressPayload(op, fields, press, sequence, timestamp), key)
            == if key == Ascii("timestamp") then Some(Str(timestamp))
               else if key == Ascii("sequence") then Some(Num(sequence))
               else if key == Ascii("press_address") then Some(Str(press))
               else if key in KeysOf(fields) then Some(fields[IndexOf(fields, key)].value)
               else if key == Ascii("op") then Some(Str(op))
               else None
  {
    hide PressStamped;
    hide Spread;
    hide Ascii;
    hide Unique;
    var first := [Member(OP, Str(op))];
    PressStampedSets(Spread(first, fields), press, sequence, timestamp);
    SpreadSets(first, fields, key);
    PropertyIsMember(fields, key);
  }

  lemma PressStampedReadable(members: seq<Member>, press: JsString, sequence: SafeInt, timestamp: JsString,
                             upTo: JsString)
    requires Readable(members, upTo)
    ensures Readable(PressStamped(members, press, sequence, timestamp), upTo)
  {
    hide PlainKey;
    hide SetProperty;
    hide Readable;
    NamesArePlain();
    var one := SetProperty(members, PRESS_ADDRESS, Str(press));
    SetPropertyReadable(members, PRESS_ADDRESS, Str(press), upTo);
    SetPropertyReadable(one, SEQUENCE, Num(sequence), upTo);
    SetPropertyReadable(SetProperty(one, SEQUENCE, Num(sequence)), TIMESTAMP, Str(timestamp), upTo);
  }

  /**
   * What the write gate reads of a press payload comes back: the sequence and the op. Extra fields
   * printed after the sequence, such as the nested updates of a batch, may be anything.
   */
  lemma PressPayloadComesBack(op: JsString, fields: seq<Member>, press: JsString, sequence: SafeInt,
                              timestamp: JsString)
    requires Readable(fields, SEQUENCE) && sequence >= 0
    ensures var p := Canonicalize(Obj(PressPayload(op, fields, press, sequence, timestamp)));
            && ExtractSequence(p) == Success(Some(sequence))
            && (FinalOp(op, fields).Str? ==>
                  forall expected ::
                    VerifyOp(p, expected) == Success(expected == Encode(Escape(FinalOp(op, fields).s))))
  {
    hide Canonicalize;
    hide Readable;
    hide Spread;
    hide PressStamped;
    hide Encode;
    hide Escape;
    hide AtMost;
    hide VerifyOp;
    hide PropertyOf;
    hide ExtractSequence;
    var first := [Member(OP, Str(op))];
    var body := Spread(first, fields);
    var members := PressStamped(body, press, sequence, timestamp);
    OneMember(op, SEQUENCE);
    SpreadReadable(first, fields, SEQUENCE);
    ReadableIsUnique(fields, SEQUENCE);
    SpreadSets(first, fields, OP);
    PressStampedReadable(body, press, sequence, timestamp, SEQUENCE);
    PressStampedSets(body, press, sequence, timestamp);
    NamesInOrder();
    ReadableEarlier(members, SEQUENCE, OP);
    SequenceComesBack(members);
    if FinalOp(op, fields).Str? {
      forall expected
        ensures VerifyOp(Canonicalize(Obj(members)), expected)
                == Success(expected == Encode(Escape(FinalOp(op, fields).s)))
      {
        OpComesBack(members, expected);
      }
    }
  }
}
