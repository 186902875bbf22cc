/**
 * What the command-line builder (contracts/scripts/build_governance_payload.rs) prints is the
 * canonical form of the request, field for field, for every operation.
 */
module CanonicalRequests {
  import opened Wrappers
  import opened ProtocolTypes
  import opened PayloadParser
  import opened Unicode
  import opened JsonText
  import opened KeySort
  import opened CanonicalJson
  import opened CanonicalBytes
  import opened FlatObjects
  import opened PrintedObjects
  import opened Payloads
  import opened BuilderPayloads

  // ---------------------------------------------------------------------------
  // Flat texts in key order
  // ---------------------------------------------------------------------------

  predicate Less(a: JsString, b: JsString) {
    a != b && AtMost(a, b)
  }

  ghost predicate Ascending(keys: seq<JsString>) {
    forall i :: 0 <= i < |keys| - 1 ==> Less(keys[i], keys[i + 1])
  }

  lemma {:induction false} LessFrom(keys: seq<JsString>, i: nat, j: nat)
    requires Ascending(keys) && i < j < |keys|
    ensures Less(keys[i], keys[j])
    decreases j
  {
    hide AtMost;
    if i < j - 1 {
      LessFrom(keys, i, j - 1);
      Transitive(keys[i], keys[j - 1], keys[j]);
      TotalOrder(keys[i], keys[j - 1]);
      TotalOrder(keys[j - 1], keys[j]);
    } else {
      assert Less(keys[i], keys[i + 1]);
    }
  }

  /** Ascending keys are where sorting puts them. */
  lemma AscendingStays(keys: seq<JsString>)
    requires Ascending(keys)
    ensures Sort(keys) == keys && Unique(keys)
  {
    hide Ascending;
    hide AtMost;
    forall i, j | 0 <= i < j < |keys| ensures Less(keys[i], keys[j]) {
      LessFrom(keys, i, j);
    }
    SortSorts(keys);
    hide Sort;
    SortedIsUnique(Sort(keys), keys);
  }

  /** The printed field is the property. */
  ghost predicate Same(f: FlatField, m: Member) {
    PlainKey(m.key) && FlatJson(m.value) && f == FlatFieldOf(m)
  }

  /** The fields are the members, one for one. */
  ghost predicate Matches(fields: seq<FlatField>, members: seq<Member>) {
    && |fields| == |members|
    && forall i :: 0 <= i < |members| ==> Same(fields[i], members[i])
  }

  lemma FlatIsWf(fields: seq<FlatField>, members: seq<Member>)
    requires Matches(fields, members) && Ascending(KeysOf(members))
    ensures Wf(Obj(members))
  {
    hide Ascending;
    AscendingStays(KeysOf(members));
    forall i | 0 <= i < |members| ensures Wf(members[i].value) {
      assert Same(fields[i], members[i]);
    }
  }

  /** A flat text with ascending keys is the canonical form of its own members. */
  lemma AscendingIsCanonical(fields: seq<FlatField>, members: seq<Member>)
    requires Matches(fields, members) && Ascending(KeysOf(members))
    ensures Canonicalize(Obj(members)) == FlatText(fields)
  {
    hide PlainKey;
    hide FlatFieldOf;
    hide Canonicalize;
    hide FlatText;
    hide Sort;
    hide Ascending;
    var v, keys := Obj(members), KeysOf(members);
    AscendingStays(keys);
    KeysOfAt(members);
    hide KeysOf;
    assert FlatObject(v);
    ObjectBytes(v);
    SortedKeysAreKeys(v);
    forall i | 0 <= i < |members| ensures PrintedFields(v)[i] == fields[i] {
      FieldsOfAt(v, keys, i);
      MemberFound(members, members[i]);
    }
    assert PrintedFields(v) == fields;
  }

  // ---------------------------------------------------------------------------
  // Key order
  // ---------------------------------------------------------------------------

  lemma {:induction false} LessAt(a: JsString, b: JsString, n: nat)
    requires n <= |a| && n < |b| && a[..n] == b[..n] && (n == |a| || a[n] < b[n])
    ensures Less(a, b)
    decreases n
  {
    if n > 0 {
      assert a[0] == a[..n][0] == b[..n][0] == b[0];
      assert a[1..][..n - 1] == a[..n][1..] && b[1..][..n - 1] == b[..n][1..];
      LessAt(a[1..], b[1..], n - 1);
    }
  }

  /** Two names that first differ at `n`. */
  lemma NameBefore(x: string, y: string, n: nat)
    requires n <= |x| && n < |y| && x[..n] == y[..n] && (n == |x| || x[n] < y[n])
    requires (forall i :: 0 <= i < |x| ==> x[i] < 128 as char) && forall i :: 0 <= i < |y| ==> y[i] < 128 as char
    ensures Less(Ascii(x), Ascii(y))
  {
    hide Less;
    forall i | 0 <= i < n ensures Ascii(x)[i] == Ascii(y)[i] {
      assert x[i] == x[..n][i] == y[..n][i] == y[i];
    }
    LessAt(Ascii(x), Ascii(y), n);
  }

  // ---------------------------------------------------------------------------
  // Requests
  // ---------------------------------------------------------------------------

  /** The texts of the arguments as JavaScript strings. */
  datatype Spelling = Spelling(
    op: JsString, nonce: JsString, keys: Option<JsString>, address: Option<JsString>, policy: Option<JsString>,
    press: Option<JsString>, pressPubkey: Option<JsString>, paths: seq<JsString>, timestamp: JsString)

  /** `0x` and `2 * n` zeros. */
  function Zeroes(n: nat): JsString {
    Ascii("0x") + seq(2 * n, _ => 48)
  }

  function TextMember(key: string, s: JsString): Member {
    Member(Ascii(key), Str(s))
  }

  function NumMember(key: string, n: SafeInt): Member {
    Member(Ascii(key), Num(n))
  }

  function VersionMember(a: Args): Member
    requires a.version < 0x1_0000_0000
  {
    NumMember("governance_version", a.version)
  }

  function ShortRequest(a: Args, j: Spelling): seq<Member>
    requires a.version < 0x1_0000_0000
  {
    [VersionMember(a), TextMember("nonce", j.nonce), TextMember("op", j.op)]
  }

  function AuthorizePressRequest(a: Args, j: Spelling): seq<Member>
    requires a.version < 0x1_0000_0000
  {
    [VersionMember(a), TextMember("nonce", j.nonce), TextMember("op", j.op),
     TextMember("policy", OrElse(j.policy, Zeroes(32))), TextMember("press", OrElse(j.press, Zeroes(32))),
     TextMember("press_pubkey", OrElse(j.pressPubkey, Zeroes(64)))]
  }

  function RevokePressRequest(a: Args, j: Spelling): seq<Member>
    requires a.version < 0x1_0000_0000
  {
    [VersionMember(a), TextMember("nonce", j.nonce), TextMember("op", j.op),
     TextMember("policy", OrElse(j.policy, Zeroes(32))), TextMember("press", OrElse(j.press, Zeroes(32)))]
  }

  function AuthorizerKeyRequest(a: Args, j: Spelling): seq<Member>
    requires a.version < 0x1_0000_0000
  {
    [VersionMember(a), TextMember("new_key", OrElse(j.pressPubkey, Zeroes(64))), TextMember("nonce", j.nonce),
     TextMember("op", j.op), TextMember("policy", OrElse(j.policy, Zeroes(32)))]
  }

  function KeysetRequest(a: Args, j: Spelling): seq<Member>
    requires a.version < 0x1_0000_0000
  {
    var keyCount: nat := OrElse(a.keyCount, 3);
    [NumMember("body", a.body), VersionMember(a), NumMember("key_count", keyCount),
     TextMember("keys", OrElse(j.keys, Zeroes(64 * keyCount))), TextMember("nonce", j.nonce), TextMember("op", j.op),
     NumMember("quorum", OrElse(a.quorum, 2))]
  }

  function UpgradeRequest(a: Args, j: Spelling): seq<Member>
    requires a.version < 0x1_0000_0000
  {
    [TextMember("address", OrElse(j.address, Zeroes(20))), VersionMember(a), TextMember("nonce", j.nonce),
     TextMember("op", j.op)]
  }

  function RegisterDomainRequest(a: Args, j: Spelling): seq<Member>
    requires a.version < 0x1_0000_0000
  {
    [TextMember("admin_card_address", OrElse(j.press, Zeroes(32))),
     TextMember("admin_secp256r1_key", OrElse(j.pressPubkey, Zeroes(64))),
     TextMember("domain", OrElse(j.policy, [])), VersionMember(a), TextMember("nonce", j.nonce),
     TextMember("op", j.op), TextMember("timestamp", j.timestamp)]
  }

  function DeregisterDomainRequest(a: Args, j: Spelling): seq<Member>
    requires a.version < 0x1_0000_0000
  {
    [TextMember("domain", OrElse(j.policy, [])), VersionMember(a), TextMember("nonce", j.nonce),
     TextMember("op", j.op), TextMember("timestamp", j.timestamp)]
  }

  function DnsPolicyRequest(a: Args, j: Spelling): seq<Member>
    requires a.version < 0x1_0000_0000
  {
    [VersionMember(a), TextMember("new_policy_address", OrElse(j.address, Zeroes(32))),
     TextMember("nonce", j.nonce), TextMember("op", j.op), TextMember("timestamp", j.timestamp)]
  }

  function ClearRequest(a: Args, j: Spelling): seq<Member>
    requires a.version < 0x1_0000_0000
  {
    [TextMember("domain", OrElse(j.policy, [])), VersionMember(a), TextMember("nonce", j.nonce),
     TextMember("op", j.op), Member(Ascii("paths"), Arr(Texts(j.paths))), TextMember("timestamp", j.timestamp)]
  }

  function FraudRiskRequest(a: Args, j: Spelling): seq<Member>
    requires a.version < 0x1_0000_0000
  {
    [TextMember("domain", OrElse(j.policy, [])), NumMember("fraud_risk", OrElse(a.keyCount, 0)),
     VersionMember(a), TextMember("nonce", j.nonce), TextMember("op", j.op),
     NumMember("suspension_expires_at", OrElse(a.quorum, 0)), TextMember("timestamp", j.timestamp)]
  }

  function SetPathRequest(a: Args, j: Spelling): seq<Member>
    requires a.version < 0x1_0000_0000
  {
    [TextMember("domain", OrElse(j.policy, [])), VersionMember(a), TextMember("nonce", j.nonce),
     TextMember("op", j.op), TextMember("path", OrElse(j.press, [])),
     TextMember("policy_card_address", OrElse(j.pressPubkey, Zeroes(32))), TextMember("timestamp", j.timestamp)]
  }

  function OtherRequest(a: Args, j: Spelling): seq<Member>
    requires a.version < 0x1_0000_0000
  {
    [VersionMember(a), TextMember("nonce", j.nonce), TextMember("op", j.op),
     TextMember("timestamp", j.timestamp)]
  }

  /** The request that each operation states, its properties by name. */
  function Request(a: Args, j: Spelling): seq<Member>
    requires a.version < 0x1_0000_0000
  {
    if a.op in {Ascii("register_policy"), Ascii("deregister_policy"),
                Ascii("disable_policy_delete_permanently")} then ShortRequest(a, j)
    else if a.op == Ascii("authorize_press") then AuthorizePressRequest(a, j)
    else if a.op == Ascii("revoke_press") then RevokePressRequest(a, j)
    else if a.op == Ascii("rotate_authorizer_key") then AuthorizerKeyRequest(a, j)
    else if a.op == Ascii("rotate_governance_keys") then KeysetRequest(a, j)
    else if a.op in {Ascii("propose_logic_upgrade"), Ascii("cancel_logic_upgrade"),
                     Ascii("propose_verifier_upgrade"), Ascii("cancel_verifier_upgrade")} then UpgradeRequest(a, j)
    else if a.op == Ascii("register_domain") then RegisterDomainRequest(a, j)
    else if a.op == Ascii("deregister_domain") then DeregisterDomainRequest(a, j)
    else if a.op == Ascii("set_dns_governance_policy_address") then DnsPolicyRequest(a, j)
    else if a.op == Ascii("clear_domain_entries") then ClearRequest(a, j)
    else if a.op == Ascii("flag_domain_fraud_risk") then FraudRiskRequest(a, j)
    else if a.op == Ascii("governance_set_policy_address") then SetPathRequest(a, j)
    else OtherRequest(a, j)
  }

  function Texts(texts: seq<JsString>): seq<Json> {
    seq(|texts|, i requires 0 <= i < |texts| => Str(texts[i]))
  }

  /** The bytes are the string's, and the string needs no escaping. */
  ghost predicate Spells(b: Bytes, s: JsString) {
    PlainKey(s) && b == Encode(s)
  }

  ghost predicate SpellsOption(b: Option<Bytes>, s: Option<JsString>) {
    match (b, s)
    case (Some(x), Some(y)) => Spells(x, y)
    case (None, None) => true
    case _ => false
  }

  ghost predicate SpellsTexts(bs: seq<Bytes>, ss: seq<JsString>) {
    |bs| == |ss| && forall i :: 0 <= i < |bs| ==> Spells(bs[i], ss[i])
  }

  /** The texts that the operation prints, spelled out. */
  ghost predicate Spelled(a: Args, j: Spelling) {
    && Spells(a.op, j.op) && Spells(a.nonce, j.nonce)
    && match FormatOf(a.op)
       case Short => true
       case AuthorizePress =>
         && SpellsOption(a.policy, j.policy) && SpellsOption(a.press, j.press)
         && SpellsOption(a.pressPubkey, j.pressPubkey)
       case RevokePress => SpellsOption(a.policy, j.policy) && SpellsOption(a.press, j.press)
       case RotateAuthorizerKey => SpellsOption(a.policy, j.policy) && SpellsOption(a.pressPubkey, j.pressPubkey)
       case RotateGovernanceKeys => SpellsOption(a.keys, j.keys)
       case Upgrade => SpellsOption(a.address, j.address)
       case RegisterDomain =>
         && SpellsOption(a.policy, j.policy) && SpellsOption(a.press, j.press)
         && SpellsOption(a.pressPubkey, j.pressPubkey) && Spells(a.timestamp, j.timestamp)
       case SetDnsPolicy => SpellsOption(a.address, j.address) && Spells(a.timestamp, j.timestamp)
       case ClearDomainEntries =>
         SpellsOption(a.policy, j.policy) && SpellsTexts(a.paths, j.paths) && Spells(a.timestamp, j.timestamp)
       case GovernanceSetPath =>
         && SpellsOption(a.policy, j.policy) && SpellsOption(a.press, j.press)
         && SpellsOption(a.pressPubkey, j.pressPubkey) && Spells(a.timestamp, j.timestamp)
       case Other => Spells(a.timestamp, j.timestamp)
       case _ => SpellsOption(a.policy, j.policy) && Spells(a.timestamp, j.timestamp)
  }

  // ---------------------------------------------------------------------------
  // Field for field
  // ---------------------------------------------------------------------------

  /** A name in printable ASCII that needs no escaping. */
  predicate PlainName(s: string) {
    forall i :: 0 <= i < |s| ==> 32 as char <= s[i] < 128 as char && s[i] != '"' && s[i] != '\\'
  }

  lemma SameText(key: string, b: Bytes, s: JsString)
    requires PlainName(key) && Spells(b, s)
    ensures Same(TextField(key, b), TextMember(key, s))
  {
    hide Encode;
    hide PlainKey;
    NameIsPlain(key);
    PlainKeyVerbatim(s);
  }

  lemma SameNumber(key: string, n: SafeInt)
    requires PlainName(key)
    ensures Same(IntField(key, n), NumMember(key, n))
  {
    hide Encode;
    hide PlainKey;
    NameIsPlain(key);
  }

  lemma {:induction false} ZeroPairsAt(n: nat)
    ensures ZeroPairs(n) == seq(2 * n, _ => 48)
  {
    if n > 0 {
      ZeroPairsAt(n - 1);
    }
  }

  lemma ZeroHexSpelled(n: nat)
    ensures Spells(ZeroHex(n), Zeroes(n))
  {
    hide Encode;
    hide WellFormed;
    ZeroPairsAt(n);
    assert ZeroHex(n) == Zeroes(n);
    EncodeAscii(Zeroes(n));
  }

  lemma SameOption(key: string, b: Option<Bytes>, s: Option<JsString>, n: nat)
    requires PlainName(key) && SpellsOption(b, s)
    ensures Same(TextField(key, OrElse(b, ZeroHex(n))), TextMember(key, OrElse(s, Zeroes(n))))
    ensures Same(TextField(key, OrElse(b, [])), TextMember(key, OrElse(s, [])))
  {
    hide Encode;
    hide Same;
    hide ZeroHex;
    hide Zeroes;
    ZeroHexSpelled(n);
    EncodeAscii([]);
    SameText(key, OrElse(b, ZeroHex(n)), OrElse(s, Zeroes(n)));
    SameText(key, OrElse(b, []), OrElse(s, []));
  }

  ghost predicate Fits(fields: seq<FlatField>, members: seq<Member>) {
    Matches(fields, members) && InOrder(members)
  }

  ghost predicate InOrder(members: seq<Member>) {
    forall i :: 0 <= i < |members| - 1 ==> Less(members[i].key, members[i + 1].key)
  }

  lemma FitsCanonical(fields: seq<FlatField>, members: seq<Member>)
    requires Fits(fields, members)
    ensures Canonicalize(Obj(members)) == FlatText(fields) && Wf(Obj(members))
  {
    hide Matches;
    hide Less;
    hide Canonicalize;
    hide FlatText;
    hide Wf;
    KeysOfAt(members);
    hide KeysOf;
    AscendingIsCanonical(fields, members);
    FlatIsWf(fields, members);
  }

  lemma CommonSame(a: Args, j: Spelling)
    requires a.version < 0x1_0000_0000 && Spells(a.op, j.op) && Spells(a.nonce, j.nonce)
    ensures Same(VersionField(a), NumMember("governance_version", a.version))
    ensures Same(NonceAndOp(a)[0], TextMember("nonce", j.nonce)) && Same(NonceAndOp(a)[1], TextMember("op", j.op))
  {
    hide Same;
    hide Spells;
    SameNumber("governance_version", a.version);
    SameText("nonce", a.nonce, j.nonce);
    SameText("op", a.op, j.op);
  }

  lemma SameTexts(key: string, bs: seq<Bytes>, ss: seq<JsString>)
    requires PlainName(key) && SpellsTexts(bs, ss)
    ensures Same(FlatField(Ascii(key), List(bs)), Member(Ascii(key), Arr(Texts(ss))))
  {
    hide Encode;
    hide PlainKey;
    NameIsPlain(key);
    BodiesSpelled(bs, ss, 0);
  }

  lemma {:induction false} BodiesSpelled(bs: seq<Bytes>, ss: seq<JsString>, i: nat)
    requires SpellsTexts(bs, ss) && i <= |ss|
    ensures Bodies(Arr(Texts(ss)), i) == bs[i..]
    decreases |ss| - i
  {
    hide Encode;
    hide PlainKey;
    if i < |ss| {
      BodiesSpelled(bs, ss, i + 1);
      assert Spells(bs[i], ss[i]);
      PlainKeyVerbatim(ss[i]);
    }
  }

  lemma ShortMatches(a: Args, j: Spelling)
    requires a.version < 0x1_0000_0000 && Spelled(a, j) && FormatOf(a.op).Short?
    ensures Fits(BuilderFields(a), ShortRequest(a, j))
  {
    hide FormatOf;
    hide Same;
    hide Less;
    hide Spells;
    hide SpellsOption;
    hide SpellsTexts;
    hide ZeroHex;
    hide Zeroes;
    hide Texts;
    hide Ascii;
    CommonSame(a, j);
    NameBefore("governance_version", "nonce", 0);
    NameBefore("nonce", "op", 0);
  }

  lemma AuthorizePressMatches(a: Args, j: Spelling)
    requires a.version < 0x1_0000_0000 && Spelled(a, j) && FormatOf(a.op).AuthorizePress?
    ensures Fits(BuilderFields(a), AuthorizePressRequest(a, j))
  {
    hide FormatOf;
    hide Same;
    hide Less;
    hide Spells;
    hide SpellsOption;
    hide SpellsTexts;
    hide ZeroHex;
    hide Zeroes;
    hide Texts;
    hide Ascii;
    CommonSame(a, j);
    SameOption("policy", a.policy, j.policy, 32);
    SameOption("press", a.press, j.press, 32);
    SameOption("press_pubkey", a.pressPubkey, j.pressPubkey, 64);
    NameBefore("governance_version", "nonce", 0);
    NameBefore("nonce", "op", 0);
    NameBefore("op", "policy", 0);
    NameBefore("policy", "press", 1);
    NameBefore("press", "press_pubkey", 5);
  }

  lemma RevokePressMatches(a: Args, j: Spelling)
    requires a.version < 0x1_0000_0000 && Spelled(a, j) && FormatOf(a.op).RevokePress?
    ensures Fits(BuilderFields(a), RevokePressRequest(a, j))
  {
    hide FormatOf;
    hide Same;
    hide Less;
    hide Spells;
    hide SpellsOption;
    hide SpellsTexts;
    hide ZeroHex;
    hide Zeroes;
    hide Texts;
    hide Ascii;
    CommonSame(a, j);
    SameOption("policy", a.policy, j.policy, 32);
    SameOption("press", a.press, j.press, 32);
    NameBefore("governance_version", "nonce", 0);
    NameBefore("nonce", "op", 0);
    NameBefore("op", "policy", 0);
    NameBefore("policy", "press", 1);
  }

  lemma AuthorizerKeyMatches(a: Args, j: Spelling)
    requires a.version < 0x1_0000_0000 && Spelled(a, j) && FormatOf(a.op).RotateAuthorizerKey?
    ensures Fits(BuilderFields(a), AuthorizerKeyRequest(a, j))
  {
    hide FormatOf;
    hide Same;
    hide Less;
    hide Spells;
    hide SpellsOption;
    hide SpellsTexts;
    hide ZeroHex;
    hide Zeroes;
    hide Texts;
    hide Ascii;
    CommonSame(a, j);
    SameOption("policy", a.policy, j.policy, 32);
    SameOption("new_key", a.pressPubkey, j.pressPubkey, 64);
    NameBefore("governance_version", "new_key", 0);
    NameBefore("new_key", "nonce", 1);
    NameBefore("nonce", "op", 0);
    NameBefore("op", "policy", 0);
  }

  lemma KeysetMatches(a: Args, j: Spelling)
    requires a.version < 0x1_0000_0000 && Spelled(a, j) && FormatOf(a.op).RotateGovernanceKeys?
    ensures Fits(BuilderFields(a), KeysetRequest(a, j))
  {
    hide FormatOf;
    hide Same;
    hide Less;
    hide Spells;
    hide SpellsOption;
    hide SpellsTexts;
    hide ZeroHex;
    hide Zeroes;
    hide Texts;
    hide Ascii;
    CommonSame(a, j);
    var keyCount: nat := OrElse(a.keyCount, 3);
    SameNumber("body", a.body);
    SameNumber("key_count", keyCount);
    SameNumber("quorum", OrElse(a.quorum, 2));
    SameOption("keys", a.keys, j.keys, 64 * keyCount);
    NameBefore("body", "governance_version", 0);
    NameBefore("governance_version", "key_count", 0);
    NameBefore("key_count", "keys", 3);
    NameBefore("keys", "nonce", 0);
    NameBefore("nonce", "op", 0);
    NameBefore("op", "quorum", 0);
  }

  lemma UpgradeMatches(a: Args, j: Spelling)
    requires a.version < 0x1_0000_0000 && Spelled(a, j) && FormatOf(a.op).Upgrade?
    ensures Fits(BuilderFields(a), UpgradeRequest(a, j))
  {
    hide FormatOf;
    hide Same;
    hide Less;
    hide Spells;
    hide SpellsOption;
    hide SpellsTexts;
    hide ZeroHex;
    hide Zeroes;
    hide Texts;
    hide Ascii;
    CommonSame(a, j);
    SameOption("address", a.address, j.address, 20);
    NameBefore("address", "governance_version", 0);
    NameBefore("governance_version", "nonce", 0);
    NameBefore("nonce", "op", 0);
  }

  lemma RegisterDomainInOrder(a: Args, j: Spelling)
    requires a.version < 0x1_0000_0000
    ensures InOrder(RegisterDomainRequest(a, j))
  {
    hide Less;
    hide Zeroes;
    hide Ascii;
    NameBefore("admin_card_address", "admin_secp256r1_key", 6);
    NameBefore("admin_secp256r1_key", "domain", 0);
    NameBefore("domain", "governance_version", 0);
    NameBefore("governance_version", "nonce", 0);
    NameBefore("nonce", "op", 0);
    NameBefore("op", "timestamp", 0);
  }

  lemma RegisterDomainMatches(a: Args, j: Spelling)
    requires a.version < 0x1_0000_0000 && Spelled(a, j) && FormatOf(a.op).RegisterDomain?
    ensures Fits(BuilderFields(a), RegisterDomainRequest(a, j))
  {
    hide FormatOf;
    hide Same;
    hide Less;
    hide Spells;
    hide SpellsOption;
    hide SpellsTexts;
    hide ZeroHex;
    hide Zeroes;
    hide Texts;
    hide Ascii;
    hide InOrder;
    CommonSame(a, j);
    RegisterDomainInOrder(a, j);
    SameOption("domain", a.policy, j.policy, 0);
    SameText("timestamp", a.timestamp, j.timestamp);
    SameOption("admin_card_address", a.press, j.press, 32);
    SameOption("admin_secp256r1_key", a.pressPubkey, j.pressPubkey, 64);
  }

  lemma DeregisterDomainMatches(a: Args, j: Spelling)
    requires a.version < 0x1_0000_0000 && Spelled(a, j) && FormatOf(a.op).DeregisterDomain?
    ensures Fits(BuilderFields(a), DeregisterDomainRequest(a, j))
  {
    hide FormatOf;
    hide Same;
    hide Less;
    hide Spells;
    hide SpellsOption;
    hide SpellsTexts;
    hide ZeroHex;
    hide Zeroes;
    hide Texts;
    hide Ascii;
    CommonSame(a, j);
    SameOption("domain", a.policy, j.policy, 0);
    SameText("timestamp", a.timestamp, j.timestamp);
    NameBefore("domain", "governance_version", 0);
    NameBefore("governance_version", "nonce", 0);
    NameBefore("nonce", "op", 0);
    NameBefore("op", "timestamp", 0);
  }

  lemma DnsPolicyMatches(a: Args, j: Spelling)
    requires a.version < 0x1_0000_0000 && Spelled(a, j) && FormatOf(a.op).SetDnsPolicy?
    ensures Fits(BuilderFields(a), DnsPolicyRequest(a, j))
  {
    hide FormatOf;
    hide Same;
    hide Less;
    hide Spells;
    hide SpellsOption;
    hide SpellsTexts;
    hide ZeroHex;
    hide Zeroes;
    hide Texts;
    hide Ascii;
    CommonSame(a, j);
    SameOption("new_policy_address", a.address, j.address, 32);
    SameText("timestamp", a.timestamp, j.timestamp);
    NameBefore("governance_version", "new_policy_address", 0);
    NameBefore("new_policy_address", "nonce", 1);
    NameBefore("nonce", "op", 0);
    NameBefore("op", "timestamp", 0);
  }

  lemma ClearMatches(a: Args, j: Spelling)
    requires a.version < 0x1_0000_0000 && Spelled(a, j) && FormatOf(a.op).ClearDomainEntries?
    ensures Fits(BuilderFields(a), ClearRequest(a, j))
  {
    hide FormatOf;
    hide Same;
    hide Less;
    hide Spells;
    hide SpellsOption;
    hide SpellsTexts;
    hide ZeroHex;
    hide Zeroes;
    hide Texts;
    hide Ascii;
    CommonSame(a, j);
    SameOption("domain", a.policy, j.policy, 0);
    SameText("timestamp", a.timestamp, j.timestamp);
    SameTexts("paths", a.paths, j.paths);
    NameBefore("domain", "governance_version", 0);
    NameBefore("governance_version", "nonce", 0);
    NameBefore("nonce", "op", 0);
    NameBefore("op", "paths", 0);
    NameBefore("paths", "timestamp", 0);
  }

  lemma FraudRiskInOrder(a: Args, j: Spelling)
    requires a.version < 0x1_0000_0000
    ensures InOrder(FraudRiskRequest(a, j))
  {
    hide Less;
    hide Zeroes;
    hide Ascii;
    NameBefore("domain", "fraud_risk", 0);
    NameBefore("fraud_risk", "governance_version", 0);
    NameBefore("governance_version", "nonce", 0);
    NameBefore("nonce", "op", 0);
    NameBefore("op", "suspension_expires_at", 0);
    NameBefore("suspension_expires_at", "timestamp", 0);
  }

  lemma FraudRiskMatches(a: Args, j: Spelling)
    requires a.version < 0x1_0000_0000 && Spelled(a, j) && FormatOf(a.op).FlagFraudRisk?
    ensures Fits(BuilderFields(a), FraudRiskRequest(a, j))
  {
    hide FormatOf;
    hide Same;
    hide Less;
    hide Spells;
    hide SpellsOption;
    hide SpellsTexts;
    hide ZeroHex;
    hide Zeroes;
    hide Texts;
    hide Ascii;
    hide InOrder;
    CommonSame(a, j);
    FraudRiskInOrder(a, j);
    SameOption("domain", a.policy, j.policy, 0);
    SameText("timestamp", a.timestamp, j.timestamp);
    SameNumber("fraud_risk", OrElse(a.keyCount, 0));
    SameNumber("suspension_expires_at", OrElse(a.quorum, 0));
  }

  lemma SetPathInOrder(a: Args, j: Spelling)
    requires a.version < 0x1_0000_0000
    ensures InOrder(SetPathRequest(a, j))
  {
    hide Less;
    hide Zeroes;
    hide Ascii;
    NameBefore("domain", "governance_version", 0);
    NameBefore("governance_version", "nonce", 0);
    NameBefore("nonce", "op", 0);
    NameBefore("op", "path", 0);
    NameBefore("path", "policy_card_address", 1);
    NameBefore("policy_card_address", "timestamp", 0);
  }

  lemma SetPathMatches(a: Args, j: Spelling)
    requires a.version < 0x1_0000_0000 && Spelled(a, j) && FormatOf(a.op).GovernanceSetPath?
    ensures Fits(BuilderFields(a), SetPathRequest(a, j))
  {
    hide FormatOf;
    hide Same;
    hide Less;
    hide Spells;
    hide SpellsOption;
    hide SpellsTexts;
    hide ZeroHex;
    hide Zeroes;
    hide Texts;
    hide Ascii;
    hide InOrder;
    CommonSame(a, j);
    SetPathInOrder(a, j);
    SameOption("domain", a.policy, j.policy, 0);
    SameText("timestamp", a.timestamp, j.timestamp);
    SameOption("path", a.press, j.press, 0);
    SameOption("policy_card_address", a.pressPubkey, j.pressPubkey, 32);
  }

  lemma OtherMatches(a: Args, j: Spelling)
    requires a.version < 0x1_0000_0000 && Spelled(a, j) && FormatOf(a.op).Other?
    ensures Fits(BuilderFields(a), OtherRequest(a, j))
  {
    hide FormatOf;
    hide Same;
    hide Less;
    hide Spells;
    hide SpellsOption;
    hide SpellsTexts;
    hide ZeroHex;
    hide Zeroes;
    hide Texts;
    hide Ascii;
    CommonSame(a, j);
    SameText("timestamp", a.timestamp, j.timestamp);
    NameBefore("governance_version", "nonce", 0);
    NameBefore("nonce", "op", 0);
    NameBefore("op", "timestamp", 0);
  }

  /** What the builder prints are the request's properties, in ascending order of their names. */
  lemma RequestFits(a: Args, j: Spelling)
    requires a.version < 0x1_0000_0000 && Spelled(a, j)
    ensures Fits(BuilderFields(a), Request(a, j))
  {
    hide Fits;
    hide Spelled;
    hide BuilderFields;
    hide Ascii;
    hide ShortRequest;
    hide AuthorizePressRequest;
    hide RevokePressRequest;
    hide AuthorizerKeyRequest;
    hide KeysetRequest;
    hide UpgradeRequest;
    hide RegisterDomainRequest;
    hide DeregisterDomainRequest;
    hide DnsPolicyRequest;
    hide ClearRequest;
    hide FraudRiskRequest;
    hide SetPathRequest;
    hide OtherRequest;
    match FormatOf(a.op) {
      case Short => ShortMatches(a, j);
      case AuthorizePress => AuthorizePressMatches(a, j);
      case RevokePress => RevokePressMatches(a, j);
      case RotateAuthorizerKey => AuthorizerKeyMatches(a, j);
      case RotateGovernanceKeys => KeysetMatches(a, j);
      case Upgrade => UpgradeMatches(a, j);
      case RegisterDomain => RegisterDomainMatches(a, j);
      case DeregisterDomain => DeregisterDomainMatches(a, j);
      case SetDnsPolicy => DnsPolicyMatches(a, j);
      case ClearDomainEntries => ClearMatches(a, j);
      case FlagFraudRisk => FraudRiskMatches(a, j);
      case GovernanceSetPath => SetPathMatches(a, j);
      case Other => OtherMatches(a, j);
    }
  }

  /**
   * What the builder prints is the canonical form of the operation's request, whatever order its
   * properties are put in, as long as no text that it prints would need escaping.
   */
  lemma BuilderIsCanonical(a: Args, j: Spelling, members: seq<Member>)
    requires a.version < 0x1_0000_0000 && Spelled(a, j)
    requires Wf(Obj(members)) && multiset(members) == multiset(Request(a, j))
    ensures BuilderPayload(a) == Canonicalize(Obj(members))
  {
    hide Request;
    hide Spelled;
    hide BuilderFields;
    hide Fits;
    hide Canonicalize;
    hide FlatText;
    RequestFits(a, j);
    FitsCanonical(BuilderFields(a), Request(a, j));
    InsertionOrderFree(members, Request(a, j));
  }
}
