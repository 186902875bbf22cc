/** The command-line payload builder (contracts/scripts/build_governance_payload.rs). */
module BuilderPayloads {
  import opened Wrappers
  import opened ProtocolTypes
  import opened PayloadParser
  import opened Extraction
  import opened FlatObjects
  import opened Payloads

  /**
   * The parsed arguments. `paths` is what the raw array argument of clear_domain_entries lists;
   * the nonce is the one given or drawn, the timestamp the clock's.
   */
  datatype Args = Args(
    op: Bytes, body: u8, version: nat, nonce: Bytes,
    keyCount: Option<u8>, quorum: Option<u8>, keys: Option<Bytes>,
    address: Option<Bytes>, policy: Option<Bytes>, press: Option<Bytes>, pressPubkey: Option<Bytes>,
    paths: seq<Bytes>, timestamp: Bytes)

  function OrElse<T>(o: Option<T>, default: T): T {
    if o.Some? then o.value else default
  }

  function ZeroPairs(n: nat): Bytes {
    if n == 0 then [] else ZeroPairs(n - 1) + [DIGIT_0, DIGIT_0]
  }

  /** `0x` and the hex of `n` zero bytes. */
  function ZeroHex(n: nat): Bytes {
    [DIGIT_0, 120] + ZeroPairs(n)
  }

  function TextField(key: string, body: Bytes): FlatField {
    FlatField(Ascii(key), Text(body))
  }

  function IntField(key: string, n: int): FlatField {
    FlatField(Ascii(key), Int(n))
  }

  /** Which of the builder's formats an op takes. */
  datatype Format =
    | Short
    | AuthorizePress
    | RevokePress
    | RotateAuthorizerKey
    | RotateGovernanceKeys
    | Upgrade
    | RegisterDomain
    | DeregisterDomain
    | SetDnsPolicy
    | ClearDomainEntries
    | FlagFraudRisk
    | GovernanceSetPath
    | Other

  function FormatOf(op: Bytes): Format {
    if op in {Ascii("register_policy"), Ascii("deregister_policy"),
              Ascii("disable_policy_delete_permanently")} then Short
    else if op == Ascii("authorize_press") then AuthorizePress
    else if op == Ascii("revoke_press") then RevokePress
    else if op == Ascii("rotate_authorizer_key") then RotateAuthorizerKey
    else if op == Ascii("rotate_governance_keys") then RotateGovernanceKeys
    else if op in {Ascii("propose_logic_upgrade"), Ascii("cancel_logic_upgrade"),
                   Ascii("propose_verifier_upgrade"), Ascii("cancel_verifier_upgrade")} then Upgrade
    else if op == Ascii("register_domain") then RegisterDomain
    else if op == Ascii("deregister_domain") then DeregisterDomain
    else if op == Ascii("set_dns_governance_policy_address") then SetDnsPolicy
    else if op == Ascii("clear_domain_entries") then ClearDomainEntries
    else if op == Ascii("flag_domain_fraud_risk") then FlagFraudRisk
    else if op == Ascii("governance_set_policy_address") then GovernanceSetPath
    else Other
  }

  /** What is printed before the governance version. */
  function Before(a: Args): seq<FlatField> {
    var domain := TextField("domain", OrElse(a.policy, []));
    match FormatOf(a.op)
    case RotateGovernanceKeys => [IntField("body", a.body)]
    case Upgrade => [TextField("address", OrElse(a.address, ZeroHex(20)))]
    case RegisterDomain =>
      [TextField("admin_card_address", OrElse(a.press, ZeroHex(32))),
       TextField("admin_secp256r1_key", OrElse(a.pressPubkey, ZeroHex(64))), domain]
    case DeregisterDomain => [domain]
    case ClearDomainEntries => [domain]
    case FlagFraudRisk => [domain, IntField("fraud_risk", OrElse(a.keyCount, 0))]
    case GovernanceSetPath => [domain]
    case _ => []
  }

  function KeyCount(a: Args): nat {
    OrElse(a.keyCount, 3)
  }

  /** What is printed between the governance version and the nonce. */
  function Between(a: Args): seq<FlatField> {
    match FormatOf(a.op)
    case RotateAuthorizerKey => [TextField("new_key", OrElse(a.pressPubkey, ZeroHex(64)))]
    case RotateGovernanceKeys =>
      [IntField("key_count", KeyCount(a)), TextField("keys", OrElse(a.keys, ZeroHex(KEY_LEN * KeyCount(a))))]
    case SetDnsPolicy => [TextField("new_policy_address", OrElse(a.address, ZeroHex(32)))]
    case _ => []
  }

  /** What is printed after the op. */
  function After(a: Args): seq<FlatField> {
    var policy := TextField("policy", OrElse(a.policy, ZeroHex(32)));
    var press := TextField("press", OrElse(a.press, ZeroHex(32)));
    var timestamp := TextField("timestamp", a.timestamp);
    match FormatOf(a.op)
    case Short => []
    case AuthorizePress => [policy, press, TextField("press_pubkey", OrElse(a.pressPubkey, ZeroHex(64)))]
    case RevokePress => [policy, press]
    case RotateAuthorizerKey => [policy]
    case RotateGovernanceKeys => [IntField("quorum", OrElse(a.quorum, 2))]
    case Upgrade => []
    case ClearDomainEntries => [FlatField(Ascii("paths"), List(a.paths)), timestamp]
    case FlagFraudRisk => [IntField("suspension_expires_at", OrElse(a.quorum, 0)), timestamp]
    case GovernanceSetPath =>
      [TextField("path", OrElse(a.press, [])),
       TextField("policy_card_address", OrElse(a.pressPubkey, ZeroHex(32))), timestamp]
    case _ => [timestamp]
  }

  function VersionField(a: Args): FlatField {
    FlatField(FIELD_GOVERNANCE_VERSION, Int(a.version))
  }

  function NonceAndOp(a: Args): seq<FlatField> {
    [FlatField(FIELD_NONCE, Text(a.nonce)), FlatField(FIELD_OP, Text(a.op))]
  }

  function BuilderFields(a: Args): seq<FlatField> {
    Before(a) + [VersionField(a)] + Between(a) + NonceAndOp(a) + After(a)
  }

  function BuilderPayload(a: Args): Bytes {
    FlatText(BuilderFields(a))
  }

  // ---------------------------------------------------------------------------
  // The fields are fit to be read
  // ---------------------------------------------------------------------------

  ghost predicate EscapedOption(o: Option<Bytes>) {
    o.Some? ==> Escaped(o.value)
  }

  /**
   * The builder escapes nothing. The text arguments that it prints before the op must hold no bare
   * quote or lone backslash; which ones these are depends on the operation.
   */
  ghost predicate EscapedEarly(a: Args) {
    match FormatOf(a.op)
    case RotateAuthorizerKey => EscapedOption(a.pressPubkey)
    case RotateGovernanceKeys => EscapedOption(a.keys)
    case Upgrade => EscapedOption(a.address)
    case SetDnsPolicy => EscapedOption(a.address)
    case RegisterDomain => EscapedOption(a.policy) && EscapedOption(a.press) && EscapedOption(a.pressPubkey)
    case DeregisterDomain => EscapedOption(a.policy)
    case ClearDomainEntries => EscapedOption(a.policy)
    case FlagFraudRisk => EscapedOption(a.policy)
    case GovernanceSetPath => EscapedOption(a.policy)
    case _ => true
  }

  lemma {:induction false} ZeroPairsEscaped(n: nat)
    ensures Plain(ZeroPairs(n))
  {
    if n > 0 {
      ZeroPairsEscaped(n - 1);
    }
  }

  lemma ZeroHexEscaped(n: nat)
    ensures Escaped(ZeroHex(n))
  {
    ZeroPairsEscaped(n);
    PlainEscaped(ZeroHex(n));
  }

  lemma AsciiPlain(s: string)
    requires forall i :: 0 <= i < |s| ==> s[i] != '"' && s[i] != '\\'
    ensures Plain(Ascii(s))
  {
  }

  lemma GoodText(key: string, body: Bytes)
    requires forall i :: 0 <= i < |key| ==> key[i] != '"' && key[i] != '\\'
    requires Escaped(body)
    ensures GoodField(TextField(key, body))
  {
    AsciiPlain(key);
  }

  lemma GoodInt(key: string, n: int)
    requires forall i :: 0 <= i < |key| ==> key[i] != '"' && key[i] != '\\'
    ensures GoodField(IntField(key, n))
  {
    AsciiPlain(key);
  }

  /** An optional argument or its all-zero default. */
  lemma GoodOption(key: string, o: Option<Bytes>, n: nat)
    requires forall i :: 0 <= i < |key| ==> key[i] != '"' && key[i] != '\\'
    requires EscapedOption(o)
    ensures GoodField(TextField(key, OrElse(o, ZeroHex(n)))) && GoodField(TextField(key, OrElse(o, [])))
  {
    hide ZeroHex;
    ZeroHexEscaped(n);
    GoodText(key, OrElse(o, ZeroHex(n)));
    GoodText(key, OrElse(o, []));
  }

  lemma BeforeGood(a: Args)
    requires EscapedEarly(a)
    ensures GoodFields(Before(a))
  {
    hide GoodField;
    hide TextField;
    hide IntField;
    hide FormatOf;
    hide EscapedOption;
    hide ZeroHex;
    GoodInt("body", a.body);
    GoodInt("fraud_risk", OrElse(a.keyCount, 0));
    if EscapedOption(a.policy) {
      GoodOption("domain", a.policy, 0);
    }
    if EscapedOption(a.address) {
      GoodOption("address", a.address, 20);
    }
    if EscapedOption(a.press) {
      GoodOption("admin_card_address", a.press, 32);
    }
    if EscapedOption(a.pressPubkey) {
      GoodOption("admin_secp256r1_key", a.pressPubkey, 64);
    }
  }

  lemma BetweenGood(a: Args)
    requires EscapedEarly(a)
    ensures GoodFields(Between(a))
  {
    hide GoodField;
    hide TextField;
    hide IntField;
    hide FormatOf;
    hide EscapedOption;
    hide ZeroHex;
    GoodInt("key_count", KeyCount(a));
    if EscapedOption(a.pressPubkey) {
      GoodOption("new_key", a.pressPubkey, 64);
    }
    if EscapedOption(a.keys) {
      GoodOption("keys", a.keys, KEY_LEN * KeyCount(a));
    }
    if EscapedOption(a.address) {
      GoodOption("new_policy_address", a.address, 32);
    }
  }

  /** No extra field printed early has one of the three names. */
  lemma ExtrasDiffer(a: Args)
    ensures forall i :: 0 <= i < |Before(a)| ==>
              Before(a)[i].key !in {FIELD_GOVERNANCE_VERSION, FIELD_NONCE, FIELD_OP}
    ensures forall i :: 0 <= i < |Between(a)| ==> Between(a)[i].key !in {FIELD_NONCE, FIELD_OP}
  {
    hide FormatOf;
    hide ZeroHex;
    assert |FIELD_GOVERNANCE_VERSION| == 18 && |FIELD_NONCE| == 5 && |FIELD_OP| == 2;
    assert Ascii("admin_card_address")[0] == 97 && FIELD_GOVERNANCE_VERSION[0] == 103;
  }

  /** The fields printed before the nonce. */
  function ToNonce(a: Args): seq<FlatField> {
    Before(a) + [VersionField(a)] + Between(a)
  }

  lemma ToNonceGood(a: Args)
    requires EscapedEarly(a)
    ensures GoodFields(Before(a)) && GoodFields(ToNonce(a)) && GoodField(VersionField(a))
    ensures forall i :: 0 <= i < |Before(a)| ==> Before(a)[i].key != FIELD_GOVERNANCE_VERSION
    ensures forall i :: 0 <= i < |ToNonce(a)| ==> ToNonce(a)[i].key !in {FIELD_NONCE, FIELD_OP}
  {
    hide Before;
    hide Between;
    hide EscapedEarly;
    BeforeGood(a);
    BetweenGood(a);
    NamesDistinct();
    NamesAreSafe(FIELD_GOVERNANCE_VERSION);
    hide Plain;
    ExtrasDiffer(a);
    var b := Before(a) + [VersionField(a)];
    forall i | 0 <= i < |ToNonce(a)|
      ensures GoodField(ToNonce(a)[i]) && ToNonce(a)[i].key !in {FIELD_NONCE, FIELD_OP}
    {
      assert ToNonce(a)[i] == if i < |b| then b[i] else Between(a)[i - |b|];
      if i < |Before(a)| {
        assert b[i] == Before(a)[i];
      }
    }
  }

  lemma NamesDistinct()
    ensures FIELD_GOVERNANCE_VERSION != FIELD_NONCE && FIELD_GOVERNANCE_VERSION != FIELD_OP && FIELD_NONCE != FIELD_OP
  {
    assert |FIELD_GOVERNANCE_VERSION| == 18 && |FIELD_NONCE| == 5 && |FIELD_OP| == 2;
  }

  lemma VersionComesBack(a: Args)
    requires EscapedEarly(a) && a.version < U32_RANGE
    ensures ExtractGovernanceVersion(BuilderPayload(a)) == Success(Some(a.version))
  {
    hide EscapedEarly;
    hide Before;
    hide Between;
    hide After;
    hide GapName;
    hide GoodField;
    hide Field;
    hide FlatText;
    hide FieldsThen;
    hide FieldText;
    hide IntBytes;
    hide U64Of;
    ToNonceGood(a);
    NamesAreSafe(FIELD_GOVERNANCE_VERSION);
    var fields, b := BuilderFields(a), |Before(a)|;
    assert fields[b] == VersionField(a) && fields[..b] == Before(a);
    var sep, tail := TextAround(fields, b);
    FirstComesBack(Before(a), VersionField(a), sep, tail);
    IntegerValue(a.version);
  }

  lemma NonceComesBackExactly(a: Args)
    requires EscapedEarly(a)
    ensures ExtractNonceBytes(BuilderPayload(a)) == Success(Some(a.nonce)) <==> Escaped(a.nonce)
  {
    hide EscapedEarly;
    hide Before;
    hide Between;
    hide After;
    hide GapName;
    hide GoodField;
    hide Field;
    hide FlatText;
    hide FieldsThen;
    hide FieldText;
    hide Escaped;
    ToNonceGood(a);
    NamesAreSafe(FIELD_NONCE);
    var fields, n := BuilderFields(a), |ToNonce(a)|;
    assert fields[n] == NonceAndOp(a)[0] && fields[..n] == ToNonce(a);
    var sep, tail := TextAround(fields, n);
    TextComesBackExactly(ToNonce(a), FIELD_NONCE, a.nonce, [sep] + tail);
    assert FieldText(fields[n]) + [sep] + tail == FieldText(fields[n]) + ([sep] + tail);
  }

  lemma OpComesBackExactly(a: Args)
    requires EscapedEarly(a) && Escaped(a.nonce)
    ensures VerifyOp(BuilderPayload(a), a.op) == Success(true) <==> Escaped(a.op)
  {
    hide EscapedEarly;
    hide Before;
    hide Between;
    hide After;
    hide GapName;
    hide GoodField;
    hide Field;
    hide FlatText;
    hide FieldsThen;
    hide FieldText;
    hide Escaped;
    ToNonceGood(a);
    NamesAreSafe(FIELD_OP);
    NamesDistinct();
    NonceGood(a);
    var fields, before := BuilderFields(a), ToNonce(a) + [NonceAndOp(a)[0]];
    var n := |before|;
    assert fields[n] == NonceAndOp(a)[1] && fields[..n] == before;
    var sep, tail := TextAround(fields, n);
    TextComesBackExactly(before, FIELD_OP, a.op, [sep] + tail);
    assert FieldText(fields[n]) + [sep] + tail == FieldText(fields[n]) + ([sep] + tail);
  }

  lemma NonceGood(a: Args)
    requires Escaped(a.nonce)
    ensures GoodField(NonceAndOp(a)[0])
  {
    hide Escaped;
    NamesAreSafe(FIELD_NONCE);
  }

  /**
   * What the builder prints, the gate reads: the version always, the nonce exactly when it is
   * escaped, and then the op exactly when that is. What is printed after the op does not matter.
   */
  lemma BuilderPayloadComesBack(a: Args)
    requires EscapedEarly(a) && a.version < U32_RANGE
    ensures ExtractGovernanceVersion(BuilderPayload(a)) == Success(Some(a.version))
    ensures ExtractNonceBytes(BuilderPayload(a)) == Success(Some(a.nonce)) <==> Escaped(a.nonce)
    ensures Escaped(a.nonce) ==> (VerifyOp(BuilderPayload(a), a.op) == Success(true) <==> Escaped(a.op))
  {
    hide *;
    VersionComesBack(a);
    NonceComesBackExactly(a);
    if Escaped(a.nonce) {
      OpComesBackExactly(a);
    }
  }
}
