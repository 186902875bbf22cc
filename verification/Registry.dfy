/**
 * The write operations of a logic-contract instance, as a specification: which calls there are,
 * what each demands, and what it does to the storage contract, to the instance and to the event
 * log. Effects are given slot by slot; LogicContract.dfy runs the operations step by step.
 */
module Registry {
  import opened Wrappers
  import opened ProtocolTypes
  import opened PayloadParser
  import opened Storage
  import opened Quorum

  // ---------------------------------------------------------------------------
  // Calls, events, instance state
  // ---------------------------------------------------------------------------

  /** A governance payload with the signatures over it. */
  datatype Signed = Signed(payload: Bytes, sigs: seq<Bytes>)

  /** A press payload with the press's signature over it. */
  datatype Stamp = Stamp(press: B256, payload: Bytes, sig: Bytes)

  /** The write operations, with the arguments the contract looks at. */
  datatype Call =
    | RegisterCard(card: B256, cid: Bytes, policy: B256, stamp: Stamp)
    | UpdateHead(card: B256, newCid: Bytes, prevCid: Bytes, stamp: Stamp)
    | ClaimOpenOffer(offer: B256, maxAcceptances: nat, expiresAt: nat, card: B256, cid: Bytes, policy: B256,
                     stamp: Stamp)
    | RegisterAddressForward(old_: B256, new_: B256, stamp: Stamp)
    | BatchUpdateCardHeads(policy: B256, cards: seq<B256>, prevCids: seq<Bytes>, newCids: seq<Bytes>, stamp: Stamp)
    | RegisterSubCard(sub: B256, master: B256, head: Bytes, docCid: Bytes, stamp: Stamp, adminPayload: Bytes,
                      adminSig: Bytes)
    | DeregisterSubCard(sub: B256, stamp: Stamp)
    | RegisterPolicy(policy: B256, key: Bytes, gov: Signed)
    | DeregisterPolicy(policy: B256, gov: Signed)
    | AuthorizePress(policy: B256, press: B256, key: Bytes, mldsaHash: B256, gov: Signed)
    | RevokePress(policy: B256, press: B256, gov: Signed)
    | RotateAuthorizerKey(policy: B256, key: Bytes, gov: Signed)
    | RotateGovernanceKeys(body: u8, keysFlat: Bytes, keyCount: u8, quorum: u8, gov: Signed)
    | SetProtocolVersion(newVersion: string, gov: Signed)
    | DisablePolicyDelete(gov: Signed)
    | ProposeLogicUpgrade(address: Address, gov: Signed)
    | ConfirmLogicUpgrade(address: Address, gov: Signed)
    | CancelLogicUpgrade(gov: Signed)
    | ProposeVerifierUpgrade(address: Address, gov: Signed)
    | ConfirmVerifierUpgrade(address: Address, gov: Signed)
    | CancelVerifierUpgrade(gov: Signed)
    | RotateOnChainKeyScheme(policy: B256, stamp: Stamp, newMldsaKey: Bytes, mldsaSig: Bytes)
    | RegisterDomain(domain: Bytes, admin: B256, key: Bytes, gov: Signed)
    | DeregisterDomain(domain: Bytes, gov: Signed)
    | SetPath(domain: Bytes, path: Bytes, policyCard: B256, admin: B256, sub: B256, stamp: Stamp)
    | RemovePath(domain: Bytes, path: Bytes, card: B256, stamp: Stamp, gov: Signed)
    | ClearDomainEntries(domain: Bytes, paths: seq<Bytes>, gov: Signed)
    | FlagDomainFraudRisk(domain: Bytes, fraudRisk: u8, suspensionExpiresAt: nat, gov: Signed)
    | GovernanceSetPath(domain: Bytes, path: Bytes, policyCard: B256, gov: Signed)
    | SetDnsPolicy(newPolicy: B256, gov: Signed)

  datatype Event =
    | CardRegistered(card: B256, policy: B256, press: B256, cid: Bytes, at: nat)
    | CardHeadUpdated(card: B256, prevCid: Bytes, newCid: Bytes, press: B256, at: nat)
    | SubCardRegistered(sub: B256, master: B256, docCid: Bytes, at: nat)
    | SubCardDeregistered(sub: B256, master: B256, at: nat)
    | OpenOfferClaimed(offer: B256, card: B256, useCount: nat, at: nat)
    | AddressTransition(old_: B256, new_: B256, at: nat)
    | PolicyRegistered(policy: B256, at: nat)
    | PolicyDeregistered(policy: B256, at: nat)
    | PressAuthorized(policy: B256, press: B256, at: nat)
    | PressRevoked(policy: B256, press: B256, at: nat)
    | AuthorizerKeyRotated(policy: B256, at: nat)
    | GovernanceKeysRotated(body: u8, newQuorum: u8, keyCount: u8, version: nat, at: nat)
    | ProtocolVersionUpdated(oldVersion: string, newVersion: string, at: nat)
    | PolicyDeletePermanentlyDisabled(at: nat)
    | LogicUpgradeProposed(address: Address, at: nat, timelockExpires: nat)
    | LogicUpgradeConfirmed(address: Address, at: nat)
    | LogicUpgradeCancelled(address: Address, at: nat)
    | VerifierUpgradeProposed(address: Address, at: nat, timelockExpires: nat)
    | VerifierUpgradeConfirmed(address: Address, at: nat)
    | VerifierUpgradeCancelled(address: Address, at: nat)
    | OnChainKeySchemeRotated(policy: B256, press: B256, newMldsaKey: Bytes)
    | DomainRegistered(domain: Bytes, admin: B256, at: nat)
    | DomainDeregistered(domain: Bytes, at: nat)
    | DomainFraudRiskUpdated(domain: Bytes, fraudRisk: u8, suspensionExpiresAt: nat, at: nat)
    | PolicyAddressSet(domain: Bytes, path: Bytes, policyCard: B256, admin: B256, sub: B256, press: B256, at: nat)
    | PolicyAddressRemoved(domain: Bytes, path: Bytes, at: nat)
    | DomainEntriesCleared(domain: Bytes, pathsCleared: nat, at: nat)
    | PolicyAddressGovernanceSet(domain: Bytes, path: Bytes, policyCard: B256, oldPolicyCard: B256, at: nat)
    | DnsGovernancePolicyAddressUpdated(oldAddress: B256, newAddress: B256, at: nat)

  /** What an instance keeps itself; its storage address never changes after `initialize`. */
  datatype Logic = Logic(verifier: Address, pendingVerifier: Pending, protocolVersion: string)

  /** What the chain supplies: the foreign computations, the instance's address, time and height. */
  datatype Env = Env(crypto: Crypto, self: Address, now: nat, block: nat)

  datatype Effects = Effects(store: Store, logic: Logic, events: seq<Event>)

  // ---------------------------------------------------------------------------
  // The two gates
  // ---------------------------------------------------------------------------

  const OP_REGISTER_CARD := Ascii("register_card")
  const OP_UPDATE_CARD_HEAD := Ascii("update_card_head")
  const OP_CLAIM_OPEN_OFFER := Ascii("claim_open_offer")
  const OP_REGISTER_ADDRESS_FORWARD := Ascii("register_address_forward")
  const OP_BATCH_UPDATE_CARD_HEADS := Ascii("batch_update_card_heads")
  const OP_REGISTER_SUB_CARD := Ascii("register_sub_card")
  const OP_DEREGISTER_SUB_CARD := Ascii("deregister_sub_card")
  const OP_SET_POLICY_ADDRESS := Ascii("set_policy_address")
  const OP_REMOVE_POLICY_ADDRESS := Ascii("remove_policy_address")

  /** How a call is authorized. */
  datatype Gate =
    /** The press write gate; `bumps` is false where the operation itself bumps the sequence later. */
    | Press(policy: B256, stamp: Stamp, op: Bytes, bumps: bool)
    /** The governance quorum check. */
    | Governed(body: u8, gov: Signed)
    /** The press co-signature of an address forward. */
    | CoSigned(policy: B256, stamp: Stamp)
    /** The checks of a key-scheme rotation. */
    | KeyScheme(policy: B256, stamp: Stamp, newMldsaKey: Bytes, mldsaSig: Bytes)

  /** A 64-byte signature by a 64-byte key; anything else is no signature. */
  predicate SingleSig(e: Env, l: Logic, hash: B256, sig: Bytes, key: Bytes) {
    |sig| == KEY_LEN && |key| == KEY_LEN && e.crypto.verify(l.verifier, hash, sig, key)
  }

  /** The six steps of the press write gate; the sequence number that was used. */
  function PressGate(e: Env, s: Store, l: Logic, policy: B256, stamp: Stamp, op: Bytes): Result<nat, Error> {
    var entry := s.Press(policy, stamp.press);
    :- Need(s.PolicyExists(policy), UnrecognizedPolicy);
    :- Need(|entry.key| == KEY_LEN, PressNotAuthorized);
    :- Need(entry.active, Error.PressRevoked);
    :- Need(e.crypto.verify(l.verifier, e.crypto.keccak(stamp.payload), stamp.sig, entry.key), InvalidPressSignature);
    var opOk :- VerifyOp(stamp.payload, op);
    :- Need(opOk, InvalidPressSignature);
    var sequence :- ExtractSequence(stamp.payload);
    :- Need(sequence.Some?, InvalidPayload);
    :- Need(sequence.value == entry.nextSequence, SequenceMismatch);
    Success(sequence.value)
  }

  /** What an accepted governance payload establishes. */
  datatype Grant = Grant(nonce: B256, signers: set<nat>)

  function BallotOf(e: Env, s: Store, l: Logic, body: u8, payload: Bytes): Ballot {
    Ballot(e.crypto, l.verifier, e.crypto.keccak(payload), s.KeysetOf(body))
  }

  function QuorumGate(e: Env, s: Store, l: Logic, body: u8, gov: Signed): Result<Grant, Error> {
    var version :- ExtractGovernanceVersion(gov.payload);
    :- Need(version.Some?, InvalidPayload);
    :- Need(version.value == s.KeysetOf(body).version, GovernanceVersionMismatch);
    var nonce :- ExtractNonceBytes(gov.payload);
    :- Need(nonce.Some?, InvalidPayload);
    :- Need(e.crypto.keccak(nonce.value) !in s.usedNonces, NonceReused);
    var signers :- BallotOf(e, s, l, body, gov.payload).Signers(gov.sigs);
    Success(Grant(e.crypto.keccak(nonce.value), signers))
  }

  function CoSignature(e: Env, s: Store, l: Logic, policy: B256, stamp: Stamp): Result<(), Error> {
    var entry := s.Press(policy, stamp.press);
    :- Need(|entry.key| == KEY_LEN, PressNotAuthorized);
    :- Need(entry.active, Error.PressRevoked);
    var opOk :- VerifyOp(stamp.payload, OP_REGISTER_ADDRESS_FORWARD);
    :- Need(opOk, InvalidPressSignature);
    :- Need(SingleSig(e, l, e.crypto.keccak(stamp.payload), stamp.sig, entry.key), InvalidPressSignature);
    Success(())
  }

  function KeySchemeChecks(e: Env, s: Store, l: Logic, policy: B256, stamp: Stamp, newKey: Bytes, mldsaSig: Bytes)
    : Result<(), Error>
  {
    var entry := s.Press(policy, stamp.press);
    :- Need(|entry.key| == KEY_LEN, PressNotAuthorized);
    :- Need(entry.active, Error.PressRevoked);
    :- Need(entry.keyScheme == 0, KeySchemeAlreadyUpgraded);
    :- Need(s.keySchemePhase >= 1, SchemeUpgradeNotAvailable);
    var deadline :- ExtractDeadlineBlock(stamp.payload);
    :- Need(deadline.Some?, InvalidPayload);
    :- Need(e.block <= deadline.value, RotationPayloadExpired);
    :- Need(e.crypto.verify(l.verifier, e.crypto.keccak(stamp.payload), stamp.sig, entry.key), InvalidPressSignature);
    :- Need(|newKey| == MLDSA44_KEY_LEN, InvalidPayload);
    :- Need(e.crypto.keccak(newKey) == entry.mldsaHash, MlDsa44KeyHashMismatch);
    :- Need(|mldsaSig| == MLDSA44_SIG_LEN, InvalidPayload);
    Success(())
  }

  function Bump(s: Store, policy: B256, press: B256): Store {
    var p := s.Press(policy, press);
    s.(presses := s.presses[(policy, press) := p.(nextSequence := (p.nextSequence + 1) % U64_RANGE)])
  }

  /** Which gate guards a call. */
  function GateOf(s: Store, c: Call): Gate {
    match c
    case RegisterCard(_, _, policy, stamp) => Press(policy, stamp, OP_REGISTER_CARD, true)
    case UpdateHead(card, _, _, stamp) => Press(s.Card(card).policy, stamp, OP_UPDATE_CARD_HEAD, true)
    case ClaimOpenOffer(_, _, _, _, _, policy, stamp) => Press(policy, stamp, OP_CLAIM_OPEN_OFFER, true)
    case RegisterAddressForward(old_, _, stamp) => CoSigned(s.Card(old_).policy, stamp)
    case BatchUpdateCardHeads(policy, _, _, _, stamp) => Press(policy, stamp, OP_BATCH_UPDATE_CARD_HEADS, false)
    case RegisterSubCard(_, master, _, _, stamp, _, _) =>
      Press(s.Card(master).policy, stamp, OP_REGISTER_SUB_CARD, true)
    case DeregisterSubCard(sub, stamp) =>
      Press(s.Card(s.SubCard(sub).master).policy, stamp, OP_DEREGISTER_SUB_CARD, true)
    case SetPath(_, _, _, _, _, stamp) => Press(s.dnsPolicy, stamp, OP_SET_POLICY_ADDRESS, true)
    case RemovePath(_, _, card, stamp, gov) =>
      if card != ZERO then Press(s.dnsPolicy, stamp, OP_REMOVE_POLICY_ADDRESS, true)
      else Governed(DNS_GOVERNANCE_BODY, gov)
    case RotateOnChainKeyScheme(policy, stamp, newKey, mldsaSig) => KeyScheme(policy, stamp, newKey, mldsaSig)
    case AuthorizePress(_, _, _, _, gov) => Governed(PRESS_REGISTRY_BODY, gov)
    case RevokePress(_, _, gov) => Governed(PRESS_REGISTRY_BODY, gov)
    case RotateGovernanceKeys(body, _, _, _, gov) => Governed(body, gov)
    case RegisterDomain(_, _, _, gov) => Governed(DNS_GOVERNANCE_BODY, gov)
    case DeregisterDomain(_, gov) => Governed(DNS_GOVERNANCE_BODY, gov)
    case ClearDomainEntries(_, _, gov) => Governed(DNS_GOVERNANCE_BODY, gov)
    case FlagDomainFraudRisk(_, _, _, gov) => Governed(DNS_GOVERNANCE_BODY, gov)
    case GovernanceSetPath(_, _, _, gov) => Governed(DNS_GOVERNANCE_BODY, gov)
    case SetDnsPolicy(_, gov) => Governed(DNS_GOVERNANCE_BODY, gov)
    case _ => Governed(ROOT_POLICY_BODY, c.gov)
  }

  /** Pass the gate: the store with the sequence bumped or the nonce marked. */
  function Authorize(e: Env, s: Store, l: Logic, g: Gate): Result<Store, Error> {
    match g
    case Press(policy, stamp, op, bumps) =>
      var _ :- PressGate(e, s, l, policy, stamp, op);
      :- Need(bumps ==> e.self == s.logic, CallerNotLogicContract);
      Success(if bumps then Bump(s, policy, stamp.press) else s)
    case Governed(body, gov) =>
      var grant :- QuorumGate(e, s, l, body, gov);
      :- Need(e.self == s.logic, CallerNotLogicContract);
      Success(s.(usedNonces := s.usedNonces + {grant.nonce}))
    case CoSigned(policy, stamp) =>
      var _ :- CoSignature(e, s, l, policy, stamp);
      Success(s)
    case KeyScheme(policy, stamp, newKey, mldsaSig) =>
      var _ :- KeySchemeChecks(e, s, l, policy, stamp, newKey, mldsaSig);
      Success(s)
  }

  // ---------------------------------------------------------------------------
  // Checks before and after the gate
  // ---------------------------------------------------------------------------

  /** The additional signature over a sub-card of a DNS admin card; all-zero for other masters. */
  function AdminSignature(e: Env, s: Store, l: Logic, master: B256, payload: Bytes, sig: Bytes): Result<(), Error> {
    var key := s.AdminKey(master);
    if |key| == KEY_LEN then
      :- Need(|sig| == KEY_LEN && payload != [], InvalidAdminCardSignature);
      var sub :- Field(payload, FIELD_SUB_CARD_ADDRESS);
      var doc :- Field(payload, FIELD_SUB_CARD_DOC_CID);
      :- Need(sub.Some? && doc.Some?, InvalidAdminCardSignature);
      :- Need(SingleSig(e, l, e.crypto.keccak(payload), sig, key), InvalidAdminCardSignature);
      Success(())
    else
      :- Need(IsZeroSignature(sig) && payload == [], InvalidAdminCardSignature);
      Success(())
  }

  predicate IsZeroSignature(sig: Bytes) {
    |sig| == KEY_LEN && forall i :: 0 <= i < |sig| ==> sig[i] == 0
  }

  predicate ValidDomain(domain: Bytes) {
    domain != [] && |domain| <= MAX_DOMAIN_LEN
  }

  function DomainHash(x: Crypto, domain: Bytes): B256 {
    x.keccak(domain)
  }

  /** domain || 0x00 || path, the text whose hash keys the policy-address table. */
  function PathText(domain: Bytes, path: Bytes): Bytes {
    domain + [0] + path
  }

  function PathKey(x: Crypto, domain: Bytes, path: Bytes): B256 {
    x.keccak(PathText(domain, path))
  }

  /** A pending upgrade can be confirmed now. The deadline is 64-bit arithmetic. */
  function UpgradeReady(p: Pending, address: Address, timelock: nat, now: nat, version: nat): Result<(), Error> {
    var deadline := (p.proposedAt + timelock) % U64_RANGE;
    :- Need(p.address != ZERO, NoUpgradePending);
    :- Need(address == p.address, UpgradeAddressMismatch);
    :- Need(now >= deadline, UpgradeTimelockNotElapsed);
    :- Need(version == p.governanceVersion, GovernanceVersionMismatch);
    Success(())
  }

  function UpgradeFree(p: Pending, address: Address, current: Address): Result<(), Error> {
    var pending := p.address;
    :- Need(pending == ZERO, UpgradeAlreadyPending);
    :- Need(address != ZERO, InvalidPayload);
    :- Need(address != current, InvalidPayload);
    Success(())
  }

  /** Checks of the card and sub-card operations before the gate. */
  function CardPreCheck(e: Env, s: Store, l: Logic, c: Call): Result<(), Error> {
    match c
    case RegisterCard(card, cid, _, _) =>
      :- Need(!s.Card(card).exists_, CardAlreadyExists);
      :- Need(|cid| <= MAX_CID_LEN, LogCidTooLong);
      Success(())
    case UpdateHead(card, newCid, _, _) =>
      :- Need(s.Card(card).exists_, CardNotFound);
      :- Need(|newCid| <= MAX_CID_LEN, LogCidTooLong);
      Success(())
    case ClaimOpenOffer(offer, maxAcceptances, expiresAt, card, cid, _, _) =>
      :- Need(expiresAt == 0 || e.now < expiresAt, OfferExpired);
      :- Need(maxAcceptances == U64_RANGE - 1 || s.OfferCount(offer) < maxAcceptances, OfferAtCapacity);
      :- Need(!s.Card(card).exists_, CardAlreadyExists);
      :- Need(|cid| <= MAX_CID_LEN, LogCidTooLong);
      Success(())
    case RegisterAddressForward(old_, new_, _) =>
      :- Need(s.Card(old_).exists_, CardNotFound);
      :- Need(s.Card(new_).exists_, CardNotFound);
      :- Need(s.Card(old_).forwardTo == ZERO, ForwardAlreadySet);
      Success(())
    case BatchUpdateCardHeads(_, cards, prevCids, newCids, _) =>
      :- Need(0 < |cards| <= MAX_BATCH_SIZE, BatchSizeInvalid);
      :- Need(|prevCids| == |cards| && |newCids| == |cards|, BatchSizeInvalid);
      Success(())
    case RegisterSubCard(sub, master, head, docCid, _, adminPayload, adminSig) =>
      :- Need(s.Card(master).exists_, CardNotFound);
      :- Need(!s.SubCard(sub).active, SubCardAlreadyActive);
      :- Need(s.Card(master).logHead == head, StaleRegistrationLogHead);
      :- Need(|head| <= MAX_CID_LEN, LogCidTooLong);
      :- Need(|docCid| <= MAX_CID_LEN, LogCidTooLong);
      AdminSignature(e, s, l, master, adminPayload, adminSig)
    case DeregisterSubCard(sub, _) =>
      :- Need(s.SubCard(sub).master != ZERO, SubCardNotFound);
      :- Need(s.SubCard(sub).active, SubCardNotFound);
      :- Need(s.Card(s.SubCard(sub).master).exists_, CardNotFound);
      Success(())
    case _ => Success(())
  }

  /** Checks of the governance and upgrade operations before the gate. */
  function GovernancePreCheck(e: Env, s: Store, l: Logic, c: Call): Result<(), Error> {
    match c
    case RegisterPolicy(policy, key, _) =>
      :- Need(!s.PolicyExists(policy), PolicyAlreadyRegistered);
      :- Need(|key| == KEY_LEN, InvalidPayload);
      Success(())
    case DeregisterPolicy(policy, _) =>
      :- Need(s.PolicyExists(policy), UnrecognizedPolicy);
      Success(())
    case AuthorizePress(policy, _, key, _, _) =>
      :- Need(s.PolicyExists(policy), UnrecognizedPolicy);
      :- Need(|key| == KEY_LEN, InvalidPayload);
      Success(())
    case RevokePress(policy, press, _) =>
      :- Need(|s.Press(policy, press).key| == KEY_LEN, PressNotAuthorized);
      :- Need(s.Press(policy, press).active, Error.PressRevoked);
      Success(())
    case RotateAuthorizerKey(policy, key, _) =>
      :- Need(s.PolicyExists(policy), UnrecognizedPolicy);
      :- Need(|key| == KEY_LEN, InvalidPayload);
      Success(())
    case RotateGovernanceKeys(_, keysFlat, keyCount, quorum, _) =>
      :- Need(keyCount >= MIN_GOVERNANCE_KEYS, KeysetTooSmall);
      :- Need(quorum > keyCount / 2, QuorumTooLow);
      :- Need(|keysFlat| == keyCount * KEY_LEN, InvalidPayload);
      Success(())
    case SetProtocolVersion(newVersion, _) =>
      :- Need(newVersion != "", InvalidPayload);
      Success(())
    case DisablePolicyDelete(_) =>
      :- Need(!s.deleteDisabled, PolicyDeleteAlreadyDisabled);
      Success(())
    case ProposeLogicUpgrade(address, _) => UpgradeFree(s.pending, address, s.logic)
    case ConfirmLogicUpgrade(address, _) =>
      UpgradeReady(s.pending, address, LOGIC_UPGRADE_TIMELOCK_SECS, e.now, s.KeysetOf(ROOT_POLICY_BODY).version)
    case CancelLogicUpgrade(_) =>
      :- Need(s.pending.address != ZERO, NoUpgradePending);
      Success(())
    case ProposeVerifierUpgrade(address, _) => UpgradeFree(l.pendingVerifier, address, l.verifier)
    case ConfirmVerifierUpgrade(address, _) =>
      UpgradeReady(l.pendingVerifier, address, VERIFIER_UPGRADE_TIMELOCK_SECS, e.now,
                   s.KeysetOf(ROOT_POLICY_BODY).version)
    case CancelVerifierUpgrade(_) =>
      :- Need(l.pendingVerifier.address != ZERO, NoUpgradePending);
      Success(())
    case _ => Success(())
  }

  /** Checks of the DNS operations before the gate. */
  function DnsPreCheck(e: Env, s: Store, c: Call): Result<(), Error> {
    match c
    case RegisterDomain(domain, admin, key, _) =>
      var d := s.Domain(DomainHash(e.crypto, domain));
      :- Need(ValidDomain(domain), InvalidDnsParameter);
      :- Need(|key| == KEY_LEN, InvalidDnsParameter);
      :- Need(s.dnsPolicy != ZERO, CardNotDnsGovernancePolicy);
      :- Need(s.Card(admin).exists_, CardNotFound);
      :- Need(s.Card(admin).policy == s.dnsPolicy, CardNotDnsGovernancePolicy);
      :- Need(!(d.exists_ && d.admin != ZERO), DomainAlreadyRegistered);
      Success(())
    case DeregisterDomain(domain, _) => ExistingDomain(e, s, domain)
    case SetPath(domain, path, _, admin, sub, _) =>
      var d := s.Domain(DomainHash(e.crypto, domain));
      :- Need(ValidDomain(domain), InvalidDnsParameter);
      :- Need(|path| <= MAX_PATH_LEN, InvalidDnsParameter);
      :- Need(s.dnsPolicy != ZERO, CardNotDnsGovernancePolicy);
      :- Need(d.exists_, DomainNotFound);
      :- Need(!(d.fraudRisk == 2 && e.now < d.suspensionExpiresAt), DomainSuspended);
      :- Need(admin == d.admin, AdminCardMismatch);
      :- Need(sub != ZERO ==> s.SubCard(sub).active && s.SubCard(sub).master == admin, SubCardNotDomainAdminSubcard);
      Success(())
    case RemovePath(domain, path, card, _, _) =>
      var _ :- ExistingDomain(e, s, domain);
      :- Need(s.PolicyAddress(PathKey(e.crypto, domain, path)) != ZERO, DomainPathEntryNotFound);
      :- Need(card != ZERO ==> s.dnsPolicy != ZERO, CardNotDnsGovernancePolicy);
      :- Need(card != ZERO ==> s.Card(card).exists_, CardNotFound);
      :- Need(card != ZERO ==> s.Card(card).policy == s.dnsPolicy, CardNotDnsGovernancePolicy);
      Success(())
    case ClearDomainEntries(domain, paths, _) =>
      :- Need(ValidDomain(domain), InvalidDnsParameter);
      :- Need(0 < |paths| <= MAX_CLEAR_ENTRIES_BATCH, BatchSizeInvalid);
      ExistingDomain(e, s, domain)
    case FlagDomainFraudRisk(domain, risk, expires, _) =>
      :- Need(ValidDomain(domain), InvalidDnsParameter);
      :- Need(risk <= 2, InvalidDnsParameter);
      :- Need(if risk == 2 then expires > e.now else expires == 0, InvalidDnsParameter);
      ExistingDomain(e, s, domain)
    case GovernanceSetPath(domain, _, policyCard, _) =>
      var _ :- ExistingDomain(e, s, domain);
      :- Need(policyCard != ZERO ==> s.Card(policyCard).exists_, PolicyCardNotFound);
      Success(())
    case SetDnsPolicy(newPolicy, _) =>
      :- Need(newPolicy != ZERO, InvalidDnsParameter);
      :- Need(s.PolicyExists(newPolicy), UnrecognizedPolicy);
      :- Need(newPolicy != s.dnsPolicy, InvalidDnsParameter);
      Success(())
    case _ => Success(())
  }

  function ExistingDomain(e: Env, s: Store, domain: Bytes): Result<(), Error> {
    var d := s.Domain(DomainHash(e.crypto, domain));
    :- Need(ValidDomain(domain), InvalidDnsParameter);
    :- Need(d.exists_, DomainNotFound);
    Success(())
  }

  /** The batch items from index `i` on are valid, checked in order. */
  function BatchItems(s: Store, policy: B256, cards: seq<B256>, prevCids: seq<Bytes>, newCids: seq<Bytes>, i: nat)
    : Result<(), Error>
    requires i <= |cards| == |prevCids| == |newCids|
    decreases |cards| - i
  {
    if i == |cards| then Success(())
    else
      :- Need(cards[i] !in cards[i + 1..], BatchItemInvalid);
      :- Need(|newCids[i]| <= MAX_CID_LEN, LogCidTooLong);
      :- Need(s.Card(cards[i]).exists_, CardNotFound);
      :- Need(s.Card(cards[i]).policy == policy, BatchItemInvalid);
      :- Need(s.Card(cards[i]).logHead == prevCids[i], StalePrevCid);
      BatchItems(s, policy, cards, prevCids, newCids, i + 1)
  }

  /** Checks after the gate; a failure undoes the gate's bump or nonce as well. */
  function PostCheck(e: Env, s: Store, c: Call): Result<(), Error> {
    match c
    case UpdateHead(card, _, prevCid, _) =>
      :- Need(s.Card(card).logHead == prevCid, StalePrevCid);
      Success(())
    case BatchUpdateCardHeads(policy, cards, prevCids, newCids, _) =>
      if |cards| == |prevCids| == |newCids| then BatchItems(s, policy, cards, prevCids, newCids, 0)
      else Failure(BatchSizeInvalid)
    case RegisterSubCard(sub, _, _, _, _, _, _) =>
      :- Need(s.SubCard(sub).deregisteredAt == 0, DeregisteredAtImmutable);
      Success(())
    case DeregisterSubCard(sub, _) =>
      var sc := s.SubCard(sub);
      :- Need(sc.deregisteredAt != 0 ==> e.now != 0, DeregisteredAtImmutable);
      :- Need(|sc.registrationLogHead| <= MAX_CID_LEN && |sc.docCid| <= MAX_CID_LEN, CidTooLong);
      Success(())
    case DeregisterPolicy(_, _) =>
      :- Need(!s.deleteDisabled, PolicyDeleteDisabled);
      Success(())
    case SetPath(_, _, policyCard, _, _, _) =>
      :- Need(s.Card(policyCard).exists_, PolicyCardNotFound);
      Success(())
    case _ => Success(())
  }

  // ---------------------------------------------------------------------------
  // Effects, slot by slot
  // ---------------------------------------------------------------------------

  function WithHead(cards: map<B256, CardEntry>, card: B256, head: Bytes, press: B256): map<B256, CardEntry> {
    cards[card := Get(cards, card, NO_CARD).(logHead := head, lastPress := press)]
  }

  /** The first `n` heads of a batch written in order. */
  function WithHeads(cards: map<B256, CardEntry>, batch: seq<B256>, heads: seq<Bytes>, press: B256, n: nat)
    : map<B256, CardEntry>
    requires n <= |batch| == |heads|
  {
    if n == 0 then cards
    else WithHead(WithHeads(cards, batch, heads, press, n - 1), batch[n - 1], heads[n - 1], press)
  }

  function CardsAfter(s: Store, c: Call): map<B256, CardEntry> {
    match c
    case RegisterCard(card, cid, policy, stamp) =>
      s.cards[card := CardEntry(cid, policy, stamp.press, s.Card(card).forwardTo, true)]
    case ClaimOpenOffer(_, _, _, card, cid, policy, stamp) =>
      s.cards[card := CardEntry(cid, policy, stamp.press, s.Card(card).forwardTo, true)]
    case UpdateHead(card, newCid, _, stamp) => WithHead(s.cards, card, newCid, stamp.press)
    case RegisterAddressForward(old_, new_, _) => s.cards[old_ := s.Card(old_).(forwardTo := new_)]
    case BatchUpdateCardHeads(_, cards, _, newCids, stamp) =>
      if |cards| == |newCids| then WithHeads(s.cards, cards, newCids, stamp.press, |cards|) else s.cards
    case _ => s.cards
  }

  function SubCardsAfter(now: nat, s: Store, c: Call): map<B256, SubCardEntry> {
    match c
    case RegisterSubCard(sub, master, head, docCid, _, _, _) =>
      s.subCards[sub := SubCardEntry(master, head, docCid, true, now, 0)]
    case DeregisterSubCard(sub, _) =>
      s.subCards[sub := s.SubCard(sub).(active := false, deregisteredAt := now)]
    case _ => s.subCards
  }

  function OffersAfter(s: Store, c: Call): map<B256, nat> {
    match c
    case ClaimOpenOffer(offer, _, _, _, _, _, _) =>
      s.offers[offer := (s.OfferCount(offer) + 1) % U64_RANGE]
    case _ => s.offers
  }

  function PolicyKeysAfter(s: Store, c: Call): map<B256, Bytes> {
    match c
    case RegisterPolicy(policy, key, _) => s.policyKeys[policy := key]
    case RotateAuthorizerKey(policy, key, _) => s.policyKeys[policy := key]
    case DeregisterPolicy(policy, _) => s.policyKeys[policy := []]
    case _ => s.policyKeys
  }

  /** `n` zero bytes. */
  function Zeros(n: nat): Bytes {
    if n == 0 then [] else Zeros(n - 1) + [0]
  }

  function PressesAfter(now: nat, s: Store, c: Call): map<(B256, B256), PressEntry> {
    match c
    case AuthorizePress(policy, press, key, mldsaHash, _) =>
      s.presses[(policy, press) := PressEntry(key, mldsaHash, 0, true, 0, now, 0)]
    case RevokePress(policy, press, _) =>
      s.presses[(policy, press) := s.Press(policy, press).(active := false, revokedAt := now)]
    case RotateOnChainKeyScheme(policy, stamp, _, _) =>
      s.presses[(policy, stamp.press) := s.Press(policy, stamp.press).(key := Zeros(KEY_LEN), keyScheme := 1)]
    case BatchUpdateCardHeads(policy, _, _, _, stamp) => Bump(s, policy, stamp.press).presses
    case _ => s.presses
  }

  function KeysetsAfter(s: Store, c: Call): map<u8, Keyset> {
    match c
    case RotateGovernanceKeys(body, keysFlat, keyCount, quorum, _) =>
      s.keysets[body := Keyset(keysFlat, keyCount, quorum, (s.KeysetOf(body).version + 1) % U32_RANGE, 0)]
    case _ => s.keysets
  }

  function LogicAddressAfter(s: Store, c: Call): Address {
    match c
    case ConfirmLogicUpgrade(address, _) => address
    case _ => s.logic
  }

  /** The hash under which a payload's nonce is marked. */
  function NonceKey(x: Crypto, payload: Bytes): B256 {
    match ExtractNonceBytes(payload)
    case Success(Some(raw)) => x.keccak(raw)
    case _ => ZERO
  }

  function PendingAfter(e: Env, s: Store, c: Call): Pending {
    match c
    case ProposeLogicUpgrade(address, gov) =>
      Pending(address, e.now, s.KeysetOf(ROOT_POLICY_BODY).version, NonceKey(e.crypto, gov.payload))
    case ConfirmLogicUpgrade(_, _) => NO_PENDING
    case CancelLogicUpgrade(_) => NO_PENDING
    case _ => s.pending
  }

  function DomainsAfter(e: Env, s: Store, c: Call): map<B256, DomainEntry> {
    match c
    case RegisterDomain(domain, admin, _, _) =>
      s.domains[DomainHash(e.crypto, domain) := DomainEntry(admin, e.now, 0, 0, true)]
    case DeregisterDomain(domain, _) =>
      var h := DomainHash(e.crypto, domain);
      s.domains[h := s.Domain(h).(admin := ZERO, exists_ := true)]
    case FlagDomainFraudRisk(domain, risk, expires, _) =>
      var h := DomainHash(e.crypto, domain);
      s.domains[h := s.Domain(h).(fraudRisk := risk, suspensionExpiresAt := expires, exists_ := true)]
    case _ => s.domains
  }

  /** The policy-address table after the first `n` listed paths are zeroed. */
  function Cleared(x: Crypto, table: map<B256, B256>, domain: Bytes, paths: seq<Bytes>, n: nat): map<B256, B256>
    requires n <= |paths|
  {
    if n == 0 then table
    else
      var t := Cleared(x, table, domain, paths, n - 1);
      var key := PathKey(x, domain, paths[n - 1]);
      if Get(t, key, ZERO) != ZERO then t[key := ZERO] else t
  }

  /** How many of the first `n` listed paths still held something when their turn came. */
  function ClearedCount(x: Crypto, table: map<B256, B256>, domain: Bytes, paths: seq<Bytes>, n: nat): nat
    requires n <= |paths|
  {
    if n == 0 then 0
    else
      var t := Cleared(x, table, domain, paths, n - 1);
      ClearedCount(x, table, domain, paths, n - 1)
      + (if Get(t, PathKey(x, domain, paths[n - 1]), ZERO) != ZERO then 1 else 0)
  }

  function PolicyAddressesAfter(x: Crypto, s: Store, c: Call): map<B256, B256> {
    match c
    case SetPath(domain, path, policyCard, _, _, _) => s.policyAddresses[PathKey(x, domain, path) := policyCard]
    case RemovePath(domain, path, _, _, _) => s.policyAddresses[PathKey(x, domain, path) := ZERO]
    case GovernanceSetPath(domain, path, policyCard, _) => s.policyAddresses[PathKey(x, domain, path) := policyCard]
    case ClearDomainEntries(domain, paths, _) => Cleared(x, s.policyAddresses, domain, paths, |paths|)
    case _ => s.policyAddresses
  }

  function AdminKeysAfter(x: Crypto, s: Store, c: Call): map<B256, Bytes> {
    match c
    case RegisterDomain(_, admin, key, _) => s.adminKeys[admin := key]
    case DeregisterDomain(domain, _) =>
      var old_ := s.Domain(DomainHash(x, domain)).admin;
      if old_ != ZERO then s.adminKeys[old_ := []] else s.adminKeys
    case _ => s.adminKeys
  }

  function StoreAfter(e: Env, s: Store, c: Call): Store {
    Store(CardsAfter(s, c), PolicyKeysAfter(s, c), PressesAfter(e.now, s, c), SubCardsAfter(e.now, s, c),
          OffersAfter(s, c), KeysetsAfter(s, c), s.usedNonces, LogicAddressAfter(s, c), PendingAfter(e, s, c),
          s.keySchemePhase, s.deleteDisabled || c.DisablePolicyDelete?, DomainsAfter(e, s, c),
          PolicyAddressesAfter(e.crypto, s, c), AdminKeysAfter(e.crypto, s, c),
          if c.SetDnsPolicy? then c.newPolicy else s.dnsPolicy)
  }

  function LogicAfter(e: Env, s: Store, l: Logic, c: Call): Logic {
    match c
    case ProposeVerifierUpgrade(address, gov) =>
      var version := s.KeysetOf(ROOT_POLICY_BODY).version;
      l.(pendingVerifier := Pending(address, e.now, version, NonceKey(e.crypto, gov.payload)))
    case ConfirmVerifierUpgrade(address, _) => l.(pendingVerifier := NO_PENDING, verifier := address)
    case CancelVerifierUpgrade(_) => l.(pendingVerifier := NO_PENDING)
    case SetProtocolVersion(newVersion, _) => l.(protocolVersion := newVersion)
    case _ => l
  }

  /** The version readers see; an instance that never set one counts as 0.1. */
  function VersionOf(l: Logic): string {
    if l.protocolVersion == "" then "0.1" else l.protocolVersion
  }

  function HeadEvents(batch: seq<B256>, prevCids: seq<Bytes>, newCids: seq<Bytes>, press: B256, now: nat, n: nat)
    : seq<Event>
    requires n <= |batch| == |prevCids| == |newCids|
  {
    if n == 0 then []
    else HeadEvents(batch, prevCids, newCids, press, now, n - 1)
         + [CardHeadUpdated(batch[n - 1], prevCids[n - 1], newCids[n - 1], press, now)]
  }

  function CardEvents(e: Env, s: Store, c: Call): seq<Event> {
    match c
    case RegisterCard(card, cid, policy, stamp) => [CardRegistered(card, policy, stamp.press, cid, e.now)]
    case UpdateHead(card, newCid, prevCid, stamp) => [CardHeadUpdated(card, prevCid, newCid, stamp.press, e.now)]
    case ClaimOpenOffer(offer, _, _, card, cid, policy, stamp) =>
      [OpenOfferClaimed(offer, card, (s.OfferCount(offer) + 1) % U64_RANGE, e.now),
       CardRegistered(card, policy, stamp.press, cid, e.now)]
    case RegisterAddressForward(old_, new_, _) => [AddressTransition(old_, new_, e.now)]
    case BatchUpdateCardHeads(_, cards, prevCids, newCids, stamp) =>
      if |cards| == |prevCids| == |newCids|
      then HeadEvents(cards, prevCids, newCids, stamp.press, e.now, |cards|) else []
    case RegisterSubCard(sub, master, _, docCid, _, _, _) => [SubCardRegistered(sub, master, docCid, e.now)]
    case DeregisterSubCard(sub, _) => [SubCardDeregistered(sub, s.SubCard(sub).master, e.now)]
    case _ => []
  }

  function GovernanceEvents(e: Env, s: Store, l: Logic, c: Call): seq<Event> {
    match c
    case RegisterPolicy(policy, _, _) => [PolicyRegistered(policy, e.now)]
    case DeregisterPolicy(policy, _) => [PolicyDeregistered(policy, e.now)]
    case AuthorizePress(policy, press, _, _, _) => [PressAuthorized(policy, press, e.now)]
    case RevokePress(policy, press, _) => [Event.PressRevoked(policy, press, e.now)]
    case RotateAuthorizerKey(policy, _, _) => [AuthorizerKeyRotated(policy, e.now)]
    case RotateGovernanceKeys(body, _, keyCount, quorum, _) =>
      [GovernanceKeysRotated(body, quorum, keyCount, (s.KeysetOf(body).version + 1) % U32_RANGE, e.now)]
    case SetProtocolVersion(newVersion, _) => [ProtocolVersionUpdated(VersionOf(l), newVersion, e.now)]
    case DisablePolicyDelete(_) => [PolicyDeletePermanentlyDisabled(e.now)]
    case ProposeLogicUpgrade(a, _) =>
      [LogicUpgradeProposed(a, e.now, (e.now + LOGIC_UPGRADE_TIMELOCK_SECS) % U64_RANGE)]
    case ConfirmLogicUpgrade(a, _) => [LogicUpgradeConfirmed(a, e.now)]
    case CancelLogicUpgrade(_) => [LogicUpgradeCancelled(s.pending.address, e.now)]
    case ProposeVerifierUpgrade(a, _) =>
      [VerifierUpgradeProposed(a, e.now, (e.now + VERIFIER_UPGRADE_TIMELOCK_SECS) % U64_RANGE)]
    case ConfirmVerifierUpgrade(a, _) => [VerifierUpgradeConfirmed(a, e.now)]
    case CancelVerifierUpgrade(_) => [VerifierUpgradeCancelled(l.pendingVerifier.address, e.now)]
    case RotateOnChainKeyScheme(policy, stamp, newKey, _) => [OnChainKeySchemeRotated(policy, stamp.press, newKey)]
    case _ => []
  }

  function DnsEvents(e: Env, s: Store, c: Call): seq<Event> {
    match c
    case RegisterDomain(domain, admin, _, _) => [DomainRegistered(domain, admin, e.now)]
    case DeregisterDomain(domain, _) => [DomainDeregistered(domain, e.now)]
    case SetPath(domain, path, policyCard, admin, sub, stamp) =>
      [PolicyAddressSet(domain, path, policyCard, admin, sub, stamp.press, e.now)]
    case RemovePath(domain, path, _, _, _) => [PolicyAddressRemoved(domain, path, e.now)]
    case ClearDomainEntries(domain, paths, _) =>
      [DomainEntriesCleared(domain, ClearedCount(e.crypto, s.policyAddresses, domain, paths, |paths|), e.now)]
    case FlagDomainFraudRisk(domain, risk, expires, _) => [DomainFraudRiskUpdated(domain, risk, expires, e.now)]
    case GovernanceSetPath(domain, path, policyCard, _) =>
      [PolicyAddressGovernanceSet(domain, path, policyCard, s.PolicyAddress(PathKey(e.crypto, domain, path)), e.now)]
    case SetDnsPolicy(newPolicy, _) => [DnsGovernancePolicyAddressUpdated(s.dnsPolicy, newPolicy, e.now)]
    case _ => []
  }

  function EventsOf(e: Env, s: Store, l: Logic, c: Call): seq<Event> {
    CardEvents(e, s, c) + GovernanceEvents(e, s, l, c) + DnsEvents(e, s, c)
  }

  // ---------------------------------------------------------------------------
  // A whole call
  // ---------------------------------------------------------------------------

  function PreCheck(e: Env, s: Store, l: Logic, c: Call): Result<(), Error> {
    var _ :- CardPreCheck(e, s, l, c);
    var _ :- GovernancePreCheck(e, s, l, c);
    DnsPreCheck(e, s, c)
  }

  /** Everything up to the writes: the store as the gate leaves it, or why the call reverts. */
  function Admit(e: Env, s: Store, l: Logic, c: Call): Result<Store, Error> {
    var _ :- PreCheck(e, s, l, c);
    var gated :- Authorize(e, s, l, GateOf(s, c));
    var _ :- PostCheck(e, gated, c);
    :- Need(e.self == s.logic, CallerNotLogicContract);
    Success(gated)
  }

  /** What a call to an instance does, or why it reverts. */
  function Exec(e: Env, s: Store, l: Logic, c: Call): Result<Effects, Error> {
    var gated :- Admit(e, s, l, c);
    Success(Effects(StoreAfter(e, gated, c), LogicAfter(e, gated, l, c), EventsOf(e, gated, l, c)))
  }
}
