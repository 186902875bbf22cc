/**
 * The permanent storage contract (contracts/storage-contract/src/lib.rs): what it holds, what
 * each setter does to it, and the contract itself, proved against that.
 */
module Storage {
  import opened Wrappers
  import opened ProtocolTypes

  // ---------------------------------------------------------------------------
  // State
  // ---------------------------------------------------------------------------

  datatype CardEntry = CardEntry(logHead: Bytes, policy: B256, lastPress: B256, forwardTo: B256, exists_: bool)

  datatype PressEntry = PressEntry(
    key: Bytes, mldsaHash: B256, keyScheme: u8, active: bool,
    nextSequence: nat, authorizedAt: nat, revokedAt: nat)

  datatype SubCardEntry = SubCardEntry(
    master: B256, registrationLogHead: Bytes, docCid: Bytes,
    active: bool, registeredAt: nat, deregisteredAt: nat)

  datatype Keyset = Keyset(keysFlat: Bytes, keyCount: u8, quorum: u8, version: nat, keyScheme: u8)

  datatype DomainEntry = DomainEntry(
    admin: B256, registeredAt: nat, fraudRisk: u8, suspensionExpiresAt: nat, exists_: bool)

  /** A pending upgrade proposal; address zero means none. */
  datatype Pending = Pending(address: Address, proposedAt: nat, governanceVersion: nat, nonce: B256)

  const NO_CARD := CardEntry([], ZERO, ZERO, ZERO, false)
  const NO_PRESS := PressEntry([], ZERO, 0, false, 0, 0, 0)
  const NO_SUB_CARD := SubCardEntry(ZERO, [], [], false, 0, 0)
  const NO_KEYSET := Keyset([], 0, 0, 0, 0)
  const NO_DOMAIN := DomainEntry(ZERO, 0, 0, 0, false)
  const NO_PENDING := Pending(ZERO, 0, 0, ZERO)

  /** A storage map reads its default value where nothing was written. */
  function Get<K, V>(m: map<K, V>, k: K, default: V): V {
    if k in m then m[k] else default
  }

  /** Everything the storage contract holds. */
  datatype Store = Store(
    cards: map<B256, CardEntry>,
    policyKeys: map<B256, Bytes>,
    presses: map<(B256, B256), PressEntry>,
    subCards: map<B256, SubCardEntry>,
    offers: map<B256, nat>,
    keysets: map<u8, Keyset>,
    usedNonces: set<B256>,
    logic: Address,
    pending: Pending,
    keySchemePhase: u8,
    deleteDisabled: bool,
    domains: map<B256, DomainEntry>,
    policyAddresses: map<B256, B256>,
    adminKeys: map<B256, Bytes>,
    dnsPolicy: B256)
  {
    function Card(a: B256): CardEntry { Get(cards, a, NO_CARD) }

    /** A policy is recognized when a full-length key is stored for it. */
    predicate PolicyExists(p: B256) { |Get(policyKeys, p, [])| == KEY_LEN }

    function Press(policy: B256, press: B256): PressEntry { Get(presses, (policy, press), NO_PRESS) }

    function SubCard(a: B256): SubCardEntry { Get(subCards, a, NO_SUB_CARD) }

    function OfferCount(o: B256): nat { Get(offers, o, 0) }

    function KeysetOf(body: u8): Keyset { Get(keysets, body, NO_KEYSET) }

    function Domain(h: B256): DomainEntry { Get(domains, h, NO_DOMAIN) }

    function PolicyAddress(key: B256): B256 { Get(policyAddresses, key, ZERO) }

    function AdminKey(card: B256): Bytes { Get(adminKeys, card, []) }
  }

  /** A deployed contract before `initialize`: every slot is zero. */
  const BLANK := Store(
    map[], map[], map[], map[], map[], map[], {}, ZERO, NO_PENDING, 0, false, map[], map[], map[], ZERO)

  // ---------------------------------------------------------------------------
  // Calls
  // ---------------------------------------------------------------------------

  /** A call that can change the storage contract, with its arguments. */
  datatype StorageCall =
    | Initialize(initialLogic: Address, deployerKey: Bytes)
    | SetCardEntry(card: B256, logHead: Bytes, policy: B256, lastPress: B256, newExists: bool)
    | SetForwardTo(card: B256, newForwardTo: B256)
    | UpdateCardHead(card: B256, newLogCid: Bytes, lastPress: B256)
    | SetPressAuthEntry(policy: B256, press: B256, entry: PressEntry)
    | IncrementPressSequence(policy: B256, press: B256)
    | SetSubCardEntry(subCard: B256, subCardEntry: SubCardEntry)
    | SetOpenOfferCount(offer: B256, count: nat)
    | SetPolicyAuthorizerKey(policy: B256, authorizerKey: Bytes)
    | DeletePolicyAuthorizerKey(policy: B256)
    | SetGovernanceKeyset(body: u8, keyset: Keyset)
    | MarkNonceUsed(nonce: B256)
    | SetLogicContract(newLogic: Address)
    | SetPendingLogicUpgrade(proposal: Pending)
    | ClearPendingLogicUpgrade
    | SetKeySchemePhase(phase: u8)
    | DisablePolicyDeletePermanently
    | SetDomainEntry(domainHash: B256, domainEntry: DomainEntry)
    | SetPolicyAddress(key: B256, value: B256)
    | SetDnsAdminCardKey(card: B256, adminKey: Bytes)
    | SetDnsGovernancePolicyAddress(newPolicy: B256)

  /** The 1-of-1 keyset every body starts with. */
  function Bootstrap(key: Bytes): Keyset {
    Keyset(key, 1, 1, 0, 0)
  }

  /** What a call by `caller` does to the contract. */
  function Apply(s: Store, caller: Address, c: StorageCall): Result<Store, Error> {
    match c
    case Initialize(logic, key) =>
      :- Need(s.logic == ZERO && logic != ZERO && |key| == KEY_LEN, InvalidAddress);
      Success(s.(
        logic := logic, keySchemePhase := 0,
        keysets := s.keysets[ROOT_POLICY_BODY := Bootstrap(key)]
                            [PRESS_REGISTRY_BODY := Bootstrap(key)]
                            [DNS_GOVERNANCE_BODY := Bootstrap(key)]))
    case _ =>
      :- Need(caller == s.logic, CallerNotLogicContract);
      ApplySetter(s, c)
  }

  /** A setter, once the caller is known to be the current logic contract. */
  function ApplySetter(s: Store, c: StorageCall): Result<Store, Error>
    requires !c.Initialize?
  {
    match c
    case SetCardEntry(card, head, policy, press, newExists) =>
      :- Need(s.Card(card).exists_ ==> newExists, CardAlreadyExists);
      :- Need(|head| <= MAX_CID_LEN, CidTooLong);
      Success(s.(cards := s.cards[card := CardEntry(head, policy, press, s.Card(card).forwardTo, newExists)]))
    case SetForwardTo(card, to) =>
      :- Need(s.Card(card).forwardTo == ZERO, ForwardAlreadySet);
      Success(s.(cards := s.cards[card := s.Card(card).(forwardTo := to)]))
    case UpdateCardHead(card, head, press) =>
      :- Need(|head| <= MAX_CID_LEN, CidTooLong);
      Success(s.(cards := s.cards[card := s.Card(card).(logHead := head, lastPress := press)]))
    case SetPressAuthEntry(policy, press, entry) =>
      Success(s.(presses := s.presses[(policy, press) := entry]))
    case IncrementPressSequence(policy, press) =>
      var e := s.Press(policy, press);
      Success(s.(presses := s.presses[(policy, press) := e.(nextSequence := (e.nextSequence + 1) % U64_RANGE)]))
    case SetSubCardEntry(sub, entry) =>
      :- Need(s.SubCard(sub).deregisteredAt != 0 ==> entry.deregisteredAt != 0, DeregisteredAtImmutable);
      :- Need(|entry.registrationLogHead| <= MAX_CID_LEN && |entry.docCid| <= MAX_CID_LEN, CidTooLong);
      Success(s.(subCards := s.subCards[sub := entry]))
    case SetOpenOfferCount(offer, count) =>
      Success(s.(offers := s.offers[offer := count]))
    case SetPolicyAuthorizerKey(policy, key) =>
      :- Need(|key| == KEY_LEN, InvalidKeyLength);
      Success(s.(policyKeys := s.policyKeys[policy := key]))
    case DeletePolicyAuthorizerKey(policy) =>
      :- Need(!s.deleteDisabled, PolicyDeleteDisabled);
      Success(s.(policyKeys := s.policyKeys[policy := []]))
    case SetGovernanceKeyset(body, keyset) =>
      :- Need(|keyset.keysFlat| == keyset.keyCount * KEY_LEN, InvalidKeysFlat);
      Success(s.(keysets := s.keysets[body := keyset]))
    case MarkNonceUsed(nonce) =>
      Success(s.(usedNonces := s.usedNonces + {nonce}))
    case SetLogicContract(newLogic) =>
      :- Need(newLogic != ZERO, InvalidAddress);
      Success(s.(logic := newLogic))
    case SetPendingLogicUpgrade(p) =>
      Success(s.(pending := p))
    case ClearPendingLogicUpgrade =>
      Success(s.(pending := NO_PENDING))
    case SetKeySchemePhase(phase) =>
      Success(s.(keySchemePhase := phase))
    case DisablePolicyDeletePermanently =>
      :- Need(!s.deleteDisabled, PolicyDeleteAlreadyDisabled);
      Success(s.(deleteDisabled := true))
    case SetDomainEntry(h, entry) =>
      :- Need(s.Domain(h).exists_ ==> entry.exists_, DomainExistsImmutable);
      Success(s.(domains := s.domains[h := entry]))
    case SetPolicyAddress(key, value) =>
      Success(s.(policyAddresses := s.policyAddresses[key := value]))
    case SetDnsAdminCardKey(card, key) =>
      :- Need(key == [] || |key| == KEY_LEN, InvalidKeyLength);
      Success(s.(adminKeys := s.adminKeys[card := key]))
    case SetDnsGovernancePolicyAddress(a) =>
      Success(s.(dnsPolicy := a))
  }

  /**
   * A call by `caller` that found `before` and left `after` ended as `Apply` says: in its new
   * state, or with its error and nothing changed.
   */
  predicate Ends(before: Store, after: Store, caller: Address, c: StorageCall, r: Outcome<Error>) {
    match r
    case Done => Apply(before, caller, c) == Success(after)
    case Revert(e) => Apply(before, caller, c) == Failure(e) && after == before
  }

  // ---------------------------------------------------------------------------
  // The contract
  // ---------------------------------------------------------------------------

  /** The contract's slots. Every setter first checks that its caller is `logicContract`. */
  class StorageContract {
    var cardEntries: map<B256, CardEntry>
    var policyAuthorizerKeys: map<B256, Bytes>
    var pressAuthorizations: map<(B256, B256), PressEntry>
    var subCardRegistrations: map<B256, SubCardEntry>
    var openOfferUseCounts: map<B256, nat>
    var governanceKeysets: map<u8, Keyset>
    var usedNonces: set<B256>
    var logicContract: Address
    var pendingLogicUpgrade: Pending
    var keySchemePhase: u8
    var policyDeleteDisabled: bool
    var domainRegistrations: map<B256, DomainEntry>
    var policyAddresses: map<B256, B256>
    var dnsAdminCardKeys: map<B256, Bytes>
    var dnsGovernancePolicyAddress: B256

    /** All slots as one value. */
    function Slots(): Store
      reads this
    {
      Store(cardEntries, policyAuthorizerKeys, pressAuthorizations, subCardRegistrations, openOfferUseCounts,
            governanceKeysets, usedNonces, logicContract, pendingLogicUpgrade, keySchemePhase, policyDeleteDisabled,
            domainRegistrations, policyAddresses, dnsAdminCardKeys, dnsGovernancePolicyAddress)
    }

    constructor ()
      ensures Slots() == BLANK
    {
      cardEntries, policyAuthorizerKeys, pressAuthorizations := map[], map[], map[];
      subCardRegistrations, openOfferUseCounts, governanceKeysets := map[], map[], map[];
      usedNonces, logicContract, pendingLogicUpgrade := {}, ZERO, NO_PENDING;
      keySchemePhase, policyDeleteDisabled := 0, false;
      domainRegistrations, policyAddresses, dnsAdminCardKeys := map[], map[], map[];
      dnsGovernancePolicyAddress := ZERO;
    }

    /** Put every slot back; what the chain does to a reverted transaction. */
    method Restore(s: Store)
      modifies this
      ensures Slots() == s
    {
      RestoreRegistry(s);
      RestoreGovernance(s);
      RestoreDns(s);
    }

    method RestoreRegistry(s: Store)
      modifies `cardEntries, `policyAuthorizerKeys, `pressAuthorizations, `subCardRegistrations, `openOfferUseCounts
      ensures cardEntries == s.cards && policyAuthorizerKeys == s.policyKeys && pressAuthorizations == s.presses
      ensures subCardRegistrations == s.subCards && openOfferUseCounts == s.offers
    {
      cardEntries := s.cards;
      policyAuthorizerKeys := s.policyKeys;
      pressAuthorizations := s.presses;
      subCardRegistrations := s.subCards;
      openOfferUseCounts := s.offers;
    }

    method RestoreGovernance(s: Store)
      modifies `governanceKeysets, `usedNonces, `logicContract, `pendingLogicUpgrade, `keySchemePhase
      modifies `policyDeleteDisabled
      ensures governanceKeysets == s.keysets && usedNonces == s.usedNonces && logicContract == s.logic
      ensures pendingLogicUpgrade == s.pending && keySchemePhase == s.keySchemePhase
      ensures policyDeleteDisabled == s.deleteDisabled
    {
      governanceKeysets := s.keysets;
      usedNonces := s.usedNonces;
      logicContract := s.logic;
      pendingLogicUpgrade := s.pending;
      keySchemePhase := s.keySchemePhase;
      policyDeleteDisabled := s.deleteDisabled;
    }

    method RestoreDns(s: Store)
      modifies `domainRegistrations, `policyAddresses, `dnsAdminCardKeys, `dnsGovernancePolicyAddress
      ensures domainRegistrations == s.domains && policyAddresses == s.policyAddresses
      ensures dnsAdminCardKeys == s.adminKeys && dnsGovernancePolicyAddress == s.dnsPolicy
    {
      domainRegistrations := s.domains;
      policyAddresses := s.policyAddresses;
      dnsAdminCardKeys := s.adminKeys;
      dnsGovernancePolicyAddress := s.dnsPolicy;
    }

    method RequireLogicContract(sender: Address) returns (r: Outcome<Error>)
      ensures r == if sender == logicContract then Done else Revert(CallerNotLogicContract)
    {
      var currentLogic := logicContract;
      if sender != currentLogic {
        return Revert(CallerNotLogicContract);
      }
      return Done;
    }

    method Initialize(sender: Address, initialLogic: Address, deployerKey: Bytes) returns (r: Outcome<Error>)
      modifies this
      ensures Ends(old(Slots()), Slots(), sender, StorageCall.Initialize(initialLogic, deployerKey), r)
    {
      if logicContract != ZERO {
        return Revert(InvalidAddress);
      }
      if initialLogic == ZERO {
        return Revert(InvalidAddress);
      }
      if |deployerKey| != KEY_LEN {
        return Revert(InvalidAddress);
      }
      logicContract := initialLogic;
      governanceKeysets := governanceKeysets[ROOT_POLICY_BODY := Keyset(deployerKey, 1, 1, 0, 0)];
      governanceKeysets := governanceKeysets[PRESS_REGISTRY_BODY := Keyset(deployerKey, 1, 1, 0, 0)];
      governanceKeysets := governanceKeysets[DNS_GOVERNANCE_BODY := Keyset(deployerKey, 1, 1, 0, 0)];
      keySchemePhase := 0;
      return Done;
    }

    method SetCardEntry(sender: Address, card: B256, logHeadCid: Bytes, policy: B256, lastPress: B256, newExists: bool)
      returns (r: Outcome<Error>)
      modifies this
      ensures Ends(old(Slots()), Slots(), sender,
                   StorageCall.SetCardEntry(card, logHeadCid, policy, lastPress, newExists), r)
    {
      var access := RequireLogicContract(sender);
      :- access;
      var entry := Get(cardEntries, card, NO_CARD);
      if entry.exists_ && !newExists {
        return Revert(CardAlreadyExists);
      }
      if |logHeadCid| > MAX_CID_LEN {
        return Revert(CidTooLong);
      }
      entry := entry.(logHead := logHeadCid);
      entry := entry.(policy := policy);
      entry := entry.(lastPress := lastPress);
      entry := entry.(exists_ := newExists);
      cardEntries := cardEntries[card := entry];
      return Done;
    }

    method SetForwardTo(sender: Address, card: B256, newForwardTo: B256) returns (r: Outcome<Error>)
      modifies this
      ensures Ends(old(Slots()), Slots(), sender, StorageCall.SetForwardTo(card, newForwardTo), r)
    {
      var access := RequireLogicContract(sender);
      :- access;
      var entry := Get(cardEntries, card, NO_CARD);
      if entry.forwardTo != ZERO {
        return Revert(ForwardAlreadySet);
      }
      cardEntries := cardEntries[card := entry.(forwardTo := newForwardTo)];
      return Done;
    }

    method UpdateCardHead(sender: Address, card: B256, newLogCid: Bytes, lastPress: B256) returns (r: Outcome<Error>)
      modifies this
      ensures Ends(old(Slots()), Slots(), sender, StorageCall.UpdateCardHead(card, newLogCid, lastPress), r)
    {
      var access := RequireLogicContract(sender);
      :- access;
      if |newLogCid| > MAX_CID_LEN {
        return Revert(CidTooLong);
      }
      var entry := Get(cardEntries, card, NO_CARD);
      entry := entry.(logHead := newLogCid);
      entry := entry.(lastPress := lastPress);
      cardEntries := cardEntries[card := entry];
      return Done;
    }

    method SetPressAuthEntry(sender: Address, policy: B256, press: B256, entry: PressEntry)
      returns (r: Outcome<Error>)
      modifies this
      ensures Ends(old(Slots()), Slots(), sender, StorageCall.SetPressAuthEntry(policy, press, entry), r)
    {
      var access := RequireLogicContract(sender);
      :- access;
      pressAuthorizations := pressAuthorizations[(policy, press) := entry];
      return Done;
    }

    method IncrementPressSequence(sender: Address, policy: B256, press: B256) returns (r: Outcome<Error>)
      modifies this
      ensures Ends(old(Slots()), Slots(), sender, StorageCall.IncrementPressSequence(policy, press), r)
    {
      var access := RequireLogicContract(sender);
      :- access;
      var entry := Get(pressAuthorizations, (policy, press), NO_PRESS);
      var current := entry.nextSequence;
      pressAuthorizations := pressAuthorizations[(policy, press) := entry.(nextSequence := (current + 1) % U64_RANGE)];
      return Done;
    }

    method SetSubCardEntry(sender: Address, subCard: B256, entry: SubCardEntry) returns (r: Outcome<Error>)
      modifies this
      ensures Ends(old(Slots()), Slots(), sender, StorageCall.SetSubCardEntry(subCard, entry), r)
    {
      var access := RequireLogicContract(sender);
      :- access;
      var currentDereg := Get(subCardRegistrations, subCard, NO_SUB_CARD).deregisteredAt;
      if currentDereg != 0 && entry.deregisteredAt == 0 {
        return Revert(DeregisteredAtImmutable);
      }
      if |entry.registrationLogHead| > MAX_CID_LEN || |entry.docCid| > MAX_CID_LEN {
        return Revert(CidTooLong);
      }
      subCardRegistrations := subCardRegistrations[subCard := entry];
      return Done;
    }

    method SetOpenOfferCount(sender: Address, offer: B256, count: nat) returns (r: Outcome<Error>)
      modifies this
      ensures Ends(old(Slots()), Slots(), sender, StorageCall.SetOpenOfferCount(offer, count), r)
    {
      var access := RequireLogicContract(sender);
      :- access;
      openOfferUseCounts := openOfferUseCounts[offer := count];
      return Done;
    }

    method SetPolicyAuthorizerKey(sender: Address, policy: B256, key: Bytes) returns (r: Outcome<Error>)
      modifies this
      ensures Ends(old(Slots()), Slots(), sender, StorageCall.SetPolicyAuthorizerKey(policy, key), r)
    {
      var access := RequireLogicContract(sender);
      :- access;
      if |key| != KEY_LEN {
        return Revert(InvalidKeyLength);
      }
      policyAuthorizerKeys := policyAuthorizerKeys[policy := key];
      return Done;
    }

    method DeletePolicyAuthorizerKey(sender: Address, policy: B256) returns (r: Outcome<Error>)
      modifies this
      ensures Ends(old(Slots()), Slots(), sender, StorageCall.DeletePolicyAuthorizerKey(policy), r)
    {
      var access := RequireLogicContract(sender);
      :- access;
      if policyDeleteDisabled {
        return Revert(PolicyDeleteDisabled);
      }
      policyAuthorizerKeys := policyAuthorizerKeys[policy := []];
      return Done;
    }

    method SetGovernanceKeyset(sender: Address, body: u8, keyset: Keyset) returns (r: Outcome<Error>)
      modifies this
      ensures Ends(old(Slots()), Slots(), sender, StorageCall.SetGovernanceKeyset(body, keyset), r)
    {
      var access := RequireLogicContract(sender);
      :- access;
      if |keyset.keysFlat| != keyset.keyCount * KEY_LEN {
        return Revert(InvalidKeysFlat);
      }
      governanceKeysets := governanceKeysets[body := keyset];
      return Done;
    }

    method MarkNonceUsed(sender: Address, nonce: B256) returns (r: Outcome<Error>)
      modifies this
      ensures Ends(old(Slots()), Slots(), sender, StorageCall.MarkNonceUsed(nonce), r)
    {
      var access := RequireLogicContract(sender);
      :- access;
      usedNonces := usedNonces + {nonce};
      return Done;
    }

    method SetLogicContract(sender: Address, newLogic: Address) returns (r: Outcome<Error>)
      modifies this
      ensures Ends(old(Slots()), Slots(), sender, StorageCall.SetLogicContract(newLogic), r)
    {
      var access := RequireLogicContract(sender);
      :- access;
      if newLogic == ZERO {
        return Revert(InvalidAddress);
      }
      logicContract := newLogic;
      return Done;
    }

    method SetPendingLogicUpgrade(sender: Address, proposal: Pending) returns (r: Outcome<Error>)
      modifies this
      ensures Ends(old(Slots()), Slots(), sender, StorageCall.SetPendingLogicUpgrade(proposal), r)
    {
      var access := RequireLogicContract(sender);
      :- access;
      pendingLogicUpgrade := proposal;
      return Done;
    }

    method ClearPendingLogicUpgrade(sender: Address) returns (r: Outcome<Error>)
      modifies this
      ensures Ends(old(Slots()), Slots(), sender, StorageCall.ClearPendingLogicUpgrade, r)
    {
      var access := RequireLogicContract(sender);
      :- access;
      pendingLogicUpgrade := Pending(ZERO, 0, 0, ZERO);
      return Done;
    }

    method SetKeySchemePhase(sender: Address, phase: u8) returns (r: Outcome<Error>)
      modifies this
      ensures Ends(old(Slots()), Slots(), sender, StorageCall.SetKeySchemePhase(phase), r)
    {
      var access := RequireLogicContract(sender);
      :- access;
      keySchemePhase := phase;
      return Done;
    }

    method DisablePolicyDeletePermanently(sender: Address) returns (r: Outcome<Error>)
      modifies this
      ensures Ends(old(Slots()), Slots(), sender, StorageCall.DisablePolicyDeletePermanently, r)
    {
      var access := RequireLogicContract(sender);
      :- access;
      if policyDeleteDisabled {
        return Revert(PolicyDeleteAlreadyDisabled);
      }
      policyDeleteDisabled := true;
      return Done;
    }

    method SetDomainEntry(sender: Address, domainHash: B256, entry: DomainEntry) returns (r: Outcome<Error>)
      modifies this
      ensures Ends(old(Slots()), Slots(), sender, StorageCall.SetDomainEntry(domainHash, entry), r)
    {
      var access := RequireLogicContract(sender);
      :- access;
      var currentExists := Get(domainRegistrations, domainHash, NO_DOMAIN).exists_;
      if currentExists && !entry.exists_ {
        return Revert(DomainExistsImmutable);
      }
      domainRegistrations := domainRegistrations[domainHash := entry];
      return Done;
    }

    method SetPolicyAddress(sender: Address, key: B256, value: B256) returns (r: Outcome<Error>)
      modifies this
      ensures Ends(old(Slots()), Slots(), sender, StorageCall.SetPolicyAddress(key, value), r)
    {
      var access := RequireLogicContract(sender);
      :- access;
      policyAddresses := policyAddresses[key := value];
      return Done;
    }

    method SetDnsAdminCardKey(sender: Address, card: B256, key: Bytes) returns (r: Outcome<Error>)
      modifies this
      ensures Ends(old(Slots()), Slots(), sender, StorageCall.SetDnsAdminCardKey(card, key), r)
    {
      var access := RequireLogicContract(sender);
      :- access;
      if |key| != 0 && |key| != KEY_LEN {
        return Revert(InvalidKeyLength);
      }
      dnsAdminCardKeys := dnsAdminCardKeys[card := key];
      return Done;
    }

    method SetDnsGovernancePolicyAddress(sender: Address, newPolicy: B256) returns (r: Outcome<Error>)
      modifies this
      ensures Ends(old(Slots()), Slots(), sender, StorageCall.SetDnsGovernancePolicyAddress(newPolicy), r)
    {
      var access := RequireLogicContract(sender);
      :- access;
      dnsGovernancePolicyAddress := newPolicy;
      return Done;
    }
  }
}
