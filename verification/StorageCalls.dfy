/**
 * The storage contract's calls as plain conditions: who may make each, with which arguments, and
 * what a reader finds afterwards.
 */
module StorageCalls {
  import opened Wrappers
  import opened ProtocolTypes
  import opened Storage

  /** What the contract itself insists on, whoever the logic contract is. */
  predicate Fits(s: Store, c: StorageCall) {
    match c
    case Initialize(logic, key) => s.logic == 0 && logic != 0 && |key| == 64
    case SetCardEntry(card, head, _, _, newExists) => |head| <= 64 && (s.Card(card).exists_ ==> newExists)
    case SetForwardTo(card, _) => s.Card(card).forwardTo == 0
    case UpdateCardHead(_, head, _) => |head| <= 64
    case SetSubCardEntry(sub, entry) =>
      && |entry.registrationLogHead| <= 64 && |entry.docCid| <= 64
      && (s.SubCard(sub).deregisteredAt != 0 ==> entry.deregisteredAt != 0)
    case SetPolicyAuthorizerKey(_, key) => |key| == 64
    case DeletePolicyAuthorizerKey(_) => !s.deleteDisabled
    case SetGovernanceKeyset(_, k) => |k.keysFlat| == 64 * k.keyCount
    case SetLogicContract(newLogic) => newLogic != 0
    case DisablePolicyDeletePermanently => !s.deleteDisabled
    case SetDomainEntry(h, entry) => s.Domain(h).exists_ ==> entry.exists_
    case SetDnsAdminCardKey(_, key) => |key| == 0 || |key| == 64
    case _ => true
  }

  predicate MayCall(s: Store, caller: Address, c: StorageCall) {
    (c.Initialize? || caller == s.logic) && Fits(s, c)
  }

  /** The tables after a call, read at one key each. */
  ghost predicate CardsRead(s: Store, c: StorageCall, t: Store, a: B256) {
    match c
    case SetCardEntry(card, head, policy, press, newExists) =>
      t.Card(a) == if a == card then CardEntry(head, policy, press, s.Card(a).forwardTo, newExists) else s.Card(a)
    case SetForwardTo(card, to) => t.Card(a) == if a == card then s.Card(a).(forwardTo := to) else s.Card(a)
    case UpdateCardHead(card, head, press) =>
      t.Card(a) == if a == card then s.Card(a).(logHead := head, lastPress := press) else s.Card(a)
    case _ => t.Card(a) == s.Card(a)
  }

  ghost predicate PressesRead(s: Store, c: StorageCall, t: Store, policy: B256, press: B256) {
    var old_, now := s.Press(policy, press), t.Press(policy, press);
    match c
    case SetPressAuthEntry(p, q, entry) => now == if p == policy && q == press then entry else old_
    case IncrementPressSequence(p, q) =>
      now == if p == policy && q == press
             then old_.(nextSequence := (old_.nextSequence + 1) % 0x1_0000_0000_0000_0000) else old_
    case _ => now == old_
  }

  ghost predicate RegistryRead(s: Store, c: StorageCall, t: Store, a: B256) {
    && t.SubCard(a) == (if c.SetSubCardEntry? && a == c.subCard then c.subCardEntry else s.SubCard(a))
    && t.OfferCount(a) == (if c.SetOpenOfferCount? && a == c.offer then c.count else s.OfferCount(a))
    && Get(t.policyKeys, a, []) ==
       if c.SetPolicyAuthorizerKey? && a == c.policy then c.authorizerKey
       else if c.DeletePolicyAuthorizerKey? && a == c.policy then [] else Get(s.policyKeys, a, [])
  }

  ghost predicate DnsRead(s: Store, c: StorageCall, t: Store, a: B256) {
    && t.Domain(a) == (if c.SetDomainEntry? && a == c.domainHash then c.domainEntry else s.Domain(a))
    && t.PolicyAddress(a) == (if c.SetPolicyAddress? && a == c.key then c.value else s.PolicyAddress(a))
    && t.AdminKey(a) == (if c.SetDnsAdminCardKey? && a == c.card then c.adminKey else s.AdminKey(a))
    && t.dnsPolicy == (if c.SetDnsGovernancePolicyAddress? then c.newPolicy else s.dnsPolicy)
  }

  ghost predicate KeysetsRead(s: Store, c: StorageCall, t: Store, body: u8) {
    t.KeysetOf(body) == if c.Initialize? && body <= 2 then Keyset(c.deployerKey, 1, 1, 0, 0)
                        else if c.SetGovernanceKeyset? && body == c.body then c.keyset else s.KeysetOf(body)
  }

  ghost predicate SlotsRead(s: Store, c: StorageCall, t: Store) {
    && t.usedNonces == s.usedNonces + (if c.MarkNonceUsed? then {c.nonce} else {})
    && t.logic == (if c.Initialize? then c.initialLogic else if c.SetLogicContract? then c.newLogic else s.logic)
    && t.pending == (if c.SetPendingLogicUpgrade? then c.proposal
                     else if c.ClearPendingLogicUpgrade? then Pending(0, 0, 0, 0) else s.pending)
    && t.keySchemePhase == (if c.Initialize? then 0 else if c.SetKeySchemePhase? then c.phase else s.keySchemePhase)
    && (t.deleteDisabled <==> s.deleteDisabled || c.DisablePolicyDeletePermanently?)
  }

  /** Every storage call is accepted exactly when its caller and its arguments are fit for it. */
  lemma AcceptedExactly(s: Store, caller: Address, c: StorageCall)
    ensures Apply(s, caller, c).Success? <==> MayCall(s, caller, c)
  {
  }

  lemma CardsWritten(s: Store, caller: Address, c: StorageCall, t: Store, a: B256, b: B256)
    requires Apply(s, caller, c) == Success(t)
    ensures CardsRead(s, c, t, a) && PressesRead(s, c, t, a, b)
  {
  }

  lemma RegistryWritten(s: Store, caller: Address, c: StorageCall, t: Store, a: B256)
    requires Apply(s, caller, c) == Success(t)
    ensures RegistryRead(s, c, t, a)
  {
  }

  lemma DnsWritten(s: Store, caller: Address, c: StorageCall, t: Store, a: B256)
    requires Apply(s, caller, c) == Success(t)
    ensures DnsRead(s, c, t, a)
  {
  }

  lemma KeysetsWritten(s: Store, caller: Address, c: StorageCall, t: Store, body: u8)
    requires Apply(s, caller, c) == Success(t)
    ensures KeysetsRead(s, c, t, body)
  {
  }

  lemma SlotsWritten(s: Store, caller: Address, c: StorageCall, t: Store)
    requires Apply(s, caller, c) == Success(t)
    ensures SlotsRead(s, c, t)
  {
  }

  /** What a reader finds after an accepted storage call, whatever is read. */
  lemma Written(s: Store, caller: Address, c: StorageCall, t: Store)
    requires Apply(s, caller, c) == Success(t)
    ensures forall a: B256 :: CardsRead(s, c, t, a) && RegistryRead(s, c, t, a) && DnsRead(s, c, t, a)
    ensures forall a: B256, b: B256 :: PressesRead(s, c, t, a, b)
    ensures (forall body: u8 :: KeysetsRead(s, c, t, body)) && SlotsRead(s, c, t)
  {
    hide *;
    forall a: B256 ensures CardsRead(s, c, t, a) && RegistryRead(s, c, t, a) && DnsRead(s, c, t, a) {
      CardsWritten(s, caller, c, t, a, a);
      RegistryWritten(s, caller, c, t, a);
      DnsWritten(s, caller, c, t, a);
    }
    forall a: B256, b: B256 ensures PressesRead(s, c, t, a, b) {
      CardsWritten(s, caller, c, t, a, b);
    }
    forall body: u8 ensures KeysetsRead(s, c, t, body) {
      KeysetsWritten(s, caller, c, t, body);
    }
    SlotsWritten(s, caller, c, t);
  }
}
