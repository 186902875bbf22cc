/**
 * Which calls are accepted, operation by operation: what the registry must look like and who must
 * have signed what, in no order and without reference to how the contract checks it. The main
 * result, `AcceptedExactly`, is that these are exactly the accepted calls.
 */
module Permissions {
  import opened Wrappers
  import opened ProtocolTypes
  import opened PayloadParser
  import opened Storage
  import opened Registry
  import opened Signatures

  // ---------------------------------------------------------------------------
  // Who must have signed
  // ---------------------------------------------------------------------------

  /** The governance body that must sign, and what it signs. */
  datatype Vote = Vote(body: u8, gov: Signed)

  /** The policy under which a press must sign, its payload, and the op the payload must state. */
  datatype PressOp = PressOp(policy: B256, stamp: Stamp, op: string)

  /**
   * Body 0 signs for policies, authorizer keys, protocol versions and upgrades, body 1 for presses,
   * body 2 for domains, and every body for its own next keyset.
   */
  function VoteOn(c: Call): Option<Vote> {
    match c
    case RegisterPolicy(_, _, gov) => Some(Vote(0, gov))
    case DeregisterPolicy(_, gov) => Some(Vote(0, gov))
    case AuthorizePress(_, _, _, _, gov) => Some(Vote(1, gov))
    case RevokePress(_, _, gov) => Some(Vote(1, gov))
    case RotateAuthorizerKey(_, _, gov) => Some(Vote(0, gov))
    case RotateGovernanceKeys(body, _, _, _, gov) => Some(Vote(body, gov))
    case SetProtocolVersion(_, gov) => Some(Vote(0, gov))
    case DisablePolicyDelete(gov) => Some(Vote(0, gov))
    case ProposeLogicUpgrade(_, gov) => Some(Vote(0, gov))
    case ConfirmLogicUpgrade(_, gov) => Some(Vote(0, gov))
    case CancelLogicUpgrade(gov) => Some(Vote(0, gov))
    case ProposeVerifierUpgrade(_, gov) => Some(Vote(0, gov))
    case ConfirmVerifierUpgrade(_, gov) => Some(Vote(0, gov))
    case CancelVerifierUpgrade(gov) => Some(Vote(0, gov))
    case RegisterDomain(_, _, _, gov) => Some(Vote(2, gov))
    case DeregisterDomain(_, gov) => Some(Vote(2, gov))
    case RemovePath(_, _, card, _, gov) => if card == 0 then Some(Vote(2, gov)) else None
    case ClearDomainEntries(_, _, gov) => Some(Vote(2, gov))
    case FlagDomainFraudRisk(_, _, _, gov) => Some(Vote(2, gov))
    case GovernanceSetPath(_, _, _, gov) => Some(Vote(2, gov))
    case SetDnsPolicy(_, gov) => Some(Vote(2, gov))
    case _ => None
  }

  /** Presses sign for cards, for sub-cards and for paths. */
  function PressOpOf(s: Store, c: Call): Option<PressOp> {
    match c
    case RegisterCard(_, _, policy, stamp) => Some(PressOp(policy, stamp, "register_card"))
    case UpdateHead(card, _, _, stamp) => Some(PressOp(s.Card(card).policy, stamp, "update_card_head"))
    case ClaimOpenOffer(_, _, _, _, _, policy, stamp) => Some(PressOp(policy, stamp, "claim_open_offer"))
    case BatchUpdateCardHeads(policy, _, _, _, stamp) => Some(PressOp(policy, stamp, "batch_update_card_heads"))
    case RegisterSubCard(_, master, _, _, stamp, _, _) =>
      Some(PressOp(s.Card(master).policy, stamp, "register_sub_card"))
    case DeregisterSubCard(sub, stamp) =>
      Some(PressOp(s.Card(s.SubCard(sub).master).policy, stamp, "deregister_sub_card"))
    case SetPath(_, _, _, _, _, stamp) => Some(PressOp(s.dnsPolicy, stamp, "set_policy_address"))
    case RemovePath(_, _, card, stamp, _) =>
      if card != 0 then Some(PressOp(s.dnsPolicy, stamp, "remove_policy_address")) else None
    case _ => None
  }

  ghost predicate VoteCarries(e: Env, s: Store, l: Logic, c: Call) {
    match VoteOn(c)
    case Some(Vote(body, gov)) => BodyAllows(e, s, l, body, gov)
    case None => true
  }

  ghost predicate PressConsents(e: Env, s: Store, l: Logic, c: Call) {
    match PressOpOf(s, c)
    case Some(PressOp(policy, stamp, op)) => PressAllows(e, s, l, policy, stamp, op)
    case None => true
  }

  /** Everyone who must sign the call has signed it. */
  ghost predicate Authorized(e: Env, s: Store, l: Logic, c: Call) {
    && VoteCarries(e, s, l, c)
    && PressConsents(e, s, l, c)
    && match c
       case RegisterSubCard(_, master, _, _, _, adminPayload, adminSig) =>
         AdminAllows(e, s, l, master, adminPayload, adminSig)
       case RegisterAddressForward(old_, _, stamp) =>
         |stamp.sig| == 64 && PressSigned(e, s, l, s.Card(old_).policy, stamp, "register_address_forward")
       case RotateOnChainKeyScheme(policy, stamp, newKey, mldsaSig) =>
         RotationAllows(e, s, l, policy, stamp, newKey, mldsaSig)
       case _ => true
  }

  // ---------------------------------------------------------------------------
  // What the registry must look like
  // ---------------------------------------------------------------------------

  /** A new card fits: nothing has been registered at its address. */
  predicate FreeFor(s: Store, card: B256, cid: Bytes) {
    !s.Card(card).exists_ && |cid| <= 64
  }

  /** The offer is still open at this time, and has room unless it is unlimited. */
  predicate Open(e: Env, s: Store, offer: B256, maxAcceptances: nat, expiresAt: nat) {
    && (expiresAt == 0 || e.now < expiresAt)
    && (maxAcceptances == 0xffff_ffff_ffff_ffff || s.OfferCount(offer) < maxAcceptances)
  }

  ghost predicate CardInOrder(e: Env, s: Store, c: Call) {
    match c
    case RegisterCard(card, cid, _, _) => FreeFor(s, card, cid)
    case UpdateHead(card, newCid, prevCid, _) =>
      s.Card(card).exists_ && s.Card(card).logHead == prevCid && |newCid| <= 64
    case ClaimOpenOffer(offer, maxAcceptances, expiresAt, card, cid, _, _) =>
      Open(e, s, offer, maxAcceptances, expiresAt) && FreeFor(s, card, cid)
    case RegisterAddressForward(old_, new_, _) =>
      s.Card(old_).exists_ && s.Card(new_).exists_ && s.Card(old_).forwardTo == 0
    case BatchUpdateCardHeads(policy, cards, prevCids, newCids, _) =>
      && 1 <= |cards| <= 100 && |prevCids| == |cards| && |newCids| == |cards|
      && (forall j, k :: 0 <= j < k < |cards| ==> cards[j] != cards[k])
      && (forall k :: 0 <= k < |cards| ==>
            && s.Card(cards[k]).exists_ && s.Card(cards[k]).policy == policy
            && s.Card(cards[k]).logHead == prevCids[k] && |newCids[k]| <= 64)
    case RegisterSubCard(sub, master, head, docCid, _, _, _) =>
      && s.Card(master).exists_ && s.Card(master).logHead == head
      && !s.SubCard(sub).active && s.SubCard(sub).deregisteredAt == 0
      && |head| <= 64 && |docCid| <= 64
    case DeregisterSubCard(sub, _) =>
      && s.SubCard(sub).active && s.SubCard(sub).master != 0 && s.Card(s.SubCard(sub).master).exists_
      && (s.SubCard(sub).deregisteredAt == 0 || e.now != 0)
      && |s.SubCard(sub).registrationLogHead| <= 64 && |s.SubCard(sub).docCid| <= 64
    case _ => true
  }

  /** A proposal for another address can be made: none is pending. */
  predicate Proposable(p: Pending, address: Address, current: Address) {
    p.address == 0 && address != 0 && address != current
  }

  /** The pending proposal is for this address, old enough, and of the root keyset in force. */
  predicate Ripe(s: Store, p: Pending, address: Address, delay: nat, now: nat) {
    && p.address == address != 0
    && (p.proposedAt + delay) % 0x1_0000_0000_0000_0000 <= now
    && p.governanceVersion == s.KeysetOf(0).version
  }

  ghost predicate GovernanceInOrder(e: Env, s: Store, l: Logic, c: Call) {
    match c
    case RegisterPolicy(policy, key, _) => !Recognized(s, policy) && |key| == 64
    case DeregisterPolicy(policy, _) => Recognized(s, policy) && !s.deleteDisabled
    case AuthorizePress(policy, _, key, _, _) => Recognized(s, policy) && |key| == 64
    case RevokePress(policy, press, _) => s.Press(policy, press).active && |s.Press(policy, press).key| == 64
    case RotateAuthorizerKey(policy, key, _) => Recognized(s, policy) && |key| == 64
    case RotateGovernanceKeys(_, keysFlat, keyCount, quorum, _) =>
      keyCount >= 3 && 2 * quorum > keyCount && |keysFlat| == 64 * keyCount
    case SetProtocolVersion(newVersion, _) => newVersion != ""
    case DisablePolicyDelete(_) => !s.deleteDisabled
    case ProposeLogicUpgrade(address, _) => Proposable(s.pending, address, s.logic)
    case ConfirmLogicUpgrade(address, _) => Ripe(s, s.pending, address, 604800, e.now)
    case CancelLogicUpgrade(_) => s.pending.address != 0
    case ProposeVerifierUpgrade(address, _) => Proposable(l.pendingVerifier, address, l.verifier)
    case ConfirmVerifierUpgrade(address, _) => Ripe(s, l.pendingVerifier, address, 172800, e.now)
    case CancelVerifierUpgrade(_) => l.pendingVerifier.address != 0
    case _ => true
  }

  /** A domain name of a registered domain. */
  predicate Registered(e: Env, s: Store, domain: Bytes) {
    1 <= |domain| <= 255 && s.Domain(e.crypto.keccak(domain)).exists_
  }

  /** An existing card of the DNS governance policy, which is set. */
  predicate DnsCard(s: Store, card: B256) {
    s.dnsPolicy != 0 && s.Card(card).exists_ && s.Card(card).policy == s.dnsPolicy
  }

  predicate Suspended(e: Env, d: DomainEntry) {
    d.fraudRisk == 2 && e.now < d.suspensionExpiresAt
  }

  ghost predicate DnsInOrder(e: Env, s: Store, c: Call) {
    match c
    case RegisterDomain(domain, admin, key, _) =>
      && 1 <= |domain| <= 255 && |key| == 64 && DnsCard(s, admin)
      && (s.Domain(e.crypto.keccak(domain)).exists_ ==> s.Domain(e.crypto.keccak(domain)).admin == 0)
    case DeregisterDomain(domain, _) => Registered(e, s, domain)
    case SetPath(domain, path, policyCard, admin, sub, _) =>
      && Registered(e, s, domain) && |path| <= 512 && s.dnsPolicy != 0
      && !Suspended(e, s.Domain(e.crypto.keccak(domain)))
      && admin == s.Domain(e.crypto.keccak(domain)).admin
      && (sub == 0 || (s.SubCard(sub).active && s.SubCard(sub).master == admin))
      && s.Card(policyCard).exists_
    case RemovePath(domain, path, card, _, _) =>
      && Registered(e, s, domain) && s.PolicyAddress(e.crypto.keccak(domain + [0] + path)) != 0
      && (card == 0 || DnsCard(s, card))
    case ClearDomainEntries(domain, paths, _) => Registered(e, s, domain) && 1 <= |paths| <= 500
    case FlagDomainFraudRisk(domain, risk, expires, _) =>
      Registered(e, s, domain) && (if risk == 2 then expires > e.now else risk < 2 && expires == 0)
    case GovernanceSetPath(domain, _, policyCard, _) =>
      Registered(e, s, domain) && (policyCard == 0 || s.Card(policyCard).exists_)
    case SetDnsPolicy(newPolicy, _) => newPolicy != 0 && newPolicy != s.dnsPolicy && Recognized(s, newPolicy)
    case _ => true
  }

  /** The call is one that the registry takes in this state. */
  ghost predicate Allowed(e: Env, s: Store, l: Logic, c: Call) {
    && e.self == s.logic
    && Authorized(e, s, l, c)
    && CardInOrder(e, s, c)
    && GovernanceInOrder(e, s, l, c)
    && DnsInOrder(e, s, c)
  }

  // ---------------------------------------------------------------------------
  // The checks are these conditions
  // ---------------------------------------------------------------------------

  predicate OnCards(c: Call) {
    || c.RegisterCard? || c.UpdateHead? || c.ClaimOpenOffer? || c.RegisterAddressForward?
    || c.BatchUpdateCardHeads? || c.RegisterSubCard? || c.DeregisterSubCard?
  }

  predicate OnDomains(c: Call) {
    || c.RegisterDomain? || c.DeregisterDomain? || c.SetPath? || c.RemovePath? || c.ClearDomainEntries?
    || c.FlagDomainFraudRisk? || c.GovernanceSetPath? || c.SetDnsPolicy?
  }

  /** The gate of the call passes. */
  predicate GatePasses(e: Env, s: Store, l: Logic, c: Call) {
    Authorize(e, s, l, GateOf(s, c)).Success?
  }

  predicate AdminPasses(e: Env, s: Store, l: Logic, c: Call) {
    c.RegisterSubCard? ==> AdminSignature(e, s, l, c.master, c.adminPayload, c.adminSig).Success?
  }

  lemma CardGates(e: Env, s: Store, l: Logic, c: Call)
    requires OnCards(c) && e.self == s.logic
    ensures GatePasses(e, s, l, c) && AdminPasses(e, s, l, c) <==> Authorized(e, s, l, c)
  {
    hide PressGate;
    hide PressAllows;
    hide PressSigned;
    hide CoSignature;
    hide AdminSignature;
    hide AdminAllows;
    hide Bump;
    hide Ascii;
    if c.RegisterCard? {
      PressGateExactly(e, s, l, c.policy, c.stamp, "register_card");
    } else if c.UpdateHead? {
      PressGateExactly(e, s, l, s.Card(c.card).policy, c.stamp, "update_card_head");
    } else if c.ClaimOpenOffer? {
      PressGateExactly(e, s, l, c.policy, c.stamp, "claim_open_offer");
    } else if c.RegisterAddressForward? {
      CoSignatureExactly(e, s, l, s.Card(c.old_).policy, c.stamp);
    } else if c.BatchUpdateCardHeads? {
      PressGateExactly(e, s, l, c.policy, c.stamp, "batch_update_card_heads");
    } else if c.RegisterSubCard? {
      PressGateExactly(e, s, l, s.Card(c.master).policy, c.stamp, "register_sub_card");
      AdminSignatureExactly(e, s, l, c.master, c.adminPayload, c.adminSig);
    } else {
      PressGateExactly(e, s, l, s.Card(s.SubCard(c.sub).master).policy, c.stamp, "deregister_sub_card");
    }
  }

  lemma GovernanceGates(e: Env, s: Store, l: Logic, c: Call)
    requires !OnCards(c) && !OnDomains(c) && e.self == s.logic
    ensures GatePasses(e, s, l, c) <==> Authorized(e, s, l, c)
  {
    hide QuorumGate;
    hide BodyAllows;
    hide KeySchemeChecks;
    hide RotationAllows;
    if c.RotateOnChainKeyScheme? {
      KeySchemeExactly(e, s, l, c.policy, c.stamp, c.newMldsaKey, c.mldsaSig);
    } else if c.AuthorizePress? || c.RevokePress? {
      QuorumGateExactly(e, s, l, 1, c.gov);
    } else if c.RotateGovernanceKeys? {
      QuorumGateExactly(e, s, l, c.body, c.gov);
    } else {
      QuorumGateExactly(e, s, l, 0, c.gov);
    }
  }

  lemma DnsGates(e: Env, s: Store, l: Logic, c: Call)
    requires OnDomains(c) && e.self == s.logic
    ensures GatePasses(e, s, l, c) <==> Authorized(e, s, l, c)
  {
    hide QuorumGate;
    hide BodyAllows;
    hide PressGate;
    hide PressAllows;
    hide Bump;
    hide Ascii;
    if c.SetPath? {
      PressGateExactly(e, s, l, s.dnsPolicy, c.stamp, "set_policy_address");
    } else if c.RemovePath? && c.card != 0 {
      PressGateExactly(e, s, l, s.dnsPolicy, c.stamp, "remove_policy_address");
    } else {
      QuorumGateExactly(e, s, l, 2, c.gov);
    }
  }

  lemma GatesExactly(e: Env, s: Store, l: Logic, c: Call)
    requires e.self == s.logic
    ensures GatePasses(e, s, l, c) && AdminPasses(e, s, l, c) <==> Authorized(e, s, l, c)
  {
    hide GatePasses;
    hide Authorized;
    if OnCards(c) {
      CardGates(e, s, l, c);
    } else if OnDomains(c) {
      DnsGates(e, s, l, c);
    } else {
      GovernanceGates(e, s, l, c);
    }
  }

  lemma {:induction false} BatchItemsExactly(s: Store, policy: B256, cards: seq<B256>, prevCids: seq<Bytes>,
                                             newCids: seq<Bytes>, i: nat)
    requires i <= |cards| == |prevCids| == |newCids|
    ensures BatchItems(s, policy, cards, prevCids, newCids, i).Success? <==>
              forall k :: i <= k < |cards| ==>
                && cards[k] !in cards[k + 1..] && |newCids[k]| <= 64
                && s.Card(cards[k]).exists_ && s.Card(cards[k]).policy == policy
                && s.Card(cards[k]).logHead == prevCids[k]
    decreases |cards| - i
  {
    if i < |cards| {
      BatchItemsExactly(s, policy, cards, prevCids, newCids, i + 1);
    }
  }

  lemma NoRepetition(cards: seq<B256>)
    ensures (forall k :: 0 <= k < |cards| ==> cards[k] !in cards[k + 1..])
            <==> forall j, k :: 0 <= j < k < |cards| ==> cards[j] != cards[k]
  {
    if forall k :: 0 <= k < |cards| ==> cards[k] !in cards[k + 1..] {
      forall j, k | 0 <= j < k < |cards| ensures cards[j] != cards[k] {
        assert cards[j + 1..][k - j - 1] == cards[k];
      }
    }
  }

  /** The checks of one kind of operation say nothing about the others. */
  lemma CardChecksApart(e: Env, s: Store, l: Logic, c: Call)
    requires !OnCards(c)
    ensures CardPreCheck(e, s, l, c).Success? && CardInOrder(e, s, c) && AdminPasses(e, s, l, c)
  {
    hide AdminSignature;
  }

  lemma GovernanceChecksApart(e: Env, s: Store, l: Logic, c: Call)
    requires OnCards(c) || OnDomains(c)
    ensures GovernancePreCheck(e, s, l, c).Success? && GovernanceInOrder(e, s, l, c)
  {
  }

  lemma DnsChecksApart(e: Env, s: Store, c: Call)
    requires !OnDomains(c)
    ensures DnsPreCheck(e, s, c).Success? && DnsInOrder(e, s, c)
  {
  }

  lemma CardChecks(e: Env, s: Store, gated: Store, l: Logic, c: Call)
    requires OnCards(c)
    requires gated == s.(presses := gated.presses, usedNonces := gated.usedNonces)
    ensures CardPreCheck(e, s, l, c).Success? && PostCheck(e, gated, c).Success?
            <==> CardInOrder(e, s, c) && AdminPasses(e, s, l, c)
  {
    hide AdminSignature;
    if c.BatchUpdateCardHeads? && |c.cards| == |c.prevCids| == |c.newCids| {
      BatchItemsExactly(gated, c.policy, c.cards, c.prevCids, c.newCids, 0);
      NoRepetition(c.cards);
    }
  }

  lemma GovernanceChecks(e: Env, s: Store, gated: Store, l: Logic, c: Call)
    requires !OnCards(c) && !OnDomains(c)
    requires gated == s.(presses := gated.presses, usedNonces := gated.usedNonces)
    ensures GovernancePreCheck(e, s, l, c).Success? && PostCheck(e, gated, c).Success?
            <==> GovernanceInOrder(e, s, l, c)
  {
  }

  lemma DnsChecks(e: Env, s: Store, gated: Store, l: Logic, c: Call)
    requires OnDomains(c)
    requires gated == s.(presses := gated.presses, usedNonces := gated.usedNonces)
    ensures DnsPreCheck(e, s, c).Success? && PostCheck(e, gated, c).Success? <==> DnsInOrder(e, s, c)
  {
  }

  /** The gate leaves press entries and nonces apart nothing changed, so the checks do not see it. */
  lemma ChecksExactly(e: Env, s: Store, gated: Store, l: Logic, c: Call)
    requires gated == s.(presses := gated.presses, usedNonces := gated.usedNonces)
    ensures PreCheck(e, s, l, c).Success? && PostCheck(e, gated, c).Success?
            <==> CardInOrder(e, s, c) && GovernanceInOrder(e, s, l, c) && DnsInOrder(e, s, c) && AdminPasses(e, s, l, c)
  {
    hide CardPreCheck;
    hide GovernancePreCheck;
    hide DnsPreCheck;
    hide PostCheck;
    hide CardInOrder;
    hide GovernanceInOrder;
    hide DnsInOrder;
    hide AdminPasses;
    if OnCards(c) {
      CardChecks(e, s, gated, l, c);
      GovernanceChecksApart(e, s, l, c);
      DnsChecksApart(e, s, c);
    } else if OnDomains(c) {
      CardChecksApart(e, s, l, c);
      GovernanceChecksApart(e, s, l, c);
      DnsChecks(e, s, gated, l, c);
    } else {
      CardChecksApart(e, s, l, c);
      GovernanceChecks(e, s, gated, l, c);
      DnsChecksApart(e, s, c);
    }
  }

  /**
   * The accepted calls: a call takes effect exactly when the instance is the one that storage
   * names, the right press or body has signed its payload, and the registry is in order for it.
   */
  lemma AcceptedExactly(e: Env, s: Store, l: Logic, c: Call)
    ensures Exec(e, s, l, c).Success? <==> Allowed(e, s, l, c)
  {
    hide PreCheck;
    hide PostCheck;
    hide Authorize;
    hide GateOf;
    hide Authorized;
    hide CardInOrder;
    hide GovernanceInOrder;
    hide DnsInOrder;
    hide AdminPasses;
    hide StoreAfter;
    hide LogicAfter;
    hide EventsOf;
    if e.self == s.logic {
      GatesExactly(e, s, l, c);
      if GatePasses(e, s, l, c) {
        var gated := Authorize(e, s, l, GateOf(s, c)).value;
        GateFrame(e, s, l, GateOf(s, c));
        ChecksExactly(e, s, gated, l, c);
      }
    }
  }

  lemma GateFrame(e: Env, s: Store, l: Logic, g: Gate)
    requires Authorize(e, s, l, g).Success?
    ensures var t := Authorize(e, s, l, g).value; t == s.(presses := t.presses, usedNonces := t.usedNonces)
  {
  }
}
