/**
 * What an accepted call changes, table by table and entry by entry, as a reader sees it: every
 * field that moves with its new value, and that everything else stays.
 */
module Outcomes {
  import opened Wrappers
  import opened ProtocolTypes
  import opened PayloadParser
  import opened Storage
  import opened Registry
  import opened Signatures
  import opened Permissions
  import Batches
  import Dns

  /** The hash under which the payload's nonce is kept. */
  ghost predicate NonceIs(x: Crypto, payload: Bytes, nonce: B256) {
    exists raw :: Says(payload, "nonce", raw) && nonce == x.keccak(raw)
  }

  /** The table key of (domain, path). */
  function EntryKey(x: Crypto, domain: Bytes, path: Bytes): B256 {
    x.keccak(domain + [0] + path)
  }

  // ---------------------------------------------------------------------------
  // Cards, sub-cards, offers
  // ---------------------------------------------------------------------------

  ghost predicate CardMoves(s: Store, c: Call, t: Store, a: B256) {
    var old_, now := s.Card(a), t.Card(a);
    match c
    case RegisterCard(card, cid, policy, stamp) =>
      now == if a == card then CardEntry(cid, policy, stamp.press, old_.forwardTo, true) else old_
    case ClaimOpenOffer(_, _, _, card, cid, policy, stamp) =>
      now == if a == card then CardEntry(cid, policy, stamp.press, old_.forwardTo, true) else old_
    case UpdateHead(card, newCid, _, stamp) =>
      now == if a == card then old_.(logHead := newCid, lastPress := stamp.press) else old_
    case RegisterAddressForward(from, to, _) => now == if a == from then old_.(forwardTo := to) else old_
    case BatchUpdateCardHeads(_, cards, _, newCids, stamp) =>
      if a in cards then
        exists k :: 0 <= k < |cards| && k < |newCids| && cards[k] == a
                    && now == old_.(logHead := newCids[k], lastPress := stamp.press)
      else now == old_
    case _ => now == old_
  }

  ghost predicate SubCardMoves(e: Env, s: Store, c: Call, t: Store, a: B256) {
    match c
    case RegisterSubCard(sub, master, head, docCid, _, _, _) =>
      t.SubCard(a) == if a == sub then SubCardEntry(master, head, docCid, true, e.now, 0) else s.SubCard(a)
    case DeregisterSubCard(sub, _) =>
      t.SubCard(a) == if a == sub then s.SubCard(a).(active := false, deregisteredAt := e.now) else s.SubCard(a)
    case _ => t.SubCard(a) == s.SubCard(a)
  }

  ghost predicate OfferMoves(s: Store, c: Call, t: Store, o: B256) {
    t.OfferCount(o) == if c.ClaimOpenOffer? && c.offer == o then (s.OfferCount(o) + 1) % 0x1_0000_0000_0000_0000
                       else s.OfferCount(o)
  }

  // ---------------------------------------------------------------------------
  // Policies, presses, keysets, nonces
  // ---------------------------------------------------------------------------

  ghost predicate PolicyKeyMoves(s: Store, c: Call, t: Store, p: B256) {
    var old_, now := Get(s.policyKeys, p, []), Get(t.policyKeys, p, []);
    match c
    case RegisterPolicy(policy, key, _) => now == if p == policy then key else old_
    case RotateAuthorizerKey(policy, key, _) => now == if p == policy then key else old_
    case DeregisterPolicy(policy, _) => now == if p == policy then [] else old_
    case _ => now == old_
  }

  /** An authorization starts afresh, a revocation deactivates, and a press operation counts one on. */
  ghost predicate PressMoves(e: Env, s: Store, c: Call, t: Store, policy: B256, press: B256) {
    var old_, now := s.Press(policy, press), t.Press(policy, press);
    match c
    case AuthorizePress(p, q, key, mldsaHash, _) =>
      now == if p == policy && q == press then PressEntry(key, mldsaHash, 0, true, 0, e.now, 0) else old_
    case RevokePress(p, q, _) =>
      now == if p == policy && q == press then old_.(active := false, revokedAt := e.now) else old_
    case RotateOnChainKeyScheme(p, stamp, _, _) =>
      now == if p == policy && stamp.press == press then old_.(key := seq(64, _ => 0), keyScheme := 1) else old_
    case _ =>
      match PressOpOf(s, c)
      case Some(PressOp(p, stamp, _)) =>
        now == if p == policy && stamp.press == press
               then old_.(nextSequence := (old_.nextSequence + 1) % 0x1_0000_0000_0000_0000) else old_
      case None => now == old_
  }

  ghost predicate KeysetMoves(s: Store, c: Call, t: Store, body: u8) {
    t.KeysetOf(body) ==
    if c.RotateGovernanceKeys? && c.body == body
    then Keyset(c.keysFlat, c.keyCount, c.quorum, (s.KeysetOf(body).version + 1) % 0x1_0000_0000, 0)
    else s.KeysetOf(body)
  }

  ghost predicate NoncesMove(e: Env, s: Store, c: Call, t: Store) {
    match VoteOn(c)
    case Some(Vote(_, gov)) =>
      exists nonce :: NonceIs(e.crypto, gov.payload, nonce) && t.usedNonces == s.usedNonces + {nonce}
    case None => t.usedNonces == s.usedNonces
  }

  // ---------------------------------------------------------------------------
  // Domains
  // ---------------------------------------------------------------------------

  ghost predicate DomainMoves(e: Env, s: Store, c: Call, t: Store, h: B256) {
    var old_, now := s.Domain(h), t.Domain(h);
    match c
    case RegisterDomain(domain, admin, _, _) =>
      now == if h == e.crypto.keccak(domain) then DomainEntry(admin, e.now, 0, 0, true) else old_
    case DeregisterDomain(domain, _) => now == if h == e.crypto.keccak(domain) then old_.(admin := 0) else old_
    case FlagDomainFraudRisk(domain, risk, expires, _) =>
      now == if h == e.crypto.keccak(domain) then old_.(fraudRisk := risk, suspensionExpiresAt := expires) else old_
    case _ => now == old_
  }

  ghost predicate PolicyAddressMoves(e: Env, s: Store, c: Call, t: Store, key: B256) {
    var old_, now := s.PolicyAddress(key), t.PolicyAddress(key);
    match c
    case SetPath(domain, path, policyCard, _, _, _) =>
      now == if key == EntryKey(e.crypto, domain, path) then policyCard else old_
    case GovernanceSetPath(domain, path, policyCard, _) =>
      now == if key == EntryKey(e.crypto, domain, path) then policyCard else old_
    case RemovePath(domain, path, _, _, _) => now == if key == EntryKey(e.crypto, domain, path) then 0 else old_
    case ClearDomainEntries(domain, paths, _) =>
      now == if exists p :: p in paths && key == EntryKey(e.crypto, domain, p) then 0 else old_
    case _ => now == old_
  }

  ghost predicate AdminKeyMoves(e: Env, s: Store, c: Call, t: Store, card: B256) {
    var old_, now := s.AdminKey(card), t.AdminKey(card);
    match c
    case RegisterDomain(_, admin, key, _) => now == if card == admin then key else old_
    case DeregisterDomain(domain, _) =>
      now == if card != 0 && card == s.Domain(e.crypto.keccak(domain)).admin then [] else old_
    case _ => now == old_
  }

  // ---------------------------------------------------------------------------
  // Single slots and the instance
  // ---------------------------------------------------------------------------

  /** A new proposal carries its time, the root keyset's version and its own nonce. */
  ghost predicate Proposed(e: Env, s: Store, address: Address, gov: Signed, p: Pending) {
    && p.address == address && p.proposedAt == e.now && p.governanceVersion == s.KeysetOf(0).version
    && NonceIs(e.crypto, gov.payload, p.nonce)
  }

  ghost predicate PendingMoves(e: Env, s: Store, c: Call, t: Store) {
    match c
    case ProposeLogicUpgrade(address, gov) => Proposed(e, s, address, gov, t.pending)
    case ConfirmLogicUpgrade(_, _) => t.pending == Pending(0, 0, 0, 0)
    case CancelLogicUpgrade(_) => t.pending == Pending(0, 0, 0, 0)
    case _ => t.pending == s.pending
  }

  ghost predicate SlotsMove(s: Store, c: Call, t: Store) {
    && t.logic == (if c.ConfirmLogicUpgrade? then c.address else s.logic)
    && t.keySchemePhase == s.keySchemePhase
    && (t.deleteDisabled <==> s.deleteDisabled || c.DisablePolicyDelete?)
    && t.dnsPolicy == (if c.SetDnsPolicy? then c.newPolicy else s.dnsPolicy)
  }

  ghost predicate InstanceMoves(e: Env, s: Store, l: Logic, c: Call, l': Logic) {
    && l'.verifier == (if c.ConfirmVerifierUpgrade? then c.address else l.verifier)
    && l'.protocolVersion == (if c.SetProtocolVersion? then c.newVersion else l.protocolVersion)
    && match c
       case ProposeVerifierUpgrade(address, gov) => Proposed(e, s, address, gov, l'.pendingVerifier)
       case ConfirmVerifierUpgrade(_, _) => l'.pendingVerifier == Pending(0, 0, 0, 0)
       case CancelVerifierUpgrade(_) => l'.pendingVerifier == Pending(0, 0, 0, 0)
       case _ => l'.pendingVerifier == l.pendingVerifier
  }

  // ---------------------------------------------------------------------------
  // The effects are these
  // ---------------------------------------------------------------------------

  /** The call is accepted in this state, leaving `fx`. */
  predicate Does(e: Env, s: Store, l: Logic, c: Call, fx: Effects) {
    Exec(e, s, l, c) == Success(fx)
  }

  /** The stages behind an accepted call. */
  lemma Parts(e: Env, s: Store, l: Logic, c: Call, fx: Effects) returns (gated: Store)
    requires Does(e, s, l, c, fx)
    ensures Authorize(e, s, l, GateOf(s, c)) == Success(gated) && PostCheck(e, gated, c).Success?
    ensures CardPreCheck(e, s, l, c).Success? && GovernancePreCheck(e, s, l, c).Success?
    ensures DnsPreCheck(e, s, c).Success?
    ensures gated == s.(presses := gated.presses, usedNonces := gated.usedNonces)
    ensures fx == Effects(StoreAfter(e, gated, c), LogicAfter(e, gated, l, c), EventsOf(e, gated, l, c))
  {
    hide Authorize;
    hide GateOf;
    hide PostCheck;
    hide StoreAfter;
    hide LogicAfter;
    hide EventsOf;
    hide CardPreCheck;
    hide GovernancePreCheck;
    hide DnsPreCheck;
    gated := Authorize(e, s, l, GateOf(s, c)).value;
    GateFrame(e, s, l, GateOf(s, c));
  }

  /** What the listed cards of an accepted batch become. */
  lemma BatchOutcome(s: Store, c: Call, a: B256)
    requires c.BatchUpdateCardHeads? && |c.cards| == |c.prevCids| == |c.newCids|
    requires BatchItems(s, c.policy, c.cards, c.prevCids, c.newCids, 0).Success?
    ensures var now := Get(CardsAfter(s, c), a, NO_CARD);
            if a in c.cards then
              exists k :: 0 <= k < |c.cards| && c.cards[k] == a
                          && now == s.Card(a).(logHead := c.newCids[k], lastPress := c.stamp.press)
            else now == s.Card(a)
  {
    Batches.ValidItemsAreDistinct(s, c.policy, c.cards, c.prevCids, c.newCids);
    Batches.HeadsWritten(s.cards, c.cards, c.newCids, c.stamp.press, |c.cards|);
    assert c.cards[..|c.cards|] == c.cards;
    if a in c.cards {
      var k :| 0 <= k < |c.cards| && c.cards[k] == a;
    }
  }

  lemma CardOutcome(e: Env, s: Store, l: Logic, c: Call, fx: Effects, a: B256)
    requires Does(e, s, l, c, fx)
    ensures CardMoves(s, c, fx.store, a)
  {
    hide Does;
    hide CardPreCheck;
    hide GovernancePreCheck;
    hide DnsPreCheck;
    hide Authorize;
    hide GateOf;
    hide LogicAfter;
    hide EventsOf;
    var gated := Parts(e, s, l, c, fx);
    if c.BatchUpdateCardHeads? {
      BatchOutcome(gated, c, a);
    }
  }

  lemma SubCardOutcome(e: Env, s: Store, l: Logic, c: Call, fx: Effects, a: B256)
    requires Does(e, s, l, c, fx)
    ensures SubCardMoves(e, s, c, fx.store, a)
  {
    hide Does;
    hide CardPreCheck;
    hide GovernancePreCheck;
    hide DnsPreCheck;
    hide PostCheck;
    hide Authorize;
    hide GateOf;
    hide LogicAfter;
    hide EventsOf;
    hide CardsAfter;
    hide PendingAfter;
    hide Cleared;
    var gated := Parts(e, s, l, c, fx);
  }

  lemma OfferOutcome(e: Env, s: Store, l: Logic, c: Call, fx: Effects, o: B256)
    requires Does(e, s, l, c, fx)
    ensures OfferMoves(s, c, fx.store, o)
  {
    hide Does;
    hide CardPreCheck;
    hide GovernancePreCheck;
    hide DnsPreCheck;
    hide PostCheck;
    hide Authorize;
    hide GateOf;
    hide LogicAfter;
    hide EventsOf;
    hide CardsAfter;
    hide SubCardsAfter;
    hide PendingAfter;
    hide Cleared;
    var gated := Parts(e, s, l, c, fx);
  }

  lemma PolicyKeyOutcome(e: Env, s: Store, l: Logic, c: Call, fx: Effects, p: B256)
    requires Does(e, s, l, c, fx)
    ensures PolicyKeyMoves(s, c, fx.store, p)
  {
    hide Does;
    hide CardPreCheck;
    hide GovernancePreCheck;
    hide DnsPreCheck;
    hide PostCheck;
    hide Authorize;
    hide GateOf;
    hide LogicAfter;
    hide EventsOf;
    hide CardsAfter;
    hide SubCardsAfter;
    hide PendingAfter;
    hide Cleared;
    var gated := Parts(e, s, l, c, fx);
  }

  lemma KeysetOutcome(e: Env, s: Store, l: Logic, c: Call, fx: Effects, body: u8)
    requires Does(e, s, l, c, fx)
    ensures KeysetMoves(s, c, fx.store, body)
  {
    hide Does;
    hide CardPreCheck;
    hide GovernancePreCheck;
    hide DnsPreCheck;
    hide PostCheck;
    hide Authorize;
    hide GateOf;
    hide LogicAfter;
    hide EventsOf;
    hide CardsAfter;
    hide SubCardsAfter;
    hide PendingAfter;
    hide Cleared;
    var gated := Parts(e, s, l, c, fx);
  }

  lemma DomainOutcome(e: Env, s: Store, l: Logic, c: Call, fx: Effects, h: B256)
    requires Does(e, s, l, c, fx)
    ensures DomainMoves(e, s, c, fx.store, h)
  {
    hide Does;
    hide CardPreCheck;
    hide GovernancePreCheck;
    hide PostCheck;
    hide Authorize;
    hide GateOf;
    hide LogicAfter;
    hide EventsOf;
    hide CardsAfter;
    hide SubCardsAfter;
    hide PendingAfter;
    hide Cleared;
    var gated := Parts(e, s, l, c, fx);
  }

  lemma AdminKeyOutcome(e: Env, s: Store, l: Logic, c: Call, fx: Effects, card: B256)
    requires Does(e, s, l, c, fx)
    ensures AdminKeyMoves(e, s, c, fx.store, card)
  {
    hide Does;
    hide CardPreCheck;
    hide GovernancePreCheck;
    hide DnsPreCheck;
    hide PostCheck;
    hide Authorize;
    hide GateOf;
    hide LogicAfter;
    hide EventsOf;
    hide CardsAfter;
    hide SubCardsAfter;
    hide PendingAfter;
    hide Cleared;
    var gated := Parts(e, s, l, c, fx);
  }

  lemma SlotOutcome(e: Env, s: Store, l: Logic, c: Call, fx: Effects)
    requires Does(e, s, l, c, fx)
    ensures SlotsMove(s, c, fx.store)
  {
    hide Does;
    hide CardPreCheck;
    hide GovernancePreCheck;
    hide DnsPreCheck;
    hide PostCheck;
    hide Authorize;
    hide GateOf;
    hide LogicAfter;
    hide EventsOf;
    hide CardsAfter;
    hide SubCardsAfter;
    hide PendingAfter;
    hide Cleared;
    var gated := Parts(e, s, l, c, fx);
  }

  /** What the gate does to the presses: a batch leaves the counting on to its operation. */
  lemma PressGateOutcome(e: Env, s: Store, l: Logic, c: Call, gated: Store)
    requires Authorize(e, s, l, GateOf(s, c)) == Success(gated)
    ensures gated.presses == match PressOpOf(s, c)
                             case Some(PressOp(p, stamp, _)) =>
                               if c.BatchUpdateCardHeads? then s.presses else Bump(s, p, stamp.press).presses
                             case None => s.presses
  {
    hide PressGate;
    hide QuorumGate;
    hide CoSignature;
    hide KeySchemeChecks;
    hide Bump;
    hide Ascii;
  }

  lemma ZerosAreZero(n: nat)
    ensures Zeros(n) == seq(n, _ => 0)
  {
  }

  /** The calls that write a press entry otherwise than by counting. */
  predicate OnPresses(c: Call) {
    c.AuthorizePress? || c.RevokePress? || c.RotateOnChainKeyScheme?
  }

  lemma OnPressesApart(s: Store, c: Call)
    ensures OnPresses(c) ==> PressOpOf(s, c).None?
    ensures c.BatchUpdateCardHeads? ==> PressOpOf(s, c) == Some(PressOp(c.policy, c.stamp, "batch_update_card_heads"))
  {
  }

  lemma PressTable(e: Env, s: Store, l: Logic, c: Call, gated: Store)
    requires Authorize(e, s, l, GateOf(s, c)) == Success(gated)
    ensures PressesAfter(e.now, gated, c) ==
            if OnPresses(c) then PressesAfter(e.now, s, c)
            else match PressOpOf(s, c)
                 case Some(PressOp(p, stamp, _)) => Bump(s, p, stamp.press).presses
                 case None => s.presses
  {
    hide Authorize;
    hide GateOf;
    hide Zeros;
    hide PressOpOf;
    PressGateOutcome(e, s, l, c, gated);
    OnPressesApart(s, c);
  }

  lemma EntryWritten(e: Env, s: Store, c: Call, t: Store, policy: B256, press: B256)
    requires OnPresses(c) && t.presses == PressesAfter(e.now, s, c)
    ensures PressMoves(e, s, c, t, policy, press)
  {
    ZerosAreZero(KEY_LEN);
    hide Zeros;
    hide PressOpOf;
  }

  lemma EntryCounts(e: Env, s: Store, c: Call, t: Store, policy: B256, press: B256)
    requires !OnPresses(c)
    requires t.presses == match PressOpOf(s, c)
                          case Some(PressOp(p, stamp, _)) => Bump(s, p, stamp.press).presses
                          case None => s.presses
    ensures PressMoves(e, s, c, t, policy, press)
  {
    hide PressOpOf;
  }

  lemma PressOutcome(e: Env, s: Store, l: Logic, c: Call, fx: Effects, policy: B256, press: B256)
    requires Does(e, s, l, c, fx)
    ensures PressMoves(e, s, c, fx.store, policy, press)
  {
    hide Does;
    hide CardPreCheck;
    hide GovernancePreCheck;
    hide DnsPreCheck;
    hide PostCheck;
    hide LogicAfter;
    hide EventsOf;
    hide CardsAfter;
    hide SubCardsAfter;
    hide Authorize;
    hide GateOf;
    hide PendingAfter;
    hide PressesAfter;
    hide PressMoves;
    hide PressOpOf;
    var gated := Parts(e, s, l, c, fx);
    PressTable(e, s, l, c, gated);
    if OnPresses(c) {
      EntryWritten(e, s, c, fx.store, policy, press);
    } else {
      EntryCounts(e, s, c, fx.store, policy, press);
    }
  }

  lemma NonceGateOutcome(e: Env, s: Store, l: Logic, c: Call, gated: Store)
    requires Authorize(e, s, l, GateOf(s, c)) == Success(gated)
    ensures match VoteOn(c)
            case Some(Vote(body, gov)) =>
              && QuorumGate(e, s, l, body, gov).Success?
              && gated.usedNonces == s.usedNonces + {QuorumGate(e, s, l, body, gov).value.nonce}
            case None => gated.usedNonces == s.usedNonces
  {
    hide PressGate;
    hide QuorumGate;
    hide CoSignature;
    hide KeySchemeChecks;
    hide Ascii;
  }

  /** The nonce that the governance check marks is that of the payload. */
  lemma NonceMarked(e: Env, s: Store, l: Logic, body: u8, gov: Signed)
    requires QuorumGate(e, s, l, body, gov).Success?
    ensures NonceIs(e.crypto, gov.payload, QuorumGate(e, s, l, body, gov).value.nonce)
    ensures NonceIs(e.crypto, gov.payload, NonceKey(e.crypto, gov.payload))
  {
    hide Field;
    hide Ascii;
    hide BallotOf;
    assert Says(gov.payload, "nonce", ExtractNonceBytes(gov.payload).value.value);
  }

  lemma NonceOutcome(e: Env, s: Store, l: Logic, c: Call, fx: Effects)
    requires Does(e, s, l, c, fx)
    ensures NoncesMove(e, s, c, fx.store)
  {
    hide Does;
    hide CardPreCheck;
    hide GovernancePreCheck;
    hide DnsPreCheck;
    hide PostCheck;
    hide LogicAfter;
    hide EventsOf;
    hide CardsAfter;
    hide SubCardsAfter;
    hide Authorize;
    hide GateOf;
    hide PendingAfter;
    hide QuorumGate;
    hide NonceIs;
    var gated := Parts(e, s, l, c, fx);
    NonceGateOutcome(e, s, l, c, gated);
    if VoteOn(c).Some? {
      NonceMarked(e, s, l, VoteOn(c).value.body, VoteOn(c).value.gov);
    }
  }

  lemma PendingOutcome(e: Env, s: Store, l: Logic, c: Call, fx: Effects)
    requires Does(e, s, l, c, fx)
    ensures PendingMoves(e, s, c, fx.store) && InstanceMoves(e, s, l, c, fx.logic)
  {
    hide Does;
    hide CardPreCheck;
    hide GovernancePreCheck;
    hide DnsPreCheck;
    hide PostCheck;
    hide EventsOf;
    hide CardsAfter;
    hide SubCardsAfter;
    hide PressesAfter;
    hide KeysetsAfter;
    hide PolicyKeysAfter;
    hide DomainsAfter;
    hide AdminKeysAfter;
    hide PolicyAddressesAfter;
    hide Authorize;
    hide GateOf;
    hide QuorumGate;
    hide NonceIs;
    hide NonceKey;
    var gated := Parts(e, s, l, c, fx);
    if c.ProposeLogicUpgrade? || c.ProposeVerifierUpgrade? {
      NonceGateOutcome(e, s, l, c, gated);
      NonceMarked(e, s, l, 0, c.gov);
    }
  }

  lemma PolicyAddressOutcome(e: Env, s: Store, l: Logic, c: Call, fx: Effects, key: B256)
    requires Does(e, s, l, c, fx)
    ensures PolicyAddressMoves(e, s, c, fx.store, key)
  {
    hide Does;
    hide CardPreCheck;
    hide GovernancePreCheck;
    hide DnsPreCheck;
    hide PostCheck;
    hide LogicAfter;
    hide EventsOf;
    hide CardsAfter;
    hide SubCardsAfter;
    hide Authorize;
    hide GateOf;
    hide Cleared;
    var gated := Parts(e, s, l, c, fx);
    if c.ClearDomainEntries? {
      Dns.ClearedExactly(e.crypto, gated.policyAddresses, c.domain, c.paths, |c.paths|, key);
      ClearedKeys(e.crypto, c.domain, c.paths, key);
    }
  }

  lemma ClearedKeys(x: Crypto, domain: Bytes, paths: seq<Bytes>, key: B256)
    ensures key in Dns.Keys(x, domain, paths, |paths|) <==> exists p :: p in paths && key == EntryKey(x, domain, p)
  {
    assert forall p :: PathKey(x, domain, p) == EntryKey(x, domain, p);
    hide PathKey;
    hide EntryKey;
    assert forall p :: p in paths ==> exists i :: 0 <= i < |paths| && paths[i] == p;
  }

  // ---------------------------------------------------------------------------
  // Events
  // ---------------------------------------------------------------------------

  /** The different table keys of the listed paths that hold something. */
  ghost function SetKeys(e: Env, s: Store, domain: Bytes, paths: seq<Bytes>): set<B256> {
    set p | p in paths && s.PolicyAddress(EntryKey(e.crypto, domain, p)) != 0 :: EntryKey(e.crypto, domain, p)
  }

  /** One event a call, except that a claim tells of two things and a batch of each head. */
  ghost predicate CardEmits(e: Env, s: Store, c: Call, events: seq<Event>) {
    match c
    case RegisterCard(card, cid, policy, stamp) => events == [CardRegistered(card, policy, stamp.press, cid, e.now)]
    case UpdateHead(card, newCid, _, stamp) =>
      events == [CardHeadUpdated(card, s.Card(card).logHead, newCid, stamp.press, e.now)]
    case ClaimOpenOffer(offer, _, _, card, cid, policy, stamp) =>
      events == [OpenOfferClaimed(offer, card, (s.OfferCount(offer) + 1) % 0x1_0000_0000_0000_0000, e.now),
                 CardRegistered(card, policy, stamp.press, cid, e.now)]
    case RegisterAddressForward(from, to, _) => events == [AddressTransition(from, to, e.now)]
    case BatchUpdateCardHeads(_, cards, _, newCids, stamp) =>
      && |events| == |cards| == |newCids|
      && forall k :: 0 <= k < |cards| ==>
           events[k] == CardHeadUpdated(cards[k], s.Card(cards[k]).logHead, newCids[k], stamp.press, e.now)
    case RegisterSubCard(sub, master, _, docCid, _, _, _) =>
      events == [SubCardRegistered(sub, master, docCid, e.now)]
    case DeregisterSubCard(sub, _) => events == [SubCardDeregistered(sub, s.SubCard(sub).master, e.now)]
    case _ => true
  }

  ghost predicate GovernanceEmits(e: Env, s: Store, l: Logic, c: Call, events: seq<Event>) {
    match c
    case RegisterPolicy(policy, _, _) => events == [PolicyRegistered(policy, e.now)]
    case DeregisterPolicy(policy, _) => events == [PolicyDeregistered(policy, e.now)]
    case AuthorizePress(policy, press, _, _, _) => events == [PressAuthorized(policy, press, e.now)]
    case RevokePress(policy, press, _) => events == [Event.PressRevoked(policy, press, e.now)]
    case RotateAuthorizerKey(policy, _, _) => events == [AuthorizerKeyRotated(policy, e.now)]
    case RotateGovernanceKeys(body, _, keyCount, quorum, _) =>
      events == [GovernanceKeysRotated(body, quorum, keyCount, (s.KeysetOf(body).version + 1) % 0x1_0000_0000, e.now)]
    case SetProtocolVersion(newVersion, _) =>
      events == [ProtocolVersionUpdated(if l.protocolVersion == "" then "0.1" else l.protocolVersion, newVersion,
                                        e.now)]
    case DisablePolicyDelete(_) => events == [PolicyDeletePermanentlyDisabled(e.now)]
    case ProposeLogicUpgrade(address, _) =>
      events == [LogicUpgradeProposed(address, e.now, (e.now + 604800) % 0x1_0000_0000_0000_0000)]
    case ConfirmLogicUpgrade(address, _) => events == [LogicUpgradeConfirmed(address, e.now)]
    case CancelLogicUpgrade(_) => events == [LogicUpgradeCancelled(s.pending.address, e.now)]
    case ProposeVerifierUpgrade(address, _) =>
      events == [VerifierUpgradeProposed(address, e.now, (e.now + 172800) % 0x1_0000_0000_0000_0000)]
    case ConfirmVerifierUpgrade(address, _) => events == [VerifierUpgradeConfirmed(address, e.now)]
    case CancelVerifierUpgrade(_) => events == [VerifierUpgradeCancelled(l.pendingVerifier.address, e.now)]
    case RotateOnChainKeyScheme(policy, stamp, newKey, _) =>
      events == [OnChainKeySchemeRotated(policy, stamp.press, newKey)]
    case _ => true
  }

  ghost predicate DnsEmits(e: Env, s: Store, c: Call, events: seq<Event>) {
    match c
    case RegisterDomain(domain, admin, _, _) => events == [DomainRegistered(domain, admin, e.now)]
    case DeregisterDomain(domain, _) => events == [DomainDeregistered(domain, e.now)]
    case SetPath(domain, path, policyCard, admin, sub, stamp) =>
      events == [PolicyAddressSet(domain, path, policyCard, admin, sub, stamp.press, e.now)]
    case RemovePath(domain, path, _, _, _) => events == [PolicyAddressRemoved(domain, path, e.now)]
    case ClearDomainEntries(domain, paths, _) =>
      events == [DomainEntriesCleared(domain, |SetKeys(e, s, domain, paths)|, e.now)]
    case FlagDomainFraudRisk(domain, risk, expires, _) =>
      events == [DomainFraudRiskUpdated(domain, risk, expires, e.now)]
    case GovernanceSetPath(domain, path, policyCard, _) =>
      events == [PolicyAddressGovernanceSet(domain, path, policyCard,
                                            s.PolicyAddress(EntryKey(e.crypto, domain, path)), e.now)]
    case SetDnsPolicy(newPolicy, _) => events == [DnsGovernancePolicyAddressUpdated(s.dnsPolicy, newPolicy, e.now)]
    case _ => true
  }

  lemma {:induction false} HeadEventsAt(batch: seq<B256>, prevCids: seq<Bytes>, newCids: seq<Bytes>, press: B256,
                                        now: nat, n: nat)
    requires n <= |batch| == |prevCids| == |newCids|
    ensures |HeadEvents(batch, prevCids, newCids, press, now, n)| == n
    ensures forall k :: 0 <= k < n ==>
              HeadEvents(batch, prevCids, newCids, press, now, n)[k]
              == CardHeadUpdated(batch[k], prevCids[k], newCids[k], press, now)
  {
    if n > 0 {
      HeadEventsAt(batch, prevCids, newCids, press, now, n - 1);
    }
  }

  lemma CardEventsOutcome(e: Env, s: Store, l: Logic, c: Call, fx: Effects)
    requires Does(e, s, l, c, fx) && OnCards(c)
    ensures CardEmits(e, s, c, fx.events)
  {
    hide Does;
    hide CardPreCheck;
    hide GovernancePreCheck;
    hide DnsPreCheck;
    hide Authorize;
    hide GateOf;
    hide StoreAfter;
    hide LogicAfter;
    var gated := Parts(e, s, l, c, fx);
    if c.BatchUpdateCardHeads? {
      Batches.ValidItemsAreDistinct(gated, c.policy, c.cards, c.prevCids, c.newCids);
      HeadEventsAt(c.cards, c.prevCids, c.newCids, c.stamp.press, e.now, |c.cards|);
    }
  }

  lemma GovernanceEventsOutcome(e: Env, s: Store, l: Logic, c: Call, fx: Effects)
    requires Does(e, s, l, c, fx) && !OnCards(c) && !OnDomains(c)
    ensures GovernanceEmits(e, s, l, c, fx.events)
  {
    hide Does;
    hide CardPreCheck;
    hide GovernancePreCheck;
    hide DnsPreCheck;
    hide PostCheck;
    hide Authorize;
    hide GateOf;
    hide StoreAfter;
    hide LogicAfter;
    var gated := Parts(e, s, l, c, fx);
  }

  lemma DnsEventsOutcome(e: Env, s: Store, l: Logic, c: Call, fx: Effects)
    requires Does(e, s, l, c, fx) && OnDomains(c)
    ensures DnsEmits(e, s, c, fx.events)
  {
    hide Does;
    hide CardPreCheck;
    hide GovernancePreCheck;
    hide DnsPreCheck;
    hide PostCheck;
    hide Authorize;
    hide GateOf;
    hide StoreAfter;
    hide LogicAfter;
    hide ClearedCount;
    hide SetKeys;
    var gated := Parts(e, s, l, c, fx);
    if c.ClearDomainEntries? {
      Dns.ClearedCounts(e.crypto, gated.policyAddresses, c.domain, c.paths, |c.paths|);
      OccupiedKeys(e, s, c.domain, c.paths);
    }
  }

  lemma OccupiedKeys(e: Env, s: Store, domain: Bytes, paths: seq<Bytes>)
    ensures Dns.Occupied(e.crypto, s.policyAddresses, domain, paths, |paths|) == SetKeys(e, s, domain, paths)
  {
    var occupied := Dns.Occupied(e.crypto, s.policyAddresses, domain, paths, |paths|);
    var keys := SetKeys(e, s, domain, paths);
    forall key: B256 ensures key in occupied <==> key in keys {
      ClearedKeys(e.crypto, domain, paths, key);
    }
  }

  // ---------------------------------------------------------------------------
  // Everything that changes
  // ---------------------------------------------------------------------------

  ghost predicate Emits(e: Env, s: Store, l: Logic, c: Call, events: seq<Event>) {
    && (OnCards(c) ==> CardEmits(e, s, c, events))
    && (OnDomains(c) ==> DnsEmits(e, s, c, events))
    && (!OnCards(c) && !OnDomains(c) ==> GovernanceEmits(e, s, l, c, events))
  }

  ghost predicate RegistryMoves(e: Env, s: Store, c: Call, t: Store) {
    && (forall a: B256 :: CardMoves(s, c, t, a))
    && (forall a: B256 :: SubCardMoves(e, s, c, t, a))
    && (forall o: B256 :: OfferMoves(s, c, t, o))
    && (forall p: B256 :: PolicyKeyMoves(s, c, t, p))
    && (forall policy: B256, press: B256 :: PressMoves(e, s, c, t, policy, press))
    && (forall body: u8 :: KeysetMoves(s, c, t, body))
    && (forall h: B256 :: DomainMoves(e, s, c, t, h))
    && (forall key: B256 :: PolicyAddressMoves(e, s, c, t, key))
    && (forall card: B256 :: AdminKeyMoves(e, s, c, t, card))
    && NoncesMove(e, s, c, t)
    && PendingMoves(e, s, c, t)
    && SlotsMove(s, c, t)
  }

  /** Every table, slot and field, and every event. */
  ghost predicate Changes(e: Env, s: Store, l: Logic, c: Call, fx: Effects) {
    && RegistryMoves(e, s, c, fx.store)
    && InstanceMoves(e, s, l, c, fx.logic)
    && Emits(e, s, l, c, fx.events)
  }

  /** An accepted call changes these things, to these values, and nothing else. */
  lemma AcceptedChanges(e: Env, s: Store, l: Logic, c: Call, fx: Effects)
    requires Does(e, s, l, c, fx)
    ensures Changes(e, s, l, c, fx)
  {
    hide Does;
    hide CardMoves;
    hide SubCardMoves;
    hide OfferMoves;
    hide PolicyKeyMoves;
    hide PressMoves;
    hide KeysetMoves;
    hide DomainMoves;
    hide PolicyAddressMoves;
    hide AdminKeyMoves;
    hide NoncesMove;
    hide PendingMoves;
    hide SlotsMove;
    hide InstanceMoves;
    hide CardEmits;
    hide DnsEmits;
    hide GovernanceEmits;
    hide OnCards;
    hide OnDomains;
    var t := fx.store;
    forall a: B256 ensures CardMoves(s, c, t, a) && SubCardMoves(e, s, c, t, a) {
      CardOutcome(e, s, l, c, fx, a);
      SubCardOutcome(e, s, l, c, fx, a);
    }
    forall k: B256 ensures OfferMoves(s, c, t, k) && PolicyKeyMoves(s, c, t, k) && DomainMoves(e, s, c, t, k) {
      OfferOutcome(e, s, l, c, fx, k);
      PolicyKeyOutcome(e, s, l, c, fx, k);
      DomainOutcome(e, s, l, c, fx, k);
    }
    forall k: B256 ensures PolicyAddressMoves(e, s, c, t, k) && AdminKeyMoves(e, s, c, t, k) {
      PolicyAddressOutcome(e, s, l, c, fx, k);
      AdminKeyOutcome(e, s, l, c, fx, k);
    }
    forall policy: B256, press: B256 ensures PressMoves(e, s, c, t, policy, press) {
      PressOutcome(e, s, l, c, fx, policy, press);
    }
    forall body: u8 ensures KeysetMoves(s, c, t, body) {
      KeysetOutcome(e, s, l, c, fx, body);
    }
    NonceOutcome(e, s, l, c, fx);
    PendingOutcome(e, s, l, c, fx);
    SlotOutcome(e, s, l, c, fx);
    if OnCards(c) {
      CardEventsOutcome(e, s, l, c, fx);
    }
    if OnDomains(c) {
      DnsEventsOutcome(e, s, l, c, fx);
    }
    if !OnCards(c) && !OnDomains(c) {
      GovernanceEventsOutcome(e, s, l, c, fx);
    }
  }

  /** Nobody can tell the two apart by reading. */
  ghost predicate ReadsSame(s: Store, t: Store) {
    && (forall a: B256 :: s.Card(a) == t.Card(a) && s.SubCard(a) == t.SubCard(a) && s.OfferCount(a) == t.OfferCount(a))
    && (forall policy: B256, press: B256 :: s.Press(policy, press) == t.Press(policy, press))
    && (forall p: B256 :: Get(s.policyKeys, p, []) == Get(t.policyKeys, p, []) && s.AdminKey(p) == t.AdminKey(p))
    && (forall body: u8 :: s.KeysetOf(body) == t.KeysetOf(body))
    && (forall h: B256 :: s.Domain(h) == t.Domain(h) && s.PolicyAddress(h) == t.PolicyAddress(h))
    && s.usedNonces == t.usedNonces && s.logic == t.logic && s.pending == t.pending
    && s.keySchemePhase == t.keySchemePhase && s.deleteDisabled == t.deleteDisabled && s.dnsPolicy == t.dnsPolicy
  }

  lemma NonceIsOne(x: Crypto, payload: Bytes, n: B256, n': B256)
    requires NonceIs(x, payload, n) && NonceIs(x, payload, n')
    ensures n == n'
  {
    hide Field;
  }

  lemma CardsDecided(e: Env, s: Store, c: Call, t: Store, t': Store, a: B256)
    requires CardInOrder(e, s, c)
    requires CardMoves(s, c, t, a) && CardMoves(s, c, t', a)
    ensures t.Card(a) == t'.Card(a)
  {
  }

  lemma TablesDecided(e: Env, s: Store, c: Call, t: Store, t': Store, a: B256)
    requires SubCardMoves(e, s, c, t, a) && SubCardMoves(e, s, c, t', a)
    requires OfferMoves(s, c, t, a) && OfferMoves(s, c, t', a)
    requires PolicyKeyMoves(s, c, t, a) && PolicyKeyMoves(s, c, t', a)
    ensures t.SubCard(a) == t'.SubCard(a) && t.OfferCount(a) == t'.OfferCount(a)
    ensures Get(t.policyKeys, a, []) == Get(t'.policyKeys, a, [])
  {
  }

  lemma DnsTablesDecided(e: Env, s: Store, c: Call, t: Store, t': Store, a: B256)
    requires AdminKeyMoves(e, s, c, t, a) && AdminKeyMoves(e, s, c, t', a)
    requires DomainMoves(e, s, c, t, a) && DomainMoves(e, s, c, t', a)
    ensures t.AdminKey(a) == t'.AdminKey(a) && t.Domain(a) == t'.Domain(a)
  {
  }

  lemma PathsDecided(e: Env, s: Store, c: Call, t: Store, t': Store, key: B256)
    requires PolicyAddressMoves(e, s, c, t, key) && PolicyAddressMoves(e, s, c, t', key)
    ensures t.PolicyAddress(key) == t'.PolicyAddress(key)
  {
    hide EntryKey;
  }

  lemma PressesDecided(e: Env, s: Store, c: Call, t: Store, t': Store, policy: B256, press: B256)
    requires PressMoves(e, s, c, t, policy, press) && PressMoves(e, s, c, t', policy, press)
    ensures t.Press(policy, press) == t'.Press(policy, press)
  {
    hide PressOpOf;
  }

  lemma SlotsDecided(e: Env, s: Store, l: Logic, c: Call, fx: Effects, fx': Effects)
    requires NoncesMove(e, s, c, fx.store) && NoncesMove(e, s, c, fx'.store)
    requires PendingMoves(e, s, c, fx.store) && PendingMoves(e, s, c, fx'.store)
    requires InstanceMoves(e, s, l, c, fx.logic) && InstanceMoves(e, s, l, c, fx'.logic)
    ensures fx.store.usedNonces == fx'.store.usedNonces && fx.store.pending == fx'.store.pending
    ensures fx.logic == fx'.logic
  {
    hide NonceIs;
    hide VoteOn;
    forall payload, n, n' | NonceIs(e.crypto, payload, n) && NonceIs(e.crypto, payload, n') ensures n == n' {
      NonceIsOne(e.crypto, payload, n, n');
    }
  }

  lemma EventsDecided(e: Env, s: Store, l: Logic, c: Call, events: seq<Event>, events': seq<Event>)
    requires Emits(e, s, l, c, events) && Emits(e, s, l, c, events')
    ensures events == events'
  {
    hide SetKeys;
    hide EntryKey;
  }

  lemma KeysetDecided(s: Store, c: Call, t: Store, t': Store, body: u8)
    requires KeysetMoves(s, c, t, body) && KeysetMoves(s, c, t', body)
    ensures t.KeysetOf(body) == t'.KeysetOf(body)
  {
  }

  lemma RegistryDecided(e: Env, s: Store, c: Call, t: Store, t': Store)
    requires RegistryMoves(e, s, c, t) && RegistryMoves(e, s, c, t') && CardInOrder(e, s, c)
    requires t.usedNonces == t'.usedNonces && t.pending == t'.pending
    ensures ReadsSame(t, t')
  {
    hide CardMoves;
    hide SubCardMoves;
    hide OfferMoves;
    hide PolicyKeyMoves;
    hide PressMoves;
    hide KeysetMoves;
    hide DomainMoves;
    hide PolicyAddressMoves;
    hide AdminKeyMoves;
    hide NoncesMove;
    hide PendingMoves;
    hide CardInOrder;
    forall a: B256
      ensures t.Card(a) == t'.Card(a) && t.SubCard(a) == t'.SubCard(a) && t.OfferCount(a) == t'.OfferCount(a)
      ensures Get(t.policyKeys, a, []) == Get(t'.policyKeys, a, []) && t.AdminKey(a) == t'.AdminKey(a)
      ensures t.Domain(a) == t'.Domain(a) && t.PolicyAddress(a) == t'.PolicyAddress(a)
    {
      CardsDecided(e, s, c, t, t', a);
      TablesDecided(e, s, c, t, t', a);
      DnsTablesDecided(e, s, c, t, t', a);
      PathsDecided(e, s, c, t, t', a);
    }
    forall policy: B256, press: B256 ensures t.Press(policy, press) == t'.Press(policy, press) {
      PressesDecided(e, s, c, t, t', policy, press);
    }
    forall body: u8 ensures t.KeysetOf(body) == t'.KeysetOf(body) {
      KeysetDecided(s, c, t, t', body);
    }
    assert SlotsMove(s, c, t) && SlotsMove(s, c, t');
  }

  /** The description leaves nothing open: effects that fit it cannot be told from those of the call. */
  lemma ChangesDecide(e: Env, s: Store, l: Logic, c: Call, fx: Effects, fx': Effects)
    requires Does(e, s, l, c, fx) && Changes(e, s, l, c, fx')
    ensures ReadsSame(fx.store, fx'.store) && fx.logic == fx'.logic && fx.events == fx'.events
  {
    hide Exec;
    hide Authorized;
    hide CardInOrder;
    hide GovernanceInOrder;
    hide DnsInOrder;
    hide Emits;
    hide InstanceMoves;
    hide NoncesMove;
    hide PendingMoves;
    hide ReadsSame;
    AcceptedExactly(e, s, l, c);
    AcceptedChanges(e, s, l, c, fx);
    SlotsDecided(e, s, l, c, fx, fx');
    EventsDecided(e, s, l, c, fx.events, fx'.events);
    RegistryDecided(e, s, c, fx.store, fx'.store);
  }
}
