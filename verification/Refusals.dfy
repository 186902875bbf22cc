/**
 * Why a call is refused: whichever revert reason a call ends with, what that reason says is so.
 */
module Refusals {
  import opened Wrappers
  import opened ProtocolTypes
  import opened PayloadParser
  import opened Storage
  import opened Quorum
  import opened Registry
  import opened Signatures
  import opened Permissions

  /** The field cannot be read: the extractor aborts on the payload. */
  predicate Unreadable(payload: Bytes, name: string) {
    Field(payload, Ascii(name)).Failure?
  }

  ghost predicate NoNumber(payload: Bytes, name: string) {
    forall n: nat :: !SaysNumber(payload, name, n)
  }

  // ---------------------------------------------------------------------------
  // The gates
  // ---------------------------------------------------------------------------

  /** What the press gate's reasons say. */
  ghost predicate PressReason(e: Env, s: Store, l: Logic, policy: B256, stamp: Stamp, op: string, err: Error) {
    var entry := s.Press(policy, stamp.press);
    match err
    case UnrecognizedPolicy => !Recognized(s, policy)
    case PressNotAuthorized => |entry.key| != 64
    case PressRevoked => !entry.active
    case InvalidPressSignature =>
      || !e.crypto.verify(l.verifier, e.crypto.keccak(stamp.payload), stamp.sig, entry.key)
      || !Says(stamp.payload, "op", Ascii(op))
    case InvalidPayload => NoNumber(stamp.payload, "sequence")
    case SequenceMismatch => !SaysNumber(stamp.payload, "sequence", entry.nextSequence)
    case Panic => Unreadable(stamp.payload, "op") || Unreadable(stamp.payload, "sequence")
    case _ => false
  }

  lemma PressRefused(e: Env, s: Store, l: Logic, policy: B256, stamp: Stamp, op: string)
    requires PressGate(e, s, l, policy, stamp, Ascii(op)).Failure?
    ensures PressReason(e, s, l, policy, stamp, op, PressGate(e, s, l, policy, stamp, Ascii(op)).error)
  {
    hide Field;
    hide U64Of;
    hide Ascii;
    FieldPanics(stamp.payload, "op");
    FieldPanics(stamp.payload, "sequence");
    forall n: nat
      ensures SaysNumber(stamp.payload, "sequence", n) <==> ExtractSequence(stamp.payload) == Success(Some(n))
    {
      NumberSaid(stamp.payload, "sequence", n);
    }
    hide SaysNumber;
  }

  /** The extractor fails in one way only. */
  lemma FieldPanics(payload: Bytes, name: string)
    ensures Field(payload, Ascii(name)).Failure? ==> Field(payload, Ascii(name)).error == Panic
  {
    ScanPanics(payload, Ascii(name), 0);
  }

  lemma {:induction false} ScanPanics(payload: Bytes, name: Bytes, i: nat)
    ensures FieldFrom(payload, name, i).Failure? ==> FieldFrom(payload, name, i).error == Panic
    decreases |payload| - i
  {
    if i + |name| + 3 < |payload| && !KeyAt(payload, name, i) {
      ScanPanics(payload, name, i + 1);
    }
  }

  ghost predicate CoSignReason(e: Env, s: Store, l: Logic, policy: B256, stamp: Stamp, err: Error) {
    var entry := s.Press(policy, stamp.press);
    match err
    case PressNotAuthorized => |entry.key| != 64
    case PressRevoked => !entry.active
    case InvalidPressSignature =>
      || |stamp.sig| != 64
      || !e.crypto.verify(l.verifier, e.crypto.keccak(stamp.payload), stamp.sig, entry.key)
      || !Says(stamp.payload, "op", Ascii("register_address_forward"))
    case Panic => Unreadable(stamp.payload, "op")
    case _ => false
  }

  lemma CoSignRefused(e: Env, s: Store, l: Logic, policy: B256, stamp: Stamp)
    requires CoSignature(e, s, l, policy, stamp).Failure?
    ensures CoSignReason(e, s, l, policy, stamp, CoSignature(e, s, l, policy, stamp).error)
  {
    hide Field;
    hide Ascii;
    FieldPanics(stamp.payload, "op");
  }

  ghost predicate RotationReason(e: Env, s: Store, l: Logic, policy: B256, stamp: Stamp, newKey: Bytes,
                                 mldsaSig: Bytes, err: Error)
  {
    var entry := s.Press(policy, stamp.press);
    match err
    case PressNotAuthorized => |entry.key| != 64
    case PressRevoked => !entry.active
    case KeySchemeAlreadyUpgraded => entry.keyScheme != 0
    case SchemeUpgradeNotAvailable => s.keySchemePhase == 0
    case InvalidPayload => NoNumber(stamp.payload, "deadline_block") || |newKey| != 1312 || |mldsaSig| != 2420
    case RotationPayloadExpired =>
      exists deadline: nat :: SaysNumber(stamp.payload, "deadline_block", deadline) && deadline < e.block
    case InvalidPressSignature =>
      !e.crypto.verify(l.verifier, e.crypto.keccak(stamp.payload), stamp.sig, entry.key)
    case MlDsa44KeyHashMismatch => e.crypto.keccak(newKey) != entry.mldsaHash
    case Panic => Unreadable(stamp.payload, "deadline_block")
    case _ => false
  }

  lemma RotationRefused(e: Env, s: Store, l: Logic, policy: B256, stamp: Stamp, newKey: Bytes, mldsaSig: Bytes)
    requires KeySchemeChecks(e, s, l, policy, stamp, newKey, mldsaSig).Failure?
    ensures RotationReason(e, s, l, policy, stamp, newKey, mldsaSig,
                           KeySchemeChecks(e, s, l, policy, stamp, newKey, mldsaSig).error)
  {
    hide Field;
    hide U64Of;
    hide Ascii;
    FieldPanics(stamp.payload, "deadline_block");
    forall n: nat
      ensures SaysNumber(stamp.payload, "deadline_block", n)
              <==> ExtractDeadlineBlock(stamp.payload) == Success(Some(n))
    {
      NumberSaid(stamp.payload, "deadline_block", n);
    }
    hide SaysNumber;
    var deadline := ExtractDeadlineBlock(stamp.payload);
    if deadline.Success? && deadline.value.Some? {
      assert SaysNumber(stamp.payload, "deadline_block", deadline.value.value);
    }
  }

  /** What the signature count's reasons say of the signatures. */
  ghost predicate CountReason(e: Env, l: Logic, k: Keyset, gov: Signed, err: Error) {
    match err
    case InvalidGovernanceSignature =>
      exists sig :: sig in gov.sigs && (|sig| != 64 || forall i: nat :: !SignedBy(e, l, k, gov.payload, sig, i))
    case DuplicateSigner =>
      exists m, n :: 0 <= m < n < |gov.sigs| && SameSigner(e, l, k, gov.payload, gov.sigs[m], gov.sigs[n])
    case InsufficientQuorum => |gov.sigs| < k.quorum
    case Panic => exists sig, i: nat :: sig in gov.sigs && 50 <= i && FirstSignedBy(e, l, k, gov.payload, sig, i)
    case _ => false
  }

  /** Where the count stops, and why. */
  ghost predicate StopsAt(b: Ballot, sigs: seq<Bytes>, used: set<nat>, n: nat, err: Error)
    requires n < |sigs|
  {
    match err
    case InvalidGovernanceSignature => |sigs[n]| != 64 || b.First(sigs[n]).None?
    case DuplicateSigner =>
      && b.First(sigs[n]).Some?
      && (b.First(sigs[n]).value in used || exists m :: 0 <= m < n && b.First(sigs[m]) == b.First(sigs[n]))
    case Panic => b.First(sigs[n]).Some? && b.First(sigs[n]).value >= 50
    case _ => false
  }

  lemma {:induction false} TallyStops(b: Ballot, sigs: seq<Bytes>, used: set<nat>) returns (n: nat)
    requires b.Tally(sigs, used).Failure?
    ensures n < |sigs| && StopsAt(b, sigs, used, n, b.Tally(sigs, used).error)
    decreases |sigs|
  {
    var first := b.First(sigs[0]);
    if |sigs[0]| != 64 || first.None? || first.value >= 50 || first.value in used {
      n := 0;
    } else {
      var k := TallyStops(b, sigs[1..], used + {first.value});
      n := k + 1;
      assert sigs[1..][k] == sigs[n];
      if m :| 0 <= m < k && b.First(sigs[1..][m]) == b.First(sigs[1..][k]) {
        assert b.First(sigs[m + 1]) == b.First(sigs[n]);
      } else {
        assert b.First(sigs[0]) == Some(first.value);
      }
    }
  }

  lemma CountRefused(e: Env, s: Store, l: Logic, body: u8, gov: Signed)
    requires BallotOf(e, s, l, body, gov.payload).Signers(gov.sigs).Failure?
    ensures CountReason(e, l, s.KeysetOf(body), gov, BallotOf(e, s, l, body, gov.payload).Signers(gov.sigs).error)
  {
    hide BallotOf;
    hide SignedBy;
    hide FirstSignedBy;
    hide SameSigner;
    var b, k := BallotOf(e, s, l, body, gov.payload), s.KeysetOf(body);
    if b.Tally(gov.sigs, {}).Success? {
      TallyAccepts(b, gov.sigs, {});
      QuorumIs(e, s, l, body, gov.payload);
    } else {
      var n := TallyStops(b, gov.sigs, {});
      var sig := gov.sigs[n];
      FirstSays(e, s, l, body, gov.payload, sig);
      if m :| 0 <= m < n && b.First(gov.sigs[m]) == b.First(sig) && b.First(sig).Some? {
        SameSignerExactly(e, s, l, body, gov.payload, gov.sigs[m], sig);
      }
    }
  }

  lemma QuorumIs(e: Env, s: Store, l: Logic, body: u8, payload: Bytes)
    ensures BallotOf(e, s, l, body, payload).keyset == s.KeysetOf(body)
  {
  }

  lemma FirstSays(e: Env, s: Store, l: Logic, body: u8, payload: Bytes, sig: Bytes)
    ensures var first := BallotOf(e, s, l, body, payload).First(sig);
            match first
            case Some(i) => FirstSignedBy(e, l, s.KeysetOf(body), payload, sig, i)
            case None => forall i: nat :: !SignedBy(e, l, s.KeysetOf(body), payload, sig, i)
  {
    var b := BallotOf(e, s, l, body, payload);
    var first := b.First(sig);
    if first.Some? {
      FirstExactly(e, s, l, body, payload, sig, first.value);
    }
    hide FirstSignedBy;
    forall i: nat ensures SignedBy(e, l, s.KeysetOf(body), payload, sig, i) <==> b.HasKey(i) && b.Signs(sig, i) {
      SignsExactly(e, s, l, body, payload, sig, i);
    }
    hide SignedBy;
  }

  ghost predicate VoteReason(e: Env, s: Store, l: Logic, body: u8, gov: Signed, err: Error) {
    match err
    case InvalidPayload =>
      NoNumber(gov.payload, "governance_version") || forall raw :: !Says(gov.payload, "nonce", raw)
    case GovernanceVersionMismatch =>
      exists v: nat :: SaysNumber(gov.payload, "governance_version", v)
                       && v % 0x1_0000_0000 != s.KeysetOf(body).version
    case NonceReused => exists raw :: Says(gov.payload, "nonce", raw) && e.crypto.keccak(raw) in s.usedNonces
    case Panic =>
      || Unreadable(gov.payload, "governance_version") || Unreadable(gov.payload, "nonce")
      || CountReason(e, l, s.KeysetOf(body), gov, Panic)
    case _ => CountReason(e, l, s.KeysetOf(body), gov, err)
  }

  /** The parts of the vote's check that read the payload. */
  lemma PayloadReads(payload: Bytes)
    ensures var version := ExtractGovernanceVersion(payload);
            match version
            case Failure(err) => err == Panic && Unreadable(payload, "governance_version")
            case Success(None) => NoNumber(payload, "governance_version")
            case Success(Some(v)) =>
              exists n: nat :: SaysNumber(payload, "governance_version", n) && v == n % 0x1_0000_0000
    ensures match ExtractNonceBytes(payload)
            case Failure(err) => err == Panic && Unreadable(payload, "nonce")
            case Success(None) => forall raw :: !Says(payload, "nonce", raw)
            case Success(Some(raw)) => Says(payload, "nonce", raw)
  {
    hide Field;
    hide U64Of;
    hide Ascii;
    FieldPanics(payload, "governance_version");
    FieldPanics(payload, "nonce");
    var number := Number(payload, FIELD_GOVERNANCE_VERSION);
    forall n: nat ensures SaysNumber(payload, "governance_version", n) <==> number == Success(Some(n)) {
      NumberSaid(payload, "governance_version", n);
    }
    hide SaysNumber;
    if number.Success? && number.value.Some? {
      assert SaysNumber(payload, "governance_version", number.value.value);
    }
  }

  lemma CountIsVoteReason(e: Env, s: Store, l: Logic, body: u8, gov: Signed, err: Error)
    requires err in {InvalidGovernanceSignature, DuplicateSigner, InsufficientQuorum, Panic}
    requires CountReason(e, l, s.KeysetOf(body), gov, err)
    ensures VoteReason(e, s, l, body, gov, err)
  {
    hide CountReason;
  }

  /** The reasons that the payload alone gives. */
  ghost predicate PayloadReason(e: Env, s: Store, body: u8, payload: Bytes, err: Error) {
    || (err == Panic && (Unreadable(payload, "governance_version") || Unreadable(payload, "nonce")))
    || (err == InvalidPayload
        && (NoNumber(payload, "governance_version") || forall raw :: !Says(payload, "nonce", raw)))
    || (err == GovernanceVersionMismatch
        && exists v: nat :: SaysNumber(payload, "governance_version", v)
                            && v % 0x1_0000_0000 != s.KeysetOf(body).version)
    || (err == NonceReused && exists raw :: Says(payload, "nonce", raw) && e.crypto.keccak(raw) in s.usedNonces)
  }

  lemma PayloadIsVoteReason(e: Env, s: Store, l: Logic, body: u8, gov: Signed, err: Error)
    requires PayloadReason(e, s, body, gov.payload, err)
    ensures VoteReason(e, s, l, body, gov, err)
  {
    hide CountReason;
    hide Says;
    hide SaysNumber;
    hide NoNumber;
    hide Unreadable;
  }

  lemma VoteRefused(e: Env, s: Store, l: Logic, body: u8, gov: Signed)
    requires QuorumGate(e, s, l, body, gov).Failure?
    ensures VoteReason(e, s, l, body, gov, QuorumGate(e, s, l, body, gov).error)
  {
    hide ExtractGovernanceVersion;
    hide ExtractNonceBytes;
    hide Says;
    hide SaysNumber;
    hide NoNumber;
    hide Unreadable;
    hide CountReason;
    hide BallotOf;
    hide VoteReason;
    PayloadReads(gov.payload);
    var err := QuorumGate(e, s, l, body, gov).error;
    if PayloadReason(e, s, body, gov.payload, err) {
      PayloadIsVoteReason(e, s, l, body, gov, err);
    } else {
      CountRefused(e, s, l, body, gov);
      CountErrors(e, s, l, body, gov);
      CountIsVoteReason(e, s, l, body, gov, err);
    }
  }

  /** The count has reasons of its own. */
  lemma CountErrors(e: Env, s: Store, l: Logic, body: u8, gov: Signed)
    requires BallotOf(e, s, l, body, gov.payload).Signers(gov.sigs).Failure?
    ensures BallotOf(e, s, l, body, gov.payload).Signers(gov.sigs).error
            in {InvalidGovernanceSignature, DuplicateSigner, InsufficientQuorum, Panic}
  {
    hide BallotOf;
    var b := BallotOf(e, s, l, body, gov.payload);
    if b.Tally(gov.sigs, {}).Failure? {
      var n := TallyStops(b, gov.sigs, {});
    }
  }

  // ---------------------------------------------------------------------------
  // The checks
  // ---------------------------------------------------------------------------

  /** A card that the call needs is not there. */
  predicate CardMissing(s: Store, c: Call) {
    match c
    case UpdateHead(card, _, _, _) => !s.Card(card).exists_
    case RegisterAddressForward(old_, new_, _) => !s.Card(old_).exists_ || !s.Card(new_).exists_
    case BatchUpdateCardHeads(_, cards, _, _, _) => exists card :: card in cards && !s.Card(card).exists_
    case RegisterSubCard(_, master, _, _, _, _, _) => !s.Card(master).exists_
    case DeregisterSubCard(sub, _) => !s.Card(s.SubCard(sub).master).exists_
    case RegisterDomain(_, admin, _, _) => !s.Card(admin).exists_
    case RemovePath(_, _, card, _, _) => card != 0 && !s.Card(card).exists_
    case _ => false
  }

  /** A CID of the call, which is for a log or a document, is too long. */
  predicate CidOver(c: Call) {
    match c
    case RegisterCard(_, cid, _, _) => |cid| > 64
    case UpdateHead(_, newCid, _, _) => |newCid| > 64
    case ClaimOpenOffer(_, _, _, _, cid, _, _) => |cid| > 64
    case BatchUpdateCardHeads(_, _, _, newCids, _) => exists cid :: cid in newCids && |cid| > 64
    case RegisterSubCard(_, _, head, docCid, _, _, _) => |head| > 64 || |docCid| > 64
    case _ => false
  }

  ghost predicate CardReason(e: Env, s: Store, l: Logic, c: Call, err: Error) {
    match err
    case CardAlreadyExists => (c.RegisterCard? || c.ClaimOpenOffer?) && s.Card(c.card).exists_
    case CardNotFound => CardMissing(s, c)
    case LogCidTooLong => CidOver(c)
    case OfferExpired => c.ClaimOpenOffer? && 0 != c.expiresAt <= e.now
    case OfferAtCapacity =>
      c.ClaimOpenOffer? && c.maxAcceptances != 0xffff_ffff_ffff_ffff && s.OfferCount(c.offer) >= c.maxAcceptances
    case ForwardAlreadySet => c.RegisterAddressForward? && s.Card(c.old_).forwardTo != 0
    case BatchSizeInvalid =>
      && c.BatchUpdateCardHeads?
      && (|c.cards| == 0 || |c.cards| > 100 || |c.prevCids| != |c.cards| || |c.newCids| != |c.cards|)
    case BatchItemInvalid =>
      && c.BatchUpdateCardHeads?
      && ((exists i, j :: 0 <= i < j < |c.cards| && c.cards[i] == c.cards[j])
          || exists card :: card in c.cards && s.Card(card).policy != c.policy)
    case StalePrevCid =>
      || (c.UpdateHead? && s.Card(c.card).logHead != c.prevCid)
      || (c.BatchUpdateCardHeads?
          && exists k :: 0 <= k < |c.cards| && k < |c.prevCids| && s.Card(c.cards[k]).logHead != c.prevCids[k])
    case SubCardAlreadyActive => c.RegisterSubCard? && s.SubCard(c.sub).active
    case StaleRegistrationLogHead => c.RegisterSubCard? && s.Card(c.master).logHead != c.head
    case InvalidAdminCardSignature => c.RegisterSubCard? && !AdminAllows(e, s, l, c.master, c.adminPayload, c.adminSig)
    case SubCardNotFound => c.DeregisterSubCard? && (s.SubCard(c.sub).master == 0 || !s.SubCard(c.sub).active)
    case DeregisteredAtImmutable =>
      (c.RegisterSubCard? || (c.DeregisterSubCard? && e.now == 0)) && s.SubCard(c.sub).deregisteredAt != 0
    case CidTooLong =>
      c.DeregisterSubCard? && (|s.SubCard(c.sub).registrationLogHead| > 64 || |s.SubCard(c.sub).docCid| > 64)
    case Panic =>
      && c.RegisterSubCard?
      && (Unreadable(c.adminPayload, "sub_card_address") || Unreadable(c.adminPayload, "sub_card_doc_cid"))
    case _ => false
  }

  lemma NewCardRefused(e: Env, s: Store, l: Logic, c: Call)
    requires CardPreCheck(e, s, l, c).Failure? && (c.RegisterCard? || c.ClaimOpenOffer?)
    ensures CardReason(e, s, l, c, CardPreCheck(e, s, l, c).error)
  {
  }

  lemma UpdateRefused(e: Env, s: Store, l: Logic, c: Call)
    requires CardPreCheck(e, s, l, c).Failure?
    requires c.UpdateHead? || c.RegisterAddressForward? || c.BatchUpdateCardHeads?
    ensures CardReason(e, s, l, c, CardPreCheck(e, s, l, c).error)
  {
  }

  lemma SubCardRefused(e: Env, s: Store, l: Logic, c: Call)
    requires CardPreCheck(e, s, l, c).Failure? && c.RegisterSubCard?
    ensures CardReason(e, s, l, c, CardPreCheck(e, s, l, c).error)
  {
    hide Field;
    hide Ascii;
    hide AdminSignature;
    hide AdminAllows;
    if AdminSignature(e, s, l, c.master, c.adminPayload, c.adminSig).Failure? {
      AdminSignatureExactly(e, s, l, c.master, c.adminPayload, c.adminSig);
      AdminErrors(e, s, l, c.master, c.adminPayload, c.adminSig);
    }
  }

  lemma OtherCardRefused(e: Env, s: Store, l: Logic, c: Call)
    requires CardPreCheck(e, s, l, c).Failure? && !c.RegisterCard? && !c.ClaimOpenOffer? && !c.RegisterSubCard?
    requires !c.UpdateHead? && !c.RegisterAddressForward? && !c.BatchUpdateCardHeads?
    ensures CardReason(e, s, l, c, CardPreCheck(e, s, l, c).error)
  {
    hide Field;
    hide AdminSignature;
  }

  lemma CardPreRefused(e: Env, s: Store, l: Logic, c: Call)
    requires CardPreCheck(e, s, l, c).Failure?
    ensures CardReason(e, s, l, c, CardPreCheck(e, s, l, c).error)
  {
    hide *;
    if c.RegisterCard? || c.ClaimOpenOffer? {
      NewCardRefused(e, s, l, c);
    } else if c.UpdateHead? || c.RegisterAddressForward? || c.BatchUpdateCardHeads? {
      UpdateRefused(e, s, l, c);
    } else if c.RegisterSubCard? {
      SubCardRefused(e, s, l, c);
    } else {
      OtherCardRefused(e, s, l, c);
    }
  }

  lemma AdminErrors(e: Env, s: Store, l: Logic, master: B256, payload: Bytes, sig: Bytes)
    requires AdminSignature(e, s, l, master, payload, sig).Failure?
    ensures match AdminSignature(e, s, l, master, payload, sig).error
            case InvalidAdminCardSignature => true
            case Panic => Unreadable(payload, "sub_card_address") || Unreadable(payload, "sub_card_doc_cid")
            case _ => false
  {
    hide Field;
    hide Ascii;
    FieldPanics(payload, "sub_card_address");
    FieldPanics(payload, "sub_card_doc_cid");
  }

  lemma CardPostRefused(e: Env, s: Store, gated: Store, l: Logic, c: Call)
    requires OnCards(c) && PostCheck(e, gated, c).Failure? && CardPreCheck(e, s, l, c).Success?
    requires gated == s.(presses := gated.presses, usedNonces := gated.usedNonces)
    ensures CardReason(e, s, l, c, PostCheck(e, gated, c).error)
  {
    hide Field;
    hide Ascii;
    hide AdminSignature;
    hide AdminAllows;
    hide BatchItems;
    if c.BatchUpdateCardHeads? {
      var k := BatchStops(gated, c.policy, c.cards, c.prevCids, c.newCids, 0);
      assert c.cards[k] in c.cards && c.newCids[k] in c.newCids;
    }
  }

  /** The item at which the batch stops, and why. */
  lemma {:induction false} BatchStops(s: Store, policy: B256, cards: seq<B256>, prevCids: seq<Bytes>,
                                      newCids: seq<Bytes>, i: nat) returns (k: nat)
    requires i <= |cards| == |prevCids| == |newCids|
    requires BatchItems(s, policy, cards, prevCids, newCids, i).Failure?
    ensures i <= k < |cards|
    ensures match BatchItems(s, policy, cards, prevCids, newCids, i).error
            case BatchItemInvalid =>
              s.Card(cards[k]).policy != policy || exists j :: k < j < |cards| && cards[k] == cards[j]
            case LogCidTooLong => |newCids[k]| > 64
            case CardNotFound => !s.Card(cards[k]).exists_
            case StalePrevCid => s.Card(cards[k]).logHead != prevCids[k]
            case _ => false
    decreases |cards| - i
  {
    k := i;
    if cards[i] in cards[i + 1..] {
      var j :| i + 1 <= j < |cards| && cards[j] == cards[i];
    } else if && |newCids[i]| <= MAX_CID_LEN && s.Card(cards[i]).exists_ && s.Card(cards[i]).policy == policy
              && s.Card(cards[i]).logHead == prevCids[i]
    {
      k := BatchStops(s, policy, cards, prevCids, newCids, i + 1);
    }
  }

  /** The pending upgrade that the call is about. */
  function PendingFor(s: Store, l: Logic, c: Call): Pending {
    if c.ProposeVerifierUpgrade? || c.ConfirmVerifierUpgrade? || c.CancelVerifierUpgrade? then l.pendingVerifier
    else s.pending
  }

  predicate Proposes(c: Call) {
    c.ProposeLogicUpgrade? || c.ProposeVerifierUpgrade?
  }

  predicate Confirms(c: Call) {
    c.ConfirmLogicUpgrade? || c.ConfirmVerifierUpgrade?
  }

  predicate Cancels(c: Call) {
    c.CancelLogicUpgrade? || c.CancelVerifierUpgrade?
  }

  /** An argument of the governance call is unfit. */
  predicate Unfit(s: Store, l: Logic, c: Call) {
    match c
    case RegisterPolicy(_, key, _) => |key| != 64
    case AuthorizePress(_, _, key, _, _) => |key| != 64
    case RotateAuthorizerKey(_, key, _) => |key| != 64
    case RotateGovernanceKeys(_, keysFlat, keyCount, _, _) => |keysFlat| != 64 * keyCount
    case SetProtocolVersion(newVersion, _) => newVersion == ""
    case ProposeLogicUpgrade(address, _) => address == 0 || address == s.logic
    case ProposeVerifierUpgrade(address, _) => address == 0 || address == l.verifier
    case _ => false
  }

  ghost predicate GovernanceReason(e: Env, s: Store, l: Logic, c: Call, err: Error) {
    var p := PendingFor(s, l, c);
    match err
    case PolicyAlreadyRegistered => c.RegisterPolicy? && Recognized(s, c.policy)
    case UnrecognizedPolicy =>
      (c.DeregisterPolicy? || c.AuthorizePress? || c.RotateAuthorizerKey?) && !Recognized(s, c.policy)
    case InvalidPayload => Unfit(s, l, c)
    case PressNotAuthorized => c.RevokePress? && |s.Press(c.policy, c.press).key| != 64
    case PressRevoked => c.RevokePress? && !s.Press(c.policy, c.press).active
    case KeysetTooSmall => c.RotateGovernanceKeys? && c.keyCount < 3
    case QuorumTooLow => c.RotateGovernanceKeys? && 2 * c.quorum <= c.keyCount
    case PolicyDeleteDisabled => c.DeregisterPolicy? && s.deleteDisabled
    case PolicyDeleteAlreadyDisabled => c.DisablePolicyDelete? && s.deleteDisabled
    case UpgradeAlreadyPending => Proposes(c) && p.address != 0
    case NoUpgradePending => (Confirms(c) || Cancels(c)) && p.address == 0
    case UpgradeAddressMismatch => Confirms(c) && c.address != p.address
    case UpgradeTimelockNotElapsed =>
      && Confirms(c)
      && e.now < (p.proposedAt + (if c.ConfirmLogicUpgrade? then 604800 else 172800)) % 0x1_0000_0000_0000_0000
    case GovernanceVersionMismatch => Confirms(c) && s.KeysetOf(0).version != p.governanceVersion
    case _ => false
  }

  lemma ProposalRefused(e: Env, s: Store, l: Logic, c: Call)
    requires GovernancePreCheck(e, s, l, c).Failure? && Proposes(c)
    ensures GovernanceReason(e, s, l, c, GovernancePreCheck(e, s, l, c).error)
  {
  }

  lemma CancelRefused(e: Env, s: Store, l: Logic, c: Call)
    requires GovernancePreCheck(e, s, l, c).Failure? && Cancels(c)
    ensures GovernanceReason(e, s, l, c, GovernancePreCheck(e, s, l, c).error)
  {
  }

  lemma ConfirmRefused(e: Env, s: Store, l: Logic, c: Call)
    requires GovernancePreCheck(e, s, l, c).Failure? && Confirms(c)
    ensures GovernanceReason(e, s, l, c, GovernancePreCheck(e, s, l, c).error)
  {
  }

  lemma PolicyRefused(e: Env, s: Store, l: Logic, c: Call)
    requires GovernancePreCheck(e, s, l, c).Failure? && !Proposes(c) && !Confirms(c) && !Cancels(c)
    ensures GovernanceReason(e, s, l, c, GovernancePreCheck(e, s, l, c).error)
  {
  }

  lemma GovernanceRefused(e: Env, s: Store, l: Logic, c: Call)
    requires GovernancePreCheck(e, s, l, c).Failure?
    ensures GovernanceReason(e, s, l, c, GovernancePreCheck(e, s, l, c).error)
  {
    hide *;
    if Proposes(c) {
      ProposalRefused(e, s, l, c);
    } else if Confirms(c) {
      ConfirmRefused(e, s, l, c);
    } else if Cancels(c) {
      CancelRefused(e, s, l, c);
    } else {
      PolicyRefused(e, s, l, c);
    }
  }

  /** A parameter of the domain call is out of range. */
  predicate OutOfRange(e: Env, s: Store, c: Call) {
    match c
    case RegisterDomain(domain, _, key, _) => domain == [] || |domain| > 255 || |key| != 64
    case DeregisterDomain(domain, _) => domain == [] || |domain| > 255
    case SetPath(domain, path, _, _, _, _) => domain == [] || |domain| > 255 || |path| > 512
    case RemovePath(domain, _, _, _, _) => domain == [] || |domain| > 255
    case ClearDomainEntries(domain, _, _) => domain == [] || |domain| > 255
    case FlagDomainFraudRisk(domain, risk, expires, _) =>
      domain == [] || |domain| > 255 || risk > 2 || (if risk == 2 then expires <= e.now else expires != 0)
    case GovernanceSetPath(domain, _, _, _) => domain == [] || |domain| > 255
    case SetDnsPolicy(newPolicy, _) => newPolicy == 0 || newPolicy == s.dnsPolicy
    case _ => false
  }

  /** The domain that the call is about. */
  function DomainOf(c: Call): Bytes {
    match c
    case RegisterDomain(domain, _, _, _) => domain
    case DeregisterDomain(domain, _) => domain
    case SetPath(domain, _, _, _, _, _) => domain
    case RemovePath(domain, _, _, _, _) => domain
    case ClearDomainEntries(domain, _, _) => domain
    case FlagDomainFraudRisk(domain, _, _, _) => domain
    case GovernanceSetPath(domain, _, _, _) => domain
    case _ => []
  }

  ghost predicate DnsReason(e: Env, s: Store, c: Call, err: Error) {
    var d := s.Domain(e.crypto.keccak(DomainOf(c)));
    match err
    case InvalidDnsParameter => OutOfRange(e, s, c)
    case CardNotDnsGovernancePolicy =>
      || ((c.RegisterDomain? || c.SetPath? || c.RemovePath?) && s.dnsPolicy == 0)
      || (c.RegisterDomain? && s.Card(c.admin).policy != s.dnsPolicy)
      || (c.RemovePath? && s.Card(c.card).policy != s.dnsPolicy)
    case CardNotFound => CardMissing(s, c)
    case DomainAlreadyRegistered => c.RegisterDomain? && d.exists_ && d.admin != 0
    case DomainNotFound => OnDomains(c) && !d.exists_
    case DomainSuspended => c.SetPath? && Suspended(e, d)
    case AdminCardMismatch => c.SetPath? && c.admin != d.admin
    case SubCardNotDomainAdminSubcard =>
      c.SetPath? && c.sub != 0 && !(s.SubCard(c.sub).active && s.SubCard(c.sub).master == c.admin)
    case PolicyCardNotFound => (c.SetPath? || c.GovernanceSetPath?) && !s.Card(c.policyCard).exists_
    case DomainPathEntryNotFound =>
      c.RemovePath? && s.PolicyAddress(e.crypto.keccak(c.domain + [0] + c.path)) == 0
    case BatchSizeInvalid => c.ClearDomainEntries? && (|c.paths| == 0 || |c.paths| > 500)
    case UnrecognizedPolicy => c.SetDnsPolicy? && !Recognized(s, c.newPolicy)
    case _ => false
  }

  lemma RegisterDomainRefused(e: Env, s: Store, c: Call)
    requires DnsPreCheck(e, s, c).Failure? && c.RegisterDomain?
    ensures DnsReason(e, s, c, DnsPreCheck(e, s, c).error)
  {
  }

  lemma DnsPolicyRefused(e: Env, s: Store, c: Call)
    requires DnsPreCheck(e, s, c).Failure? && (c.DeregisterDomain? || c.SetDnsPolicy?)
    ensures DnsReason(e, s, c, DnsPreCheck(e, s, c).error)
  {
  }

  lemma SetPathRefused(e: Env, s: Store, c: Call)
    requires DnsPreCheck(e, s, c).Failure? && c.SetPath?
    ensures DnsReason(e, s, c, DnsPreCheck(e, s, c).error)
  {
  }

  lemma RemovePathRefused(e: Env, s: Store, c: Call)
    requires DnsPreCheck(e, s, c).Failure? && c.RemovePath?
    ensures DnsReason(e, s, c, DnsPreCheck(e, s, c).error)
  {
  }

  lemma GovernancePathRefused(e: Env, s: Store, c: Call)
    requires DnsPreCheck(e, s, c).Failure? && c.GovernanceSetPath?
    ensures DnsReason(e, s, c, DnsPreCheck(e, s, c).error)
  {
  }

  lemma ClearRefused(e: Env, s: Store, c: Call)
    requires DnsPreCheck(e, s, c).Failure? && c.ClearDomainEntries?
    ensures DnsReason(e, s, c, DnsPreCheck(e, s, c).error)
  {
  }

  lemma FlagRefused(e: Env, s: Store, c: Call)
    requires DnsPreCheck(e, s, c).Failure? && c.FlagDomainFraudRisk?
    ensures DnsReason(e, s, c, DnsPreCheck(e, s, c).error)
  {
  }

  lemma OtherwiseDnsPasses(e: Env, s: Store, c: Call)
    requires !OnDomains(c)
    ensures DnsPreCheck(e, s, c).Success?
  {
  }

  lemma DnsRefused(e: Env, s: Store, c: Call)
    requires DnsPreCheck(e, s, c).Failure?
    ensures DnsReason(e, s, c, DnsPreCheck(e, s, c).error)
  {
    hide DnsReason;
    hide DnsPreCheck;
    if !OnDomains(c) {
      OtherwiseDnsPasses(e, s, c);
    }
    if c.RegisterDomain? {
      RegisterDomainRefused(e, s, c);
    } else if c.DeregisterDomain? || c.SetDnsPolicy? {
      DnsPolicyRefused(e, s, c);
    } else if c.SetPath? {
      SetPathRefused(e, s, c);
    } else if c.RemovePath? {
      RemovePathRefused(e, s, c);
    } else if c.GovernanceSetPath? {
      GovernancePathRefused(e, s, c);
    } else if c.ClearDomainEntries? {
      ClearRefused(e, s, c);
    } else if c.FlagDomainFraudRisk? {
      FlagRefused(e, s, c);
    }
  }

  // ---------------------------------------------------------------------------
  // Whole calls
  // ---------------------------------------------------------------------------

  ghost predicate GateReason(e: Env, s: Store, l: Logic, c: Call, err: Error) {
    match c
    case RegisterAddressForward(old_, _, stamp) => CoSignReason(e, s, l, s.Card(old_).policy, stamp, err)
    case RotateOnChainKeyScheme(policy, stamp, newKey, mldsaSig) =>
      RotationReason(e, s, l, policy, stamp, newKey, mldsaSig, err)
    case _ =>
      match VoteOn(c)
      case Some(Vote(body, gov)) => VoteReason(e, s, l, body, gov, err)
      case None =>
        match PressOpOf(s, c)
        case Some(PressOp(policy, stamp, op)) => PressReason(e, s, l, policy, stamp, op, err)
        case None => false
  }

  /** The revert reason is true: of the caller, of the signatures, or of what the call asks for. */
  ghost predicate Reason(e: Env, s: Store, l: Logic, c: Call, err: Error) {
    || (err == CallerNotLogicContract && e.self != s.logic)
    || GateReason(e, s, l, c, err)
    || CardReason(e, s, l, c, err)
    || GovernanceReason(e, s, l, c, err)
    || DnsReason(e, s, c, err)
  }

  lemma GateIs(s: Store, c: Call)
    ensures match GateOf(s, c)
            case Press(policy, stamp, op, _) =>
              && VoteOn(c).None? && !c.RegisterAddressForward? && !c.RotateOnChainKeyScheme?
              && PressOpOf(s, c).Some? && PressOpOf(s, c).value.policy == policy && PressOpOf(s, c).value.stamp == stamp
              && op == Ascii(PressOpOf(s, c).value.op)
            case Governed(body, gov) =>
              VoteOn(c) == Some(Vote(body, gov)) && !c.RegisterAddressForward? && !c.RotateOnChainKeyScheme?
            case CoSigned(policy, stamp) =>
              c.RegisterAddressForward? && c.stamp == stamp && policy == s.Card(c.old_).policy
            case KeyScheme(policy, stamp, newKey, mldsaSig) =>
              c == RotateOnChainKeyScheme(policy, stamp, newKey, mldsaSig)
  {
    hide Ascii;
  }

  lemma GateRefused(e: Env, s: Store, l: Logic, c: Call)
    requires Authorize(e, s, l, GateOf(s, c)).Failure?
    ensures var err := Authorize(e, s, l, GateOf(s, c)).error;
            GateReason(e, s, l, c, err) || (err == CallerNotLogicContract && e.self != s.logic)
  {
    hide GateOf;
    hide PressGate;
    hide QuorumGate;
    hide CoSignature;
    hide KeySchemeChecks;
    hide VoteOn;
    hide PressOpOf;
    hide PressReason;
    hide VoteReason;
    hide CoSignReason;
    hide RotationReason;
    hide Bump;
    hide Ascii;
    GateIs(s, c);
    match GateOf(s, c) {
      case Press(policy, stamp, op, _) =>
        if PressGate(e, s, l, policy, stamp, op).Failure? {
          PressRefused(e, s, l, policy, stamp, PressOpOf(s, c).value.op);
        }
      case Governed(body, gov) =>
        if QuorumGate(e, s, l, body, gov).Failure? {
          VoteRefused(e, s, l, body, gov);
        }
      case CoSigned(policy, stamp) => CoSignRefused(e, s, l, policy, stamp);
      case KeyScheme(policy, stamp, newKey, mldsaSig) => RotationRefused(e, s, l, policy, stamp, newKey, mldsaSig);
    }
  }

  lemma OtherPostRefused(e: Env, s: Store, gated: Store, l: Logic, c: Call)
    requires !OnCards(c) && PostCheck(e, gated, c).Failure?
    requires gated == s.(presses := gated.presses, usedNonces := gated.usedNonces)
    ensures var err := PostCheck(e, gated, c).error; GovernanceReason(e, s, l, c, err) || DnsReason(e, s, c, err)
  {
    assert c.DeregisterPolicy? || c.SetPath?;
  }

  /** Every refusal is true: the reason that a refused call gives is a fact about it. */
  lemma RefusedForReason(e: Env, s: Store, l: Logic, c: Call)
    requires Exec(e, s, l, c).Failure?
    ensures Reason(e, s, l, c, Exec(e, s, l, c).error)
  {
    hide CardPreCheck;
    hide GovernancePreCheck;
    hide DnsPreCheck;
    hide PostCheck;
    hide Authorize;
    hide GateOf;
    hide GateReason;
    hide CardReason;
    hide GovernanceReason;
    hide DnsReason;
    hide OnCards;
    hide StoreAfter;
    hide LogicAfter;
    hide EventsOf;
    if CardPreCheck(e, s, l, c).Failure? {
      CardPreRefused(e, s, l, c);
    } else if GovernancePreCheck(e, s, l, c).Failure? {
      GovernanceRefused(e, s, l, c);
    } else if DnsPreCheck(e, s, c).Failure? {
      DnsRefused(e, s, c);
    } else if Authorize(e, s, l, GateOf(s, c)).Failure? {
      GateRefused(e, s, l, c);
    } else {
      var gated := Authorize(e, s, l, GateOf(s, c)).value;
      GateFrame(e, s, l, GateOf(s, c));
      if PostCheck(e, gated, c).Failure? {
        if OnCards(c) {
          CardPostRefused(e, s, gated, l, c);
        } else {
          OtherPostRefused(e, s, gated, l, c);
        }
      }
    }
  }
}
