/**
 * A logic-contract instance running its write operations step by step against the storage
 * contract (contracts/logic-contract/src). Each operation is proved to do exactly what
 * Registry.Exec says, with the same revert reason, and `Transact` adds the chain's rollback.
 */
module LogicContracts {
  import opened Wrappers
  import opened ProtocolTypes
  import opened PayloadParser
  import opened Storage
  import opened Quorum
  import opened Registry

  /**
   * An operation that found store `s`, instance state `l` and event log `log` ended as Exec says.
   * What a reverting operation leaves behind is not constrained: the chain discards it.
   */
  predicate Ran(e: Env, s: Store, l: Logic, log: seq<Event>, c: Call,
                s': Store, l': Logic, log': seq<Event>, r: Outcome<Error>)
  {
    match r
    case Done =>
      && Exec(e, s, l, c).Success?
      && s' == Exec(e, s, l, c).value.store
      && l' == Exec(e, s, l, c).value.logic
      && log' == log + Exec(e, s, l, c).value.events
    case Revert(err) => Exec(e, s, l, c) == Failure(err)
  }

  predicate IsCardsCall(c: Call) {
    c.RegisterCard? || c.UpdateHead? || c.ClaimOpenOffer? ||
    c.RegisterAddressForward? || c.BatchUpdateCardHeads? || c.RegisterSubCard? ||
    c.DeregisterSubCard? || c.RotateOnChainKeyScheme?
  }

  predicate IsDnsCall(c: Call) {
    c.RegisterDomain? || c.DeregisterDomain? || c.SetPath? ||
    c.RemovePath? || c.ClearDomainEntries? || c.FlagDomainFraudRisk? ||
    c.GovernanceSetPath? || c.SetDnsPolicy?
  }

  predicate IsGovernanceCall(c: Call) {
    !IsCardsCall(c) && !IsDnsCall(c)
  }

  class LogicContract {
    const address: Address
    const storage: StorageContract
    var verifierModule: Address
    var pendingVerifier: Pending
    var protocolVersion: string
    var log: seq<Event>

    /** The instance's own slots as one value. */
    function Own(): Logic
      reads this
    {
      Logic(verifierModule, pendingVerifier, protocolVersion)
    }

    constructor (address: Address, storage: StorageContract, verifier: Address)
      ensures this.address == address && this.storage == storage
      ensures Own() == Logic(verifier, NO_PENDING, "") && log == []
    {
      this.address := address;
      this.storage := storage;
      verifierModule := verifier;
      pendingVerifier := NO_PENDING;
      protocolVersion := "";
      log := [];
    }

    // -------------------------------------------------------------------------
    // The gates (write_gate.rs)
    // -------------------------------------------------------------------------

    /** The checks of the press write gate, without the bump. */
    method ValidateWriteGateOnly(e: Env, policy: B256, stamp: Stamp, expectedOp: Bytes) returns (r: Result<nat, Error>)
      ensures r == PressGate(e, storage.Slots(), Own(), policy, stamp, expectedOp)
    {
      var policyExists := storage.Slots().PolicyExists(policy);
      if !policyExists {
        return Failure(UnrecognizedPolicy);
      }
      var entry := storage.Slots().Press(policy, stamp.press);
      if |entry.key| != KEY_LEN {
        return Failure(PressNotAuthorized);
      }
      if !entry.active {
        return Failure(Error.PressRevoked);
      }
      var msgHash := e.crypto.keccak(stamp.payload);
      var sigValid := e.crypto.verify(verifierModule, msgHash, stamp.sig, entry.key);
      if !sigValid {
        return Failure(InvalidPressSignature);
      }
      var op := FindField(stamp.payload, FIELD_OP);
      if op.Failure? {
        return Failure(op.error);
      }
      if op.value != Some(expectedOp) {
        return Failure(InvalidPressSignature);
      }
      var field := FindField(stamp.payload, FIELD_SEQUENCE);
      if field.Failure? {
        return Failure(field.error);
      }
      if field.value.None? {
        return Failure(InvalidPayload);
      }
      var payloadSequence := ParseU64(field.value.value);
      if payloadSequence.None? {
        return Failure(InvalidPayload);
      }
      if payloadSequence.value != entry.nextSequence {
        return Failure(SequenceMismatch);
      }
      return Success(payloadSequence.value);
    }

    method RunWriteGate(e: Env, policy: B256, stamp: Stamp, expectedOp: Bytes) returns (r: Outcome<Error>)
      requires e.self == address
      modifies storage
      ensures var spec := Authorize(e, old(storage.Slots()), Own(), Gate.Press(policy, stamp, expectedOp, true));
              if r.Done? then spec == Success(storage.Slots()) else spec == Failure(r.error)
      ensures r.Done? ==> storage.logicContract == address
      ensures r.Done? ==> storage.Slots() == Bump(old(storage.Slots()), policy, stamp.press)
    {
      var sequence := ValidateWriteGateOnly(e, policy, stamp, expectedOp);
      if sequence.Failure? {
        return Revert(sequence.error);
      }
      r := storage.IncrementPressSequence(address, policy, stamp.press);
    }

    method VerifyGovernanceQuorum(e: Env, body: u8, gov: Signed) returns (r: Outcome<Error>)
      requires e.self == address
      modifies storage
      ensures var spec := Authorize(e, old(storage.Slots()), Own(), Governed(body, gov));
              if r.Done? then spec == Success(storage.Slots()) else spec == Failure(r.error)
      ensures r.Done? ==> storage.logicContract == address
      ensures r.Done? ==> storage.Slots() == old(storage.Slots()).(usedNonces := storage.usedNonces)
      ensures r.Done? ==> ExtractNonceBytes(gov.payload).Success? && ExtractNonceBytes(gov.payload).value.Some?
    {
      var keyset := storage.Slots().KeysetOf(body);
      var field := FindField(gov.payload, FIELD_GOVERNANCE_VERSION);
      if field.Failure? {
        return Revert(field.error);
      }
      if field.value.None? {
        return Revert(InvalidPayload);
      }
      var version := ParseU64(field.value.value);
      if version.None? {
        return Revert(InvalidPayload);
      }
      if version.value % U32_RANGE != keyset.version {
        return Revert(GovernanceVersionMismatch);
      }
      var nonceRaw := FindField(gov.payload, FIELD_NONCE);
      if nonceRaw.Failure? {
        return Revert(nonceRaw.error);
      }
      if nonceRaw.value.None? {
        return Revert(InvalidPayload);
      }
      var nonce := e.crypto.keccak(nonceRaw.value.value);
      if nonce in storage.usedNonces {
        return Revert(NonceReused);
      }
      var ballot := Ballot(e.crypto, verifierModule, e.crypto.keccak(gov.payload), keyset);
      var validSigCount := CountSigners(ballot, gov.sigs);
      if validSigCount.Failure? {
        return Revert(validSigCount.error);
      }
      r := storage.MarkNonceUsed(address, nonce);
    }

    method VerifySingleSig(e: Env, hash: B256, sig: Bytes, key: Bytes) returns (ok: bool)
      ensures ok == SingleSig(e, Own(), hash, sig, key)
    {
      if |sig| != KEY_LEN || |key| != KEY_LEN {
        return false;
      }
      return e.crypto.verify(verifierModule, hash, sig, key);
    }

    // -------------------------------------------------------------------------
    // Card operations (card_ops.rs)
    // -------------------------------------------------------------------------

    method RegisterCard(e: Env, card: B256, cid: Bytes, policy: B256, stamp: Stamp) returns (r: Outcome<Error>)
      requires e.self == address
      modifies this, storage
      ensures Ran(e, old(storage.Slots()), old(Own()), old(log), Call.RegisterCard(card, cid, policy, stamp),
                  storage.Slots(), Own(), log, r)
    {
      ghost var c := Call.RegisterCard(card, cid, policy, stamp);
      if storage.Slots().Card(card).exists_ {
        return Revert(CardAlreadyExists);
      }
      if |cid| > MAX_CID_LEN {
        return Revert(LogCidTooLong);
      }
      :- RunWriteGate(e, policy, stamp, OP_REGISTER_CARD);
      assert Admit(e, old(storage.Slots()), Own(), c) == Success(storage.Slots());
      var written := storage.SetCardEntry(address, card, cid, policy, stamp.press, true);
      assert written.Done?;
      log := log + [CardRegistered(card, policy, stamp.press, cid, e.now)];
      return Done;
    }

    method UpdateHead(e: Env, card: B256, newCid: Bytes, prevCid: Bytes, stamp: Stamp) returns (r: Outcome<Error>)
      requires e.self == address
      modifies this, storage
      ensures Ran(e, old(storage.Slots()), old(Own()), old(log), Call.UpdateHead(card, newCid, prevCid, stamp),
                  storage.Slots(), Own(), log, r)
    {
      var entry := storage.Slots().Card(card);
      if !entry.exists_ {
        return Revert(CardNotFound);
      }
      if |newCid| > MAX_CID_LEN {
        return Revert(LogCidTooLong);
      }
      :- RunWriteGate(e, entry.policy, stamp, OP_UPDATE_CARD_HEAD);
      // The bump above is undone by the revert.
      if entry.logHead != prevCid {
        return Revert(StalePrevCid);
      }
      var written := storage.UpdateCardHead(address, card, newCid, stamp.press);
      assert written.Done?;
      log := log + [CardHeadUpdated(card, prevCid, newCid, stamp.press, e.now)];
      return Done;
    }

    /** The checks of ClaimOpenOffer that come before the gate. */
    method CheckOffer(e: Env, offer: B256, maxAcceptances: nat, expiresAt: nat, card: B256, cid: Bytes,
                      policy: B256, stamp: Stamp)
      returns (r: Outcome<Error>)
      ensures var spec := PreCheck(e, storage.Slots(), Own(),
                                   Call.ClaimOpenOffer(offer, maxAcceptances, expiresAt, card, cid, policy, stamp));
              if r.Done? then spec.Success? else spec == Failure(r.error)
    {
      if expiresAt != 0 && e.now >= expiresAt {
        return Revert(OfferExpired);
      }
      var currentCount := storage.Slots().OfferCount(offer);
      if maxAcceptances != U64_RANGE - 1 && currentCount >= maxAcceptances {
        return Revert(OfferAtCapacity);
      }
      if storage.Slots().Card(card).exists_ {
        return Revert(CardAlreadyExists);
      }
      if |cid| > MAX_CID_LEN {
        return Revert(LogCidTooLong);
      }
      return Done;
    }

    /** The two writes of ClaimOpenOffer; neither can fail once everything is checked. */
    method WriteClaim(e: Env, offer: B256, card: B256, cid: Bytes, policy: B256, stamp: Stamp, currentCount: nat,
                      ghost c: Call)
      requires c.ClaimOpenOffer?
      requires c == Call.ClaimOpenOffer(offer, c.maxAcceptances, c.expiresAt, card, cid, policy, stamp)
      requires storage.Slots().logic == address && |cid| <= MAX_CID_LEN
      requires currentCount == storage.Slots().OfferCount(offer)
      modifies storage
      ensures storage.Slots() == StoreAfter(e, old(storage.Slots()), c)
    {
      var counted := storage.SetOpenOfferCount(address, offer, (currentCount + 1) % U64_RANGE);
      assert counted.Done?;
      var written := storage.SetCardEntry(address, card, cid, policy, stamp.press, true);
      assert written.Done?;
    }

    method ClaimOpenOffer(e: Env, offer: B256, maxAcceptances: nat, expiresAt: nat, card: B256, cid: Bytes,
                          policy: B256, stamp: Stamp)
      returns (r: Outcome<Error>)
      requires e.self == address
      modifies this, storage
      ensures Ran(e, old(storage.Slots()), old(Own()), old(log),
                  Call.ClaimOpenOffer(offer, maxAcceptances, expiresAt, card, cid, policy, stamp),
                  storage.Slots(), Own(), log, r)
    {
      hide Authorize;
      hide DnsPreCheck;
      hide GovernancePreCheck;
      ghost var c := Call.ClaimOpenOffer(offer, maxAcceptances, expiresAt, card, cid, policy, stamp);
      var currentCount := storage.Slots().OfferCount(offer);
      :- CheckOffer(e, offer, maxAcceptances, expiresAt, card, cid, policy, stamp);
      :- RunWriteGate(e, policy, stamp, OP_CLAIM_OPEN_OFFER);
      assert Admit(e, old(storage.Slots()), Own(), c) == Success(storage.Slots());
      WriteClaim(e, offer, card, cid, policy, stamp, currentCount, c);
      log := log + [OpenOfferClaimed(offer, card, (currentCount + 1) % U64_RANGE, e.now),
                    CardRegistered(card, policy, stamp.press, cid, e.now)];
      return Done;
    }

    method RegisterAddressForward(e: Env, old_: B256, new_: B256, stamp: Stamp) returns (r: Outcome<Error>)
      requires e.self == address
      modifies this, storage
      ensures Ran(e, old(storage.Slots()), old(Own()), old(log), Call.RegisterAddressForward(old_, new_, stamp),
                  storage.Slots(), Own(), log, r)
    {
      var oldEntry := storage.Slots().Card(old_);
      if !oldEntry.exists_ {
        return Revert(CardNotFound);
      }
      if !storage.Slots().Card(new_).exists_ {
        return Revert(CardNotFound);
      }
      if oldEntry.forwardTo != ZERO {
        return Revert(ForwardAlreadySet);
      }
      var press := storage.Slots().Press(oldEntry.policy, stamp.press);
      if |press.key| != KEY_LEN {
        return Revert(PressNotAuthorized);
      }
      if !press.active {
        return Revert(Error.PressRevoked);
      }
      var op := FindField(stamp.payload, FIELD_OP);
      if op.Failure? {
        return Revert(op.error);
      }
      if op.value != Some(OP_REGISTER_ADDRESS_FORWARD) {
        return Revert(InvalidPressSignature);
      }
      var sigValid := VerifySingleSig(e, e.crypto.keccak(stamp.payload), stamp.sig, press.key);
      if !sigValid {
        return Revert(InvalidPressSignature);
      }
      :- storage.SetForwardTo(address, old_, new_);
      log := log + [AddressTransition(old_, new_, e.now)];
      return Done;
    }

    /** The nested validation loops of BatchUpdateCardHeads: nothing is written until all items pass. */
    method CheckBatchItems(policy: B256, cards: seq<B256>, prevCids: seq<Bytes>, newCids: seq<Bytes>)
      returns (r: Outcome<Error>)
      requires |cards| == |prevCids| == |newCids|
      ensures var spec := BatchItems(storage.Slots(), policy, cards, prevCids, newCids, 0);
              if r.Done? then spec.Success? else spec == Failure(r.error)
    {
      ghost var s := storage.Slots();
      for i := 0 to |cards|
        invariant BatchItems(s, policy, cards, prevCids, newCids, 0)
                  == BatchItems(s, policy, cards, prevCids, newCids, i)
      {
        for j := i + 1 to |cards|
          invariant cards[i] !in cards[i + 1..j]
        {
          if cards[i] == cards[j] {
            assert cards[i + 1..][j - i - 1] == cards[j];
            return Revert(BatchItemInvalid);
          }
        }
        assert cards[i + 1..|cards|] == cards[i + 1..];
        if |newCids[i]| > MAX_CID_LEN {
          return Revert(LogCidTooLong);
        }
        var entry := storage.Slots().Card(cards[i]);
        if !entry.exists_ {
          return Revert(CardNotFound);
        }
        if entry.policy != policy {
          return Revert(BatchItemInvalid);
        }
        if entry.logHead != prevCids[i] {
          return Revert(StalePrevCid);
        }
      }
      return Done;
    }

    /** The apply loop of BatchUpdateCardHeads: once the items are valid no write in it can fail. */
    method ApplyBatch(e: Env, cards: seq<B256>, prevCids: seq<Bytes>, newCids: seq<Bytes>, press: B256)
      requires |cards| == |prevCids| == |newCids|
      requires storage.Slots().logic == address
      requires forall i :: 0 <= i < |newCids| ==> |newCids[i]| <= MAX_CID_LEN
      modifies storage, this`log
      ensures var s := old(storage.Slots());
              storage.Slots() == s.(cards := WithHeads(s.cards, cards, newCids, press, |cards|))
      ensures log == old(log) + HeadEvents(cards, prevCids, newCids, press, e.now, |cards|)
    {
      ghost var s := storage.Slots();
      for i := 0 to |cards|
        invariant storage.Slots() == s.(cards := WithHeads(s.cards, cards, newCids, press, i))
        invariant log == old(log) + HeadEvents(cards, prevCids, newCids, press, e.now, i)
      {
        var written := storage.UpdateCardHead(address, cards[i], newCids[i], press);
        assert written.Done?;
        log := log + [CardHeadUpdated(cards[i], prevCids[i], newCids[i], press, e.now)];
      }
    }

    /** Everything before the apply loop: all checks, then the one bump. */
    method AdmitBatch(e: Env, policy: B256, cards: seq<B256>, prevCids: seq<Bytes>, newCids: seq<Bytes>, stamp: Stamp,
                      ghost c: Call)
      returns (r: Outcome<Error>)
      requires e.self == address
      requires c == Call.BatchUpdateCardHeads(policy, cards, prevCids, newCids, stamp)
      modifies storage
      ensures var s, admitted := old(storage.Slots()), Admit(e, old(storage.Slots()), Own(), c);
              match r
              case Done => admitted == Success(s) && storage.Slots() == Bump(s, policy, stamp.press)
              case Revert(err) => admitted == Failure(err)
      ensures r.Done? ==> address == old(storage.Slots()).logic && |cards| == |prevCids| == |newCids|
      ensures r.Done? ==> BatchItems(old(storage.Slots()), policy, cards, prevCids, newCids, 0).Success?
    {
      var n := |cards|;
      if n == 0 || n > MAX_BATCH_SIZE {
        return Revert(BatchSizeInvalid);
      }
      if |prevCids| != n || |newCids| != n {
        return Revert(BatchSizeInvalid);
      }
      var gate := ValidateWriteGateOnly(e, policy, stamp, OP_BATCH_UPDATE_CARD_HEADS);
      if gate.Failure? {
        return Revert(gate.error);
      }
      :- CheckBatchItems(policy, cards, prevCids, newCids);
      r := storage.IncrementPressSequence(address, policy, stamp.press);
    }

    method BatchUpdateCardHeads(e: Env, policy: B256, cards: seq<B256>, prevCids: seq<Bytes>, newCids: seq<Bytes>,
                                stamp: Stamp)
      returns (r: Outcome<Error>)
      requires e.self == address
      modifies this, storage
      ensures Ran(e, old(storage.Slots()), old(Own()), old(log),
                  Call.BatchUpdateCardHeads(policy, cards, prevCids, newCids, stamp),
                  storage.Slots(), Own(), log, r)
    {
      ghost var c := Call.BatchUpdateCardHeads(policy, cards, prevCids, newCids, stamp);
      :- AdmitBatch(e, policy, cards, prevCids, newCids, stamp, c);
      BatchItemsValid(old(storage.Slots()), policy, cards, prevCids, newCids, 0);
      ApplyBatch(e, cards, prevCids, newCids, stamp.press);
      return Done;
    }

    // -------------------------------------------------------------------------
    // Sub-card operations (subcard_ops.rs)
    // -------------------------------------------------------------------------

    /** The DNS admin branch of RegisterSubCard. */
    method CheckAdminSignature(e: Env, master: B256, adminPayload: Bytes, adminSig: Bytes) returns (r: Outcome<Error>)
      ensures var spec := AdminSignature(e, storage.Slots(), Own(), master, adminPayload, adminSig);
              if r.Done? then spec.Success? else spec == Failure(r.error)
    {
      var adminKey := storage.Slots().AdminKey(master);
      if |adminKey| == KEY_LEN {
        if |adminSig| != KEY_LEN || |adminPayload| == 0 {
          return Revert(InvalidAdminCardSignature);
        }
        var payloadSub := FindField(adminPayload, FIELD_SUB_CARD_ADDRESS);
        if payloadSub.Failure? {
          return Revert(payloadSub.error);
        }
        var payloadDoc := FindField(adminPayload, FIELD_SUB_CARD_DOC_CID);
        if payloadDoc.Failure? {
          return Revert(payloadDoc.error);
        }
        if payloadSub.value.None? || payloadDoc.value.None? {
          return Revert(InvalidAdminCardSignature);
        }
        var sigValid := VerifySingleSig(e, e.crypto.keccak(adminPayload), adminSig, adminKey);
        if !sigValid {
          return Revert(InvalidAdminCardSignature);
        }
      } else {
        if !IsZeroSignature(adminSig) || |adminPayload| != 0 {
          return Revert(InvalidAdminCardSignature);
        }
      }
      return Done;
    }

    /** The checks of RegisterSubCard that come before the gate. */
    method CheckSubCard(e: Env, sub: B256, master: B256, head: Bytes, docCid: Bytes, stamp: Stamp,
                        adminPayload: Bytes, adminSig: Bytes)
      returns (r: Outcome<Error>)
      ensures var spec := PreCheck(e, storage.Slots(), Own(),
                                   Call.RegisterSubCard(sub, master, head, docCid, stamp, adminPayload, adminSig));
              if r.Done? then spec.Success? else spec == Failure(r.error)
    {
      var masterEntry := storage.Slots().Card(master);
      if !masterEntry.exists_ {
        return Revert(CardNotFound);
      }
      if storage.Slots().SubCard(sub).active {
        return Revert(SubCardAlreadyActive);
      }
      if masterEntry.logHead != head {
        return Revert(StaleRegistrationLogHead);
      }
      if |head| > MAX_CID_LEN {
        return Revert(LogCidTooLong);
      }
      if |docCid| > MAX_CID_LEN {
        return Revert(LogCidTooLong);
      }
      r := CheckAdminSignature(e, master, adminPayload, adminSig);
    }

    method RegisterSubCard(e: Env, sub: B256, master: B256, head: Bytes, docCid: Bytes, stamp: Stamp,
                           adminPayload: Bytes, adminSig: Bytes)
      returns (r: Outcome<Error>)
      requires e.self == address
      modifies this, storage
      ensures Ran(e, old(storage.Slots()), old(Own()), old(log),
                  Call.RegisterSubCard(sub, master, head, docCid, stamp, adminPayload, adminSig),
                  storage.Slots(), Own(), log, r)
    {
      hide Authorize;
      hide DnsPreCheck;
      hide GovernancePreCheck;
      ghost var c := Call.RegisterSubCard(sub, master, head, docCid, stamp, adminPayload, adminSig);
      :- CheckSubCard(e, sub, master, head, docCid, stamp, adminPayload, adminSig);
      var masterPolicy := storage.Slots().Card(master).policy;
      :- RunWriteGate(e, masterPolicy, stamp, OP_REGISTER_SUB_CARD);
      // A dead sub-card is refused here, by the storage contract.
      :- storage.SetSubCardEntry(address, sub, SubCardEntry(master, head, docCid, true, e.now, 0));
      log := log + [SubCardRegistered(sub, master, docCid, e.now)];
      return Done;
    }

    method DeregisterSubCard(e: Env, sub: B256, stamp: Stamp) returns (r: Outcome<Error>)
      requires e.self == address
      modifies this, storage
      ensures Ran(e, old(storage.Slots()), old(Own()), old(log), Call.DeregisterSubCard(sub, stamp),
                  storage.Slots(), Own(), log, r)
    {
      var entry := storage.Slots().SubCard(sub);
      if entry.master == ZERO {
        return Revert(SubCardNotFound);
      }
      if !entry.active {
        return Revert(SubCardNotFound);
      }
      var masterEntry := storage.Slots().Card(entry.master);
      if !masterEntry.exists_ {
        return Revert(CardNotFound);
      }
      :- RunWriteGate(e, masterEntry.policy, stamp, OP_DEREGISTER_SUB_CARD);
      :- storage.SetSubCardEntry(address, sub, entry.(active := false, deregisteredAt := e.now));
      log := log + [SubCardDeregistered(sub, entry.master, e.now)];
      return Done;
    }

    // -------------------------------------------------------------------------
    // Governance operations (governance_ops.rs)
    // -------------------------------------------------------------------------

    method RegisterPolicy(e: Env, policy: B256, key: Bytes, gov: Signed) returns (r: Outcome<Error>)
      requires e.self == address
      modifies this, storage
      ensures Ran(e, old(storage.Slots()), old(Own()), old(log), Call.RegisterPolicy(policy, key, gov),
                  storage.Slots(), Own(), log, r)
    {
      if storage.Slots().PolicyExists(policy) {
        return Revert(PolicyAlreadyRegistered);
      }
      if |key| != KEY_LEN {
        return Revert(InvalidPayload);
      }
      :- VerifyGovernanceQuorum(e, ROOT_POLICY_BODY, gov);
      var written := storage.SetPolicyAuthorizerKey(address, policy, key);
      assert written.Done?;
      log := log + [PolicyRegistered(policy, e.now)];
      return Done;
    }

    method DeregisterPolicy(e: Env, policy: B256, gov: Signed) returns (r: Outcome<Error>)
      requires e.self == address
      modifies this, storage
      ensures Ran(e, old(storage.Slots()), old(Own()), old(log), Call.DeregisterPolicy(policy, gov),
                  storage.Slots(), Own(), log, r)
    {
      hide Authorize;
      if !storage.Slots().PolicyExists(policy) {
        return Revert(UnrecognizedPolicy);
      }
      :- VerifyGovernanceQuorum(e, ROOT_POLICY_BODY, gov);
      :- storage.DeletePolicyAuthorizerKey(address, policy);
      log := log + [PolicyDeregistered(policy, e.now)];
      return Done;
    }

    method AuthorizePress(e: Env, policy: B256, press: B256, key: Bytes, mldsaHash: B256, gov: Signed)
      returns (r: Outcome<Error>)
      requires e.self == address
      modifies this, storage
      ensures Ran(e, old(storage.Slots()), old(Own()), old(log),
                  Call.AuthorizePress(policy, press, key, mldsaHash, gov),
                  storage.Slots(), Own(), log, r)
    {
      if !storage.Slots().PolicyExists(policy) {
        return Revert(UnrecognizedPolicy);
      }
      if |key| != KEY_LEN {
        return Revert(InvalidPayload);
      }
      :- VerifyGovernanceQuorum(e, PRESS_REGISTRY_BODY, gov);
      var written := storage.SetPressAuthEntry(address, policy, press,
                                               PressEntry(key, mldsaHash, 0, true, 0, e.now, 0));
      assert written.Done?;
      log := log + [PressAuthorized(policy, press, e.now)];
      return Done;
    }

    method RevokePress(e: Env, policy: B256, press: B256, gov: Signed) returns (r: Outcome<Error>)
      requires e.self == address
      modifies this, storage
      ensures Ran(e, old(storage.Slots()), old(Own()), old(log), Call.RevokePress(policy, press, gov),
                  storage.Slots(), Own(), log, r)
    {
      var entry := storage.Slots().Press(policy, press);
      if |entry.key| != KEY_LEN {
        return Revert(PressNotAuthorized);
      }
      if !entry.active {
        return Revert(Error.PressRevoked);
      }
      :- VerifyGovernanceQuorum(e, PRESS_REGISTRY_BODY, gov);
      var written := storage.SetPressAuthEntry(address, policy, press, entry.(active := false, revokedAt := e.now));
      assert written.Done?;
      log := log + [Event.PressRevoked(policy, press, e.now)];
      return Done;
    }

    method RotateAuthorizerKey(e: Env, policy: B256, key: Bytes, gov: Signed) returns (r: Outcome<Error>)
      requires e.self == address
      modifies this, storage
      ensures Ran(e, old(storage.Slots()), old(Own()), old(log), Call.RotateAuthorizerKey(policy, key, gov),
                  storage.Slots(), Own(), log, r)
    {
      hide Authorize;
      if !storage.Slots().PolicyExists(policy) {
        return Revert(UnrecognizedPolicy);
      }
      if |key| != KEY_LEN {
        return Revert(InvalidPayload);
      }
      :- VerifyGovernanceQuorum(e, ROOT_POLICY_BODY, gov);
      var written := storage.SetPolicyAuthorizerKey(address, policy, key);
      assert written.Done?;
      log := log + [AuthorizerKeyRotated(policy, e.now)];
      return Done;
    }

    /** The checks of RotateGovernanceKeys that come before the quorum. */
    method CheckRotation(e: Env, body: u8, keysFlat: Bytes, keyCount: u8, quorum: u8, gov: Signed)
      returns (r: Outcome<Error>)
      ensures var spec := PreCheck(e, storage.Slots(), Own(),
                                   Call.RotateGovernanceKeys(body, keysFlat, keyCount, quorum, gov));
              if r.Done? then spec.Success? else spec == Failure(r.error)
      ensures r.Done? ==> |keysFlat| == keyCount * KEY_LEN
    {
      if keyCount < MIN_GOVERNANCE_KEYS {
        return Revert(KeysetTooSmall);
      }
      if quorum <= keyCount / 2 {
        return Revert(QuorumTooLow);
      }
      if |keysFlat| != keyCount * KEY_LEN {
        return Revert(InvalidPayload);
      }
      return Done;
    }

    /** Write the new keyset under the next version. */
    method InstallKeyset(body: u8, keysFlat: Bytes, keyCount: u8, quorum: u8) returns (newVersion: nat)
      requires storage.logicContract == address && |keysFlat| == keyCount * KEY_LEN
      modifies storage
      ensures newVersion == (old(storage.Slots()).KeysetOf(body).version + 1) % U32_RANGE
      ensures var s := old(storage.Slots());
              storage.Slots() == s.(keysets := s.keysets[body := Keyset(keysFlat, keyCount, quorum, newVersion, 0)])
    {
      newVersion := (storage.Slots().KeysetOf(body).version + 1) % U32_RANGE;
      var written := storage.SetGovernanceKeyset(address, body, Keyset(keysFlat, keyCount, quorum, newVersion, 0));
      assert written.Done?;
    }

    method RotateGovernanceKeys(e: Env, body: u8, keysFlat: Bytes, keyCount: u8, quorum: u8, gov: Signed)
      returns (r: Outcome<Error>)
      requires e.self == address
      modifies this, storage
      ensures Ran(e, old(storage.Slots()), old(Own()), old(log),
                  Call.RotateGovernanceKeys(body, keysFlat, keyCount, quorum, gov),
                  storage.Slots(), Own(), log, r)
    {
      hide Authorize;
      var checked := CheckRotation(e, body, keysFlat, keyCount, quorum, gov);
      :- checked;
      // The signatures are of the current keyset, not of the proposed one.
      :- VerifyGovernanceQuorum(e, body, gov);
      var newVersion := InstallKeyset(body, keysFlat, keyCount, quorum);
      log := log + [GovernanceKeysRotated(body, quorum, keyCount, newVersion, e.now)];
      return Done;
    }

    method SetProtocolVersion(e: Env, newVersion: string, gov: Signed) returns (r: Outcome<Error>)
      requires e.self == address
      modifies this, storage
      ensures Ran(e, old(storage.Slots()), old(Own()), old(log), Call.SetProtocolVersion(newVersion, gov),
                  storage.Slots(), Own(), log, r)
    {
      if newVersion == "" {
        return Revert(InvalidPayload);
      }
      var oldVersion := VersionOf(Own());
      :- VerifyGovernanceQuorum(e, ROOT_POLICY_BODY, gov);
      protocolVersion := newVersion;
      log := log + [ProtocolVersionUpdated(oldVersion, newVersion, e.now)];
      return Done;
    }

    method DisablePolicyDelete(e: Env, gov: Signed) returns (r: Outcome<Error>)
      requires e.self == address
      modifies this, storage
      ensures Ran(e, old(storage.Slots()), old(Own()), old(log), Call.DisablePolicyDelete(gov),
                  storage.Slots(), Own(), log, r)
    {
      hide Authorize;
      if storage.policyDeleteDisabled {
        return Revert(PolicyDeleteAlreadyDisabled);
      }
      :- VerifyGovernanceQuorum(e, ROOT_POLICY_BODY, gov);
      var written := storage.DisablePolicyDeletePermanently(address);
      assert written.Done?;
      log := log + [PolicyDeletePermanentlyDisabled(e.now)];
      return Done;
    }

    // -------------------------------------------------------------------------
    // Upgrade operations (upgrade_ops.rs)
    // -------------------------------------------------------------------------

    /** The record of a proposal; its nonce was already read from the payload by the quorum check. */
    method NewProposal(e: Env, newAddress: Address, payload: Bytes) returns (p: Pending)
      requires ExtractNonceBytes(payload).Success? && ExtractNonceBytes(payload).value.Some?
      ensures p == Pending(newAddress, e.now, storage.Slots().KeysetOf(ROOT_POLICY_BODY).version,
                           NonceKey(e.crypto, payload))
    {
      var version := storage.Slots().KeysetOf(ROOT_POLICY_BODY).version;
      var nonceRaw := FindField(payload, FIELD_NONCE);
      p := Pending(newAddress, e.now, version, e.crypto.keccak(nonceRaw.value.value));
    }

    method ProposeLogicUpgrade(e: Env, newAddress: Address, gov: Signed) returns (r: Outcome<Error>)
      requires e.self == address
      modifies this, storage
      ensures Ran(e, old(storage.Slots()), old(Own()), old(log), Call.ProposeLogicUpgrade(newAddress, gov),
                  storage.Slots(), Own(), log, r)
    {
      hide Authorize;
      if storage.pendingLogicUpgrade.address != ZERO {
        return Revert(UpgradeAlreadyPending);
      }
      if newAddress == ZERO {
        return Revert(InvalidPayload);
      }
      if newAddress == storage.logicContract {
        return Revert(InvalidPayload);
      }
      :- VerifyGovernanceQuorum(e, ROOT_POLICY_BODY, gov);
      var proposal := NewProposal(e, newAddress, gov.payload);
      var written := storage.SetPendingLogicUpgrade(address, proposal);
      assert written.Done?;
      log := log + [LogicUpgradeProposed(newAddress, e.now, (e.now + LOGIC_UPGRADE_TIMELOCK_SECS) % U64_RANGE)];
      return Done;
    }

    /** The checks of ConfirmLogicUpgrade that come before the gate. */
    method CheckLogicConfirmation(e: Env, proposedAddress: Address, gov: Signed) returns (r: Outcome<Error>)
      ensures var spec := PreCheck(e, storage.Slots(), Own(), Call.ConfirmLogicUpgrade(proposedAddress, gov));
              if r.Done? then spec.Success? else spec == Failure(r.error)
      ensures r.Done? ==> proposedAddress != ZERO
    {
      var pending := storage.pendingLogicUpgrade;
      if pending.address == ZERO {
        return Revert(NoUpgradePending);
      }
      if proposedAddress != pending.address {
        return Revert(UpgradeAddressMismatch);
      }
      if e.now < (pending.proposedAt + LOGIC_UPGRADE_TIMELOCK_SECS) % U64_RANGE {
        return Revert(UpgradeTimelockNotElapsed);
      }
      if storage.Slots().KeysetOf(ROOT_POLICY_BODY).version != pending.governanceVersion {
        return Revert(GovernanceVersionMismatch);
      }
      return Done;
    }

    /** The two writes of ConfirmLogicUpgrade. */
    method SwitchLogic(newLogic: Address)
      requires storage.logicContract == address && newLogic != ZERO
      modifies storage
      ensures storage.Slots() == old(storage.Slots()).(pending := NO_PENDING, logic := newLogic)
    {
      // Cleared first: after the next call this contract can no longer write.
      var cleared := storage.ClearPendingLogicUpgrade(address);
      assert cleared.Done?;
      var written := storage.SetLogicContract(address, newLogic);
      assert written.Done?;
    }

    method ConfirmLogicUpgrade(e: Env, proposedAddress: Address, gov: Signed) returns (r: Outcome<Error>)
      requires e.self == address
      modifies this, storage
      ensures Ran(e, old(storage.Slots()), old(Own()), old(log), Call.ConfirmLogicUpgrade(proposedAddress, gov),
                  storage.Slots(), Own(), log, r)
    {
      var checked := CheckLogicConfirmation(e, proposedAddress, gov);
      :- checked;
      :- VerifyGovernanceQuorum(e, ROOT_POLICY_BODY, gov);
      SwitchLogic(proposedAddress);
      log := log + [LogicUpgradeConfirmed(proposedAddress, e.now)];
      return Done;
    }

    method CancelLogicUpgrade(e: Env, gov: Signed) returns (r: Outcome<Error>)
      requires e.self == address
      modifies this, storage
      ensures Ran(e, old(storage.Slots()), old(Own()), old(log), Call.CancelLogicUpgrade(gov),
                  storage.Slots(), Own(), log, r)
    {
      hide Authorize;
      var pending := storage.pendingLogicUpgrade;
      if pending.address == ZERO {
        return Revert(NoUpgradePending);
      }
      :- VerifyGovernanceQuorum(e, ROOT_POLICY_BODY, gov);
      var written := storage.ClearPendingLogicUpgrade(address);
      assert written.Done?;
      log := log + [LogicUpgradeCancelled(pending.address, e.now)];
      return Done;
    }

    method ProposeVerifierUpgrade(e: Env, newAddress: Address, gov: Signed) returns (r: Outcome<Error>)
      requires e.self == address
      modifies this, storage
      ensures Ran(e, old(storage.Slots()), old(Own()), old(log), Call.ProposeVerifierUpgrade(newAddress, gov),
                  storage.Slots(), Own(), log, r)
    {
      hide Authorize;
      if pendingVerifier.address != ZERO {
        return Revert(UpgradeAlreadyPending);
      }
      if newAddress == ZERO {
        return Revert(InvalidPayload);
      }
      if newAddress == verifierModule {
        return Revert(InvalidPayload);
      }
      :- VerifyGovernanceQuorum(e, ROOT_POLICY_BODY, gov);
      var proposal := NewProposal(e, newAddress, gov.payload);
      pendingVerifier := proposal;
      log := log + [VerifierUpgradeProposed(newAddress, e.now, (e.now + VERIFIER_UPGRADE_TIMELOCK_SECS) % U64_RANGE)];
      return Done;
    }

    method ConfirmVerifierUpgrade(e: Env, proposedAddress: Address, gov: Signed) returns (r: Outcome<Error>)
      requires e.self == address
      modifies this, storage
      ensures Ran(e, old(storage.Slots()), old(Own()), old(log), Call.ConfirmVerifierUpgrade(proposedAddress, gov),
                  storage.Slots(), Own(), log, r)
    {
      if pendingVerifier.address == ZERO {
        return Revert(NoUpgradePending);
      }
      if proposedAddress != pendingVerifier.address {
        return Revert(UpgradeAddressMismatch);
      }
      if e.now < (pendingVerifier.proposedAt + VERIFIER_UPGRADE_TIMELOCK_SECS) % U64_RANGE {
        return Revert(UpgradeTimelockNotElapsed);
      }
      if storage.Slots().KeysetOf(ROOT_POLICY_BODY).version != pendingVerifier.governanceVersion {
        return Revert(GovernanceVersionMismatch);
      }
      :- VerifyGovernanceQuorum(e, ROOT_POLICY_BODY, gov);
      pendingVerifier := Pending(ZERO, 0, 0, ZERO);
      verifierModule := proposedAddress;
      log := log + [VerifierUpgradeConfirmed(proposedAddress, e.now)];
      return Done;
    }

    method CancelVerifierUpgrade(e: Env, gov: Signed) returns (r: Outcome<Error>)
      requires e.self == address
      modifies this, storage
      ensures Ran(e, old(storage.Slots()), old(Own()), old(log), Call.CancelVerifierUpgrade(gov),
                  storage.Slots(), Own(), log, r)
    {
      var cancelled := pendingVerifier.address;
      if cancelled == ZERO {
        return Revert(NoUpgradePending);
      }
      :- VerifyGovernanceQuorum(e, ROOT_POLICY_BODY, gov);
      pendingVerifier := Pending(ZERO, 0, 0, ZERO);
      log := log + [VerifierUpgradeCancelled(cancelled, e.now)];
      return Done;
    }

    // -------------------------------------------------------------------------
    // Key scheme operations (key_scheme_ops.rs)
    // -------------------------------------------------------------------------

    method CheckKeyScheme(e: Env, policy: B256, stamp: Stamp, newMldsaKey: Bytes, mldsaSig: Bytes)
      returns (r: Outcome<Error>)
      ensures var spec := Authorize(e, storage.Slots(), Own(), KeyScheme(policy, stamp, newMldsaKey, mldsaSig));
              if r.Done? then spec == Success(storage.Slots()) else spec == Failure(r.error)
    {
      var entry := storage.Slots().Press(policy, stamp.press);
      if |entry.key| != KEY_LEN {
        return Revert(PressNotAuthorized);
      }
      if !entry.active {
        return Revert(Error.PressRevoked);
      }
      if entry.keyScheme != 0 {
        return Revert(KeySchemeAlreadyUpgraded);
      }
      // No run of this code gets past this check (see KeySchemes.PhaseZeroAlways).
      if storage.keySchemePhase < 1 {
        return Revert(SchemeUpgradeNotAvailable);
      }
      var field := FindField(stamp.payload, FIELD_DEADLINE_BLOCK);
      if field.Failure? {
        return Revert(field.error);
      }
      if field.value.None? {
        return Revert(InvalidPayload);
      }
      var deadlineBlock := ParseU64(field.value.value);
      if deadlineBlock.None? {
        return Revert(InvalidPayload);
      }
      if e.block > deadlineBlock.value {
        return Revert(RotationPayloadExpired);
      }
      if !e.crypto.verify(verifierModule, e.crypto.keccak(stamp.payload), stamp.sig, entry.key) {
        return Revert(InvalidPressSignature);
      }
      if |newMldsaKey| != MLDSA44_KEY_LEN {
        return Revert(InvalidPayload);
      }
      if e.crypto.keccak(newMldsaKey) != entry.mldsaHash {
        return Revert(MlDsa44KeyHashMismatch);
      }
      if |mldsaSig| != MLDSA44_SIG_LEN {
        return Revert(InvalidPayload);
      }
      return Done;
    }

    method RotateOnChainKeyScheme(e: Env, policy: B256, stamp: Stamp, newMldsaKey: Bytes, mldsaSig: Bytes)
      returns (r: Outcome<Error>)
      requires e.self == address
      modifies this, storage
      ensures Ran(e, old(storage.Slots()), old(Own()), old(log),
                  Call.RotateOnChainKeyScheme(policy, stamp, newMldsaKey, mldsaSig),
                  storage.Slots(), Own(), log, r)
    {
      var checked := CheckKeyScheme(e, policy, stamp, newMldsaKey, mldsaSig);
      :- checked;
      var entry := storage.Slots().Press(policy, stamp.press);
      :- storage.SetPressAuthEntry(address, policy, stamp.press, entry.(key := Zeros(KEY_LEN), keyScheme := 1));
      log := log + [OnChainKeySchemeRotated(policy, stamp.press, newMldsaKey)];
      return Done;
    }

    // -------------------------------------------------------------------------
    // DNS operations (dns_ops.rs)
    // -------------------------------------------------------------------------

    method ValidateDomain(domain: Bytes) returns (r: Outcome<Error>)
      ensures r == if ValidDomain(domain) then Done else Revert(InvalidDnsParameter)
    {
      if |domain| == 0 || |domain| > MAX_DOMAIN_LEN {
        return Revert(InvalidDnsParameter);
      }
      return Done;
    }

    method RequireDomainExists(e: Env, domain: Bytes) returns (r: Outcome<Error>)
      requires ValidDomain(domain)
      ensures var spec := ExistingDomain(e, storage.Slots(), domain);
              if r.Done? then spec.Success? else spec == Failure(r.error)
    {
      var entry := storage.Slots().Domain(DomainHash(e.crypto, domain));
      if !entry.exists_ {
        return Revert(DomainNotFound);
      }
      return Done;
    }

    /** The checks of RegisterDomain that come before the gate. */
    method CheckRegisterDomain(e: Env, domain: Bytes, admin: B256, key: Bytes, gov: Signed)
      returns (r: Outcome<Error>)
      ensures var spec := PreCheck(e, storage.Slots(), Own(), Call.RegisterDomain(domain, admin, key, gov));
              if r.Done? then spec.Success? else spec == Failure(r.error)
      ensures r.Done? ==> |key| == KEY_LEN
    {
      var valid := ValidateDomain(domain);
      :- valid;
      if |key| != KEY_LEN {
        return Revert(InvalidDnsParameter);
      }
      var dnsPolicy := storage.dnsGovernancePolicyAddress;
      if dnsPolicy == ZERO {
        return Revert(CardNotDnsGovernancePolicy);
      }
      var card := storage.Slots().Card(admin);
      if !card.exists_ {
        return Revert(CardNotFound);
      }
      if card.policy != dnsPolicy {
        return Revert(CardNotDnsGovernancePolicy);
      }
      var entry := storage.Slots().Domain(DomainHash(e.crypto, domain));
      if entry.exists_ && entry.admin != ZERO {
        return Revert(DomainAlreadyRegistered);
      }
      return Done;
    }

    /** The two writes of RegisterDomain. */
    method InstallDomain(e: Env, domain: Bytes, admin: B256, key: Bytes)
      requires storage.logicContract == address && |key| == KEY_LEN
      modifies storage
      ensures var s, h := old(storage.Slots()), DomainHash(e.crypto, domain);
              storage.Slots() == s.(domains := s.domains[h := DomainEntry(admin, e.now, 0, 0, true)],
                                    adminKeys := s.adminKeys[admin := key])
    {
      var entry := DomainEntry(admin, e.now, 0, 0, true);
      var written := storage.SetDomainEntry(address, DomainHash(e.crypto, domain), entry);
      assert written.Done?;
      var keyed := storage.SetDnsAdminCardKey(address, admin, key);
      assert keyed.Done?;
    }

    method RegisterDomain(e: Env, domain: Bytes, admin: B256, key: Bytes, gov: Signed) returns (r: Outcome<Error>)
      requires e.self == address
      modifies this, storage
      ensures Ran(e, old(storage.Slots()), old(Own()), old(log), Call.RegisterDomain(domain, admin, key, gov),
                  storage.Slots(), Own(), log, r)
    {
      var checked := CheckRegisterDomain(e, domain, admin, key, gov);
      :- checked;
      :- VerifyGovernanceQuorum(e, DNS_GOVERNANCE_BODY, gov);
      InstallDomain(e, domain, admin, key);
      log := log + [DomainRegistered(domain, admin, e.now)];
      return Done;
    }

    /** The two writes of DeregisterDomain: the admin and its key are cleared, the rest is kept. */
    method RemoveDomain(e: Env, domain: Bytes)
      requires storage.logicContract == address
      modifies storage
      ensures var s, h := old(storage.Slots()), DomainHash(e.crypto, domain);
              storage.Slots() == s.(domains := s.domains[h := s.Domain(h).(admin := ZERO, exists_ := true)],
                                    adminKeys := if s.Domain(h).admin != ZERO
                                                 then s.adminKeys[s.Domain(h).admin := []] else s.adminKeys)
    {
      var dHash := DomainHash(e.crypto, domain);
      var entry := storage.Slots().Domain(dHash);
      var written := storage.SetDomainEntry(address, dHash, entry.(admin := ZERO, exists_ := true));
      assert written.Done?;
      if entry.admin != ZERO {
        var cleared := storage.SetDnsAdminCardKey(address, entry.admin, []);
        assert cleared.Done?;
      }
    }

    method DeregisterDomain(e: Env, domain: Bytes, gov: Signed) returns (r: Outcome<Error>)
      requires e.self == address
      modifies this, storage
      ensures Ran(e, old(storage.Slots()), old(Own()), old(log), Call.DeregisterDomain(domain, gov),
                  storage.Slots(), Own(), log, r)
    {
      var valid := ValidateDomain(domain);
      :- valid;
      :- RequireDomainExists(e, domain);
      :- VerifyGovernanceQuorum(e, DNS_GOVERNANCE_BODY, gov);
      RemoveDomain(e, domain);
      log := log + [DomainDeregistered(domain, e.now)];
      return Done;
    }

    /** The checks of SetPolicyAddress that come before the gate. */
    method CheckSetPath(e: Env, domain: Bytes, path: Bytes, policyCard: B256, admin: B256, sub: B256, stamp: Stamp)
      returns (r: Outcome<Error>)
      ensures var spec := PreCheck(e, storage.Slots(), Own(),
                                   Call.SetPath(domain, path, policyCard, admin, sub, stamp));
              if r.Done? then spec.Success? else spec == Failure(r.error)
    {
      var valid := ValidateDomain(domain);
      :- valid;
      if |path| > MAX_PATH_LEN {
        return Revert(InvalidDnsParameter);
      }
      if storage.dnsGovernancePolicyAddress == ZERO {
        return Revert(CardNotDnsGovernancePolicy);
      }
      :- RequireDomainExists(e, domain);
      var entry := storage.Slots().Domain(DomainHash(e.crypto, domain));
      if entry.fraudRisk == 2 && e.now < entry.suspensionExpiresAt {
        return Revert(DomainSuspended);
      }
      if admin != entry.admin {
        return Revert(AdminCardMismatch);
      }
      if sub != ZERO {
        var subEntry := storage.Slots().SubCard(sub);
        if !subEntry.active || subEntry.master != admin {
          return Revert(SubCardNotDomainAdminSubcard);
        }
      }
      return Done;
    }

    /** Write one policy-address entry. */
    method WritePath(key: B256, value: B256)
      requires storage.logicContract == address
      modifies storage
      ensures var s := old(storage.Slots());
              storage.Slots() == s.(policyAddresses := s.policyAddresses[key := value])
    {
      var written := storage.SetPolicyAddress(address, key, value);
      assert written.Done?;
    }

    method SetPath(e: Env, domain: Bytes, path: Bytes, policyCard: B256, admin: B256, sub: B256, stamp: Stamp)
      returns (r: Outcome<Error>)
      requires e.self == address
      modifies this, storage
      ensures Ran(e, old(storage.Slots()), old(Own()), old(log),
                  Call.SetPath(domain, path, policyCard, admin, sub, stamp),
                  storage.Slots(), Own(), log, r)
    {
      hide Authorize;
      hide DnsPreCheck;
      hide CardPreCheck;
      var checked := CheckSetPath(e, domain, path, policyCard, admin, sub, stamp);
      :- checked;
      var dnsPolicy := storage.dnsGovernancePolicyAddress;
      :- RunWriteGate(e, dnsPolicy, stamp, OP_SET_POLICY_ADDRESS);
      if !storage.Slots().Card(policyCard).exists_ {
        return Revert(PolicyCardNotFound);
      }
      WritePath(PathKey(e.crypto, domain, path), policyCard);
      log := log + [PolicyAddressSet(domain, path, policyCard, admin, sub, stamp.press, e.now)];
      return Done;
    }

    /** The checks of RemovePolicyAddress that come before the gate. */
    method CheckRemovePath(e: Env, domain: Bytes, path: Bytes, card: B256, stamp: Stamp, gov: Signed)
      returns (r: Outcome<Error>)
      ensures var spec := PreCheck(e, storage.Slots(), Own(), Call.RemovePath(domain, path, card, stamp, gov));
              if r.Done? then spec.Success? else spec == Failure(r.error)
    {
      var valid := ValidateDomain(domain);
      :- valid;
      :- RequireDomainExists(e, domain);
      if storage.Slots().PolicyAddress(PathKey(e.crypto, domain, path)) == ZERO {
        return Revert(DomainPathEntryNotFound);
      }
      if card != ZERO {
        var dnsPolicy := storage.dnsGovernancePolicyAddress;
        if dnsPolicy == ZERO {
          return Revert(CardNotDnsGovernancePolicy);
        }
        var entry := storage.Slots().Card(card);
        if !entry.exists_ {
          return Revert(CardNotFound);
        }
        if entry.policy != dnsPolicy {
          return Revert(CardNotDnsGovernancePolicy);
        }
      }
      return Done;
    }

    /** The checks and the gate of RemovePolicyAddress: the press's or the DNS body's. */
    method AdmitRemovePath(e: Env, domain: Bytes, path: Bytes, card: B256, stamp: Stamp, gov: Signed, ghost c: Call)
      returns (r: Outcome<Error>)
      requires e.self == address
      requires c == Call.RemovePath(domain, path, card, stamp, gov)
      modifies storage
      ensures var admitted := Admit(e, old(storage.Slots()), Own(), c);
              match r
              case Done => admitted == Success(storage.Slots()) && storage.logicContract == address
              case Revert(err) => admitted == Failure(err)
    {
      hide PreCheck;
      hide Authorize;
      var checked := CheckRemovePath(e, domain, path, card, stamp, gov);
      :- checked;
      if card != ZERO {
        var dnsPolicy := storage.dnsGovernancePolicyAddress;
        r := RunWriteGate(e, dnsPolicy, stamp, OP_REMOVE_POLICY_ADDRESS);
      } else {
        r := VerifyGovernanceQuorum(e, DNS_GOVERNANCE_BODY, gov);
      }
    }

    method RemovePath(e: Env, domain: Bytes, path: Bytes, card: B256, stamp: Stamp, gov: Signed)
      returns (r: Outcome<Error>)
      requires e.self == address
      modifies this, storage
      ensures Ran(e, old(storage.Slots()), old(Own()), old(log), Call.RemovePath(domain, path, card, stamp, gov),
                  storage.Slots(), Own(), log, r)
    {
      ghost var c := Call.RemovePath(domain, path, card, stamp, gov);
      hide Admit;
      :- AdmitRemovePath(e, domain, path, card, stamp, gov, c);
      WritePath(PathKey(e.crypto, domain, path), ZERO);
      log := log + [PolicyAddressRemoved(domain, path, e.now)];
      return Done;
    }

    /** The clear loop: entries that are zero already are skipped and not counted. */
    method ClearPaths(e: Env, domain: Bytes, paths: seq<Bytes>) returns (pathsCleared: nat)
      requires storage.logicContract == address
      modifies storage
      ensures var s := old(storage.Slots());
              && storage.Slots() == s.(policyAddresses := Cleared(e.crypto, s.policyAddresses, domain, paths, |paths|))
              && pathsCleared == ClearedCount(e.crypto, s.policyAddresses, domain, paths, |paths|)
    {
      ghost var s := storage.Slots();
      pathsCleared := 0;
      for i := 0 to |paths|
        invariant storage.Slots() == s.(policyAddresses := Cleared(e.crypto, s.policyAddresses, domain, paths, i))
        invariant pathsCleared == ClearedCount(e.crypto, s.policyAddresses, domain, paths, i)
      {
        var key := PathKey(e.crypto, domain, paths[i]);
        var current := storage.Slots().PolicyAddress(key);
        if current != ZERO {
          WritePath(key, ZERO);
          pathsCleared := pathsCleared + 1;
        }
      }
    }

    method ClearDomainEntries(e: Env, domain: Bytes, paths: seq<Bytes>, gov: Signed) returns (r: Outcome<Error>)
      requires e.self == address
      modifies this, storage
      ensures Ran(e, old(storage.Slots()), old(Own()), old(log), Call.ClearDomainEntries(domain, paths, gov),
                  storage.Slots(), Own(), log, r)
    {
      var valid := ValidateDomain(domain);
      :- valid;
      if |paths| == 0 || |paths| > MAX_CLEAR_ENTRIES_BATCH {
        return Revert(BatchSizeInvalid);
      }
      :- RequireDomainExists(e, domain);
      :- VerifyGovernanceQuorum(e, DNS_GOVERNANCE_BODY, gov);
      var pathsCleared := ClearPaths(e, domain, paths);
      log := log + [DomainEntriesCleared(domain, pathsCleared, e.now)];
      return Done;
    }

    /** The checks of FlagDomainFraudRisk that come before the gate. */
    method CheckFlag(e: Env, domain: Bytes, fraudRisk: u8, expires: nat, gov: Signed)
      returns (r: Outcome<Error>)
      ensures var spec := PreCheck(e, storage.Slots(), Own(),
                                   Call.FlagDomainFraudRisk(domain, fraudRisk, expires, gov));
              if r.Done? then spec.Success? else spec == Failure(r.error)
    {
      var valid := ValidateDomain(domain);
      :- valid;
      if fraudRisk > 2 {
        return Revert(InvalidDnsParameter);
      }
      if fraudRisk == 2 {
        if expires == 0 || expires <= e.now {
          return Revert(InvalidDnsParameter);
        }
      } else if expires != 0 {
        return Revert(InvalidDnsParameter);
      }
      :- RequireDomainExists(e, domain);
      return Done;
    }

    /** The write of FlagDomainFraudRisk. */
    method WriteFlag(e: Env, domain: Bytes, fraudRisk: u8, expires: nat)
      requires storage.logicContract == address
      modifies storage
      ensures var s, h := old(storage.Slots()), DomainHash(e.crypto, domain);
              storage.Slots() == s.(domains := s.domains[h := s.Domain(h).(fraudRisk := fraudRisk,
                                                                          suspensionExpiresAt := expires,
                                                                          exists_ := true)])
    {
      var dHash := DomainHash(e.crypto, domain);
      var entry := storage.Slots().Domain(dHash);
      var flagged := DomainEntry(entry.admin, entry.registeredAt, fraudRisk, expires, true);
      var written := storage.SetDomainEntry(address, dHash, flagged);
      assert written.Done?;
    }

    method FlagDomainFraudRisk(e: Env, domain: Bytes, fraudRisk: u8, expires: nat, gov: Signed)
      returns (r: Outcome<Error>)
      requires e.self == address
      modifies this, storage
      ensures Ran(e, old(storage.Slots()), old(Own()), old(log),
                  Call.FlagDomainFraudRisk(domain, fraudRisk, expires, gov),
                  storage.Slots(), Own(), log, r)
    {
      var checked := CheckFlag(e, domain, fraudRisk, expires, gov);
      :- checked;
      :- VerifyGovernanceQuorum(e, DNS_GOVERNANCE_BODY, gov);
      WriteFlag(e, domain, fraudRisk, expires);
      log := log + [DomainFraudRiskUpdated(domain, fraudRisk, expires, e.now)];
      return Done;
    }

    method GovernanceSetPath(e: Env, domain: Bytes, path: Bytes, policyCard: B256, gov: Signed)
      returns (r: Outcome<Error>)
      requires e.self == address
      modifies this, storage
      ensures Ran(e, old(storage.Slots()), old(Own()), old(log), Call.GovernanceSetPath(domain, path, policyCard, gov),
                  storage.Slots(), Own(), log, r)
    {
      var valid := ValidateDomain(domain);
      :- valid;
      :- RequireDomainExists(e, domain);
      if policyCard != ZERO && !storage.Slots().Card(policyCard).exists_ {
        return Revert(PolicyCardNotFound);
      }
      :- VerifyGovernanceQuorum(e, DNS_GOVERNANCE_BODY, gov);
      var key := PathKey(e.crypto, domain, path);
      var oldValue := storage.Slots().PolicyAddress(key);
      WritePath(key, policyCard);
      log := log + [PolicyAddressGovernanceSet(domain, path, policyCard, oldValue, e.now)];
      return Done;
    }

    /** The write of SetDnsGovernancePolicyAddress. */
    method WriteDnsPolicy(newPolicy: B256)
      requires storage.logicContract == address
      modifies storage
      ensures storage.Slots() == old(storage.Slots()).(dnsPolicy := newPolicy)
    {
      var written := storage.SetDnsGovernancePolicyAddress(address, newPolicy);
      assert written.Done?;
    }

    method SetDnsPolicy(e: Env, newPolicy: B256, gov: Signed) returns (r: Outcome<Error>)
      requires e.self == address
      modifies this, storage
      ensures Ran(e, old(storage.Slots()), old(Own()), old(log), Call.SetDnsPolicy(newPolicy, gov),
                  storage.Slots(), Own(), log, r)
    {
      if newPolicy == ZERO {
        return Revert(InvalidDnsParameter);
      }
      if !storage.Slots().PolicyExists(newPolicy) {
        return Revert(UnrecognizedPolicy);
      }
      var current := storage.dnsGovernancePolicyAddress;
      if newPolicy == current {
        return Revert(InvalidDnsParameter);
      }
      :- VerifyGovernanceQuorum(e, DNS_GOVERNANCE_BODY, gov);
      WriteDnsPolicy(newPolicy);
      log := log + [DnsGovernancePolicyAddressUpdated(current, newPolicy, e.now)];
      return Done;
    }

    // -------------------------------------------------------------------------
    // Dispatch and rollback (lib.rs)
    // -------------------------------------------------------------------------

    method DispatchCards(e: Env, c: Call) returns (r: Outcome<Error>)
      requires IsCardsCall(c)
      requires e.self == address
      modifies this, storage
      ensures Ran(e, old(storage.Slots()), old(Own()), old(log), c, storage.Slots(), Own(), log, r)
    {
      match c {
        case RegisterCard(card, cid, policy, stamp) =>
          r := RegisterCard(e, card, cid, policy, stamp);
        case UpdateHead(card, newCid, prevCid, stamp) =>
          r := UpdateHead(e, card, newCid, prevCid, stamp);
        case ClaimOpenOffer(offer, maxAcceptances, expiresAt, card, cid, policy, stamp) =>
          r := ClaimOpenOffer(e, offer, maxAcceptances, expiresAt, card, cid, policy, stamp);
        case RegisterAddressForward(old_, new_, stamp) =>
          r := RegisterAddressForward(e, old_, new_, stamp);
        case BatchUpdateCardHeads(policy, cards, prevCids, newCids, stamp) =>
          r := BatchUpdateCardHeads(e, policy, cards, prevCids, newCids, stamp);
        case RegisterSubCard(sub, master, head, docCid, stamp, adminPayload, adminSig) =>
          r := RegisterSubCard(e, sub, master, head, docCid, stamp, adminPayload, adminSig);
        case DeregisterSubCard(sub, stamp) =>
          r := DeregisterSubCard(e, sub, stamp);
        case RotateOnChainKeyScheme(policy, stamp, newMldsaKey, mldsaSig) =>
          r := RotateOnChainKeyScheme(e, policy, stamp, newMldsaKey, mldsaSig);
      }
    }

    method DispatchGovernance(e: Env, c: Call) returns (r: Outcome<Error>)
      requires IsGovernanceCall(c)
      requires e.self == address
      modifies this, storage
      ensures Ran(e, old(storage.Slots()), old(Own()), old(log), c, storage.Slots(), Own(), log, r)
    {
      match c {
        case RegisterPolicy(policy, key, gov) =>
          r := RegisterPolicy(e, policy, key, gov);
        case DeregisterPolicy(policy, gov) =>
          r := DeregisterPolicy(e, policy, gov);
        case AuthorizePress(policy, press, key, mldsaHash, gov) =>
          r := AuthorizePress(e, policy, press, key, mldsaHash, gov);
        case RevokePress(policy, press, gov) =>
          r := RevokePress(e, policy, press, gov);
        case RotateAuthorizerKey(policy, key, gov) =>
          r := RotateAuthorizerKey(e, policy, key, gov);
        case RotateGovernanceKeys(body, keysFlat, keyCount, quorum, gov) =>
          r := RotateGovernanceKeys(e, body, keysFlat, keyCount, quorum, gov);
        case SetProtocolVersion(newVersion, gov) =>
          r := SetProtocolVersion(e, newVersion, gov);
        case DisablePolicyDelete(gov) =>
          r := DisablePolicyDelete(e, gov);
        case ProposeLogicUpgrade(newAddress, gov) =>
          r := ProposeLogicUpgrade(e, newAddress, gov);
        case ConfirmLogicUpgrade(newAddress, gov) =>
          r := ConfirmLogicUpgrade(e, newAddress, gov);
        case CancelLogicUpgrade(gov) =>
          r := CancelLogicUpgrade(e, gov);
        case ProposeVerifierUpgrade(newAddress, gov) =>
          r := ProposeVerifierUpgrade(e, newAddress, gov);
        case ConfirmVerifierUpgrade(newAddress, gov) =>
          r := ConfirmVerifierUpgrade(e, newAddress, gov);
        case CancelVerifierUpgrade(gov) =>
          r := CancelVerifierUpgrade(e, gov);
      }
    }

    method DispatchDns(e: Env, c: Call) returns (r: Outcome<Error>)
      requires IsDnsCall(c)
      requires e.self == address
      modifies this, storage
      ensures Ran(e, old(storage.Slots()), old(Own()), old(log), c, storage.Slots(), Own(), log, r)
    {
      match c {
        case RegisterDomain(domain, admin, key, gov) =>
          r := RegisterDomain(e, domain, admin, key, gov);
        case DeregisterDomain(domain, gov) =>
          r := DeregisterDomain(e, domain, gov);
        case SetPath(domain, path, policyCard, admin, sub, stamp) =>
          r := SetPath(e, domain, path, policyCard, admin, sub, stamp);
        case RemovePath(domain, path, card, stamp, gov) =>
          r := RemovePath(e, domain, path, card, stamp, gov);
        case ClearDomainEntries(domain, paths, gov) =>
          r := ClearDomainEntries(e, domain, paths, gov);
        case FlagDomainFraudRisk(domain, fraudRisk, expires, gov) =>
          r := FlagDomainFraudRisk(e, domain, fraudRisk, expires, gov);
        case GovernanceSetPath(domain, path, policyCard, gov) =>
          r := GovernanceSetPath(e, domain, path, policyCard, gov);
        case SetDnsPolicy(newPolicy, gov) =>
          r := SetDnsPolicy(e, newPolicy, gov);
      }
    }

    method Dispatch(e: Env, c: Call) returns (r: Outcome<Error>)
      requires e.self == address
      modifies this, storage
      ensures Ran(e, old(storage.Slots()), old(Own()), old(log), c, storage.Slots(), Own(), log, r)
    {
      if IsCardsCall(c) {
        r := DispatchCards(e, c);
      } else if IsDnsCall(c) {
        r := DispatchDns(e, c);
      } else {
        r := DispatchGovernance(e, c);
      }
    }

    /** A whole transaction: the operation, and the chain's rollback if it reverts. */
    method Transact(e: Env, c: Call) returns (r: Outcome<Error>)
      requires e.self == address
      modifies this, storage
      ensures match Exec(e, old(storage.Slots()), old(Own()), c)
              case Success(fx) =>
                r == Done && storage.Slots() == fx.store && Own() == fx.logic && log == old(log) + fx.events
              case Failure(err) => r == Revert(err) && storage.Slots() == old(storage.Slots()) && Own() == old(Own())
                                   && log == old(log)
    {
      var slots, own, events := storage.Slots(), Own(), log;
      r := Dispatch(e, c);
      if r.Revert? {
        storage.Restore(slots);
        verifierModule := own.verifier;
        pendingVerifier := own.pendingVerifier;
        protocolVersion := own.protocolVersion;
        log := events;
      }
    }
  }

  /** What valid batch items are. */
  lemma {:induction false} BatchItemsValid(s: Store, policy: B256, cards: seq<B256>, prevCids: seq<Bytes>,
                                           newCids: seq<Bytes>, i: nat)
    requires i <= |cards| == |prevCids| == |newCids|
    requires BatchItems(s, policy, cards, prevCids, newCids, i).Success?
    ensures forall k :: i <= k < |cards| ==>
              && cards[k] !in cards[k + 1..]
              && |newCids[k]| <= MAX_CID_LEN
              && s.Card(cards[k]).exists_
              && s.Card(cards[k]).policy == policy
              && s.Card(cards[k]).logHead == prevCids[k]
    decreases |cards| - i
  {
    if i < |cards| {
      BatchItemsValid(s, policy, cards, prevCids, newCids, i + 1);
    }
  }
}
