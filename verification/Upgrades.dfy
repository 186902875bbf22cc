/**
 * Replacing the logic contract and an instance's verifier module
 * (contracts/logic-contract/src/upgrade_ops.rs): timelocks over whole runs, and what becomes of a
 * superseded instance.
 */
module Upgrades {
  import opened ProtocolTypes
  import opened Storage
  import opened Registry
  import opened Worlds
  import opened Steps
  import opened Governance
  import opened Permissions
  import opened Outcomes
  import opened Histories

  /** The two things that are replaced under a timelock. */
  datatype Slot = LogicSlot | VerifierSlot(at: Address)

  function Timelock(slot: Slot): nat {
    match slot
    case LogicSlot => LOGIC_UPGRADE_TIMELOCK_SECS
    case VerifierSlot(_) => VERIFIER_UPGRADE_TIMELOCK_SECS
  }

  function PendingOf(w: World, slot: Slot): Pending {
    match slot
    case LogicSlot => w.store.pending
    case VerifierSlot(at) => Get(w.logics, at, Logic(ZERO, NO_PENDING, "")).pendingVerifier
  }

  predicate Proposes(en: Entry, slot: Slot) {
    match slot
    case LogicSlot => en.call.ProposeLogicUpgrade?
    case VerifierSlot(at) => en.env.self == at && en.call.ProposeVerifierUpgrade?
  }

  predicate Confirms(en: Entry, slot: Slot) {
    match slot
    case LogicSlot => en.call.ConfirmLogicUpgrade?
    case VerifierSlot(at) => en.env.self == at && en.call.ConfirmVerifierUpgrade?
  }

  predicate Cancels(en: Entry, slot: Slot) {
    match slot
    case LogicSlot => en.call.CancelLogicUpgrade?
    case VerifierSlot(at) => en.env.self == at && en.call.CancelVerifierUpgrade?
  }

  predicate Touches(en: Entry, slot: Slot) {
    Proposes(en, slot) || Confirms(en, slot) || Cancels(en, slot)
  }

  predicate RotatesRoot(en: Entry) {
    en.call.RotateGovernanceKeys? && en.call.body == ROOT_POLICY_BODY
  }

  function RootVersion(s: Store): nat {
    s.KeysetOf(ROOT_POLICY_BODY).version
  }

  // ---------------------------------------------------------------------------
  // One call
  // ---------------------------------------------------------------------------

  /** What a call does to a pending upgrade, and what a confirmation demands of it. */
  ghost predicate Moves(w: World, en: Entry, slot: Slot) {
    var p, q := PendingOf(w, slot), PendingOf(Extend(w, en), slot);
    if Proposes(en, slot) then
      && p.address == ZERO && en.call.address != ZERO
      && q == Pending(en.call.address, en.env.now, RootVersion(w.store), NonceKey(w.crypto, en.call.gov.payload))
    else if Confirms(en, slot) then
      && p.address == en.call.address != ZERO
      && UpgradeReady(p, en.call.address, Timelock(slot), en.env.now, RootVersion(w.store)).Success?
      && q == NO_PENDING
    else if Cancels(en, slot) then q == NO_PENDING
    else q == p
  }

  lemma LogicMoves(w: World, en: Entry)
    requires Follows(w, en)
    ensures Moves(w, en, LogicSlot)
  {
    hide Admit;
    hide CardPreCheck;
    hide DnsPreCheck;
    hide PostCheck;
    Checks(w, en);
    hide LogicAfter;
    hide EventsOf;
    hide CardsAfter;
    hide SubCardsAfter;
    hide NonceKey;
  }

  lemma VerifierMoves(w: World, en: Entry, at: Address)
    requires Follows(w, en)
    ensures Moves(w, en, VerifierSlot(at))
  {
    hide Admit;
    hide CardPreCheck;
    hide DnsPreCheck;
    hide PostCheck;
    Checks(w, en);
    hide StoreAfter;
    hide EventsOf;
    hide NonceKey;
  }

  lemma SlotMoves(w: World, en: Entry, slot: Slot)
    requires Follows(w, en)
    ensures Moves(w, en, slot)
  {
    hide Follows;
    hide Moves;
    match slot {
      case LogicSlot => LogicMoves(w, en);
      case VerifierSlot(at) => VerifierMoves(w, en, at);
    }
  }

  /** Every operation on an upgrade uses up a nonce of its own, and nonces stay used. */
  lemma UpgradeNonce(w: World, en: Entry, slot: Slot)
    requires Follows(w, en)
    ensures w.store.usedNonces <= en.after.store.usedNonces
    ensures Touches(en, slot) ==>
              && NonceKey(w.crypto, en.call.gov.payload) !in w.store.usedNonces
              && NonceKey(w.crypto, en.call.gov.payload) in en.after.store.usedNonces
  {
    hide Admit;
    hide Follows;
    hide Sound;
    hide NonceKey;
    NonceStep(w, en);
    BeforeIsStore(w, en);
  }

  lemma BeforeIsStore(w: World, en: Entry)
    requires Follows(w, en)
    ensures en.before == w.store && en.env.crypto == w.crypto && w.now <= en.env.now && TimeOk(en.env.now)
    ensures en.env.self == w.store.logic && en.env.self in w.logics
  {
    OnlyCurrentLogicActs(w, en);
    hide Admit;
    hide StoreAfter;
    hide LogicAfter;
    hide EventsOf;
  }

  lemma RootVersionStep(w: World, en: Entry)
    requires Follows(w, en) && Keysets(w)
    ensures RootVersion(en.after.store) == RootVersion(w.store) + (if RotatesRoot(en) then 1 else 0)
  {
    hide Admit;
    hide Follows;
    KeysetStep(w, en, ROOT_POLICY_BODY);
    Tables(w, en);
    assert w.store.KeysetOf(ROOT_POLICY_BODY).version <= |w.history|;
  }

  // ---------------------------------------------------------------------------
  // Timelocks
  // ---------------------------------------------------------------------------

  /** Body 0 has voted for the call: a quorum of its keys signed the call's own payload. */
  ghost predicate RootSigned(x: Crypto, en: Entry) {
    VoteOn(en.call).Some? && VoteOn(en.call).value.body == 0 && VotedFor(x, en, en.before)
  }

  lemma TouchIsSigned(w: World, en: Entry, slot: Slot)
    requires Follows(w, en) && Touches(en, slot)
    ensures RootSigned(w.crypto, en)
  {
    hide Follows;
    hide Lawful;
    hide Does;
    hide VotedFor;
    FollowsDoes(w, en);
    FollowsLawful(w, en);
    LawfulEntryVote(en);
  }

  /** The `k`-th accepted call is the proposal that is pending now. */
  ghost predicate Stands(w: World, slot: Slot, k: nat) {
    var p := PendingOf(w, slot);
    && k < |w.history|
    && Proposes(w.history[k], slot) && TimeOk(w.history[k].env.now) && RootSigned(w.crypto, w.history[k])
    && p == Pending(w.history[k].call.address, w.history[k].env.now, RootVersion(w.history[k].before),
                    NonceKey(w.crypto, w.history[k].call.gov.payload))
    && (forall j :: k < j < |w.history| ==> !Touches(w.history[j], slot))
    && p.governanceVersion <= RootVersion(w.store)
    && (forall j :: k < j < |w.history| && RotatesRoot(w.history[j]) ==> p.governanceVersion < RootVersion(w.store))
    && p.nonce in w.store.usedNonces
  }

  /** Whatever is pending was proposed, and nothing has happened to it since. */
  ghost predicate PendingStands(w: World, slot: Slot) {
    PendingOf(w, slot).address != ZERO ==> exists k :: Stands(w, slot, k)
  }

  /**
   * The confirmation at `n` rests on the proposal at `k`: each with a root quorum of its own, the
   * same address, the timelock elapsed, nothing done to the slot and no root-key rotation in
   * between, and a different nonce.
   */
  ghost predicate RestsOn(x: Crypto, h: seq<Entry>, slot: Slot, k: nat, n: nat)
    requires n < |h| && Confirms(h[n], slot)
  {
    && k < n
    && Proposes(h[k], slot)
    && RootSigned(x, h[k]) && RootSigned(x, h[n])
    && h[k].call.address == h[n].call.address
    && h[k].env.now + Timelock(slot) <= h[n].env.now
    && (forall j :: k < j < n ==> !Touches(h[j], slot) && !RotatesRoot(h[j]))
    && NonceKey(x, h[k].call.gov.payload) != NonceKey(x, h[n].call.gov.payload)
  }

  ghost predicate Timelocked(w: World, slot: Slot) {
    forall n :: 0 <= n < |w.history| && Confirms(w.history[n], slot) ==>
      exists k :: RestsOn(w.crypto, w.history, slot, k, n)
  }

  lemma StandsStep(w: World, en: Entry, slot: Slot, k: nat)
    requires Follows(w, en) && Keysets(w) && Stands(w, slot, k) && !Touches(en, slot)
    ensures Stands(Extend(w, en), slot, k)
  {
    hide Admit;
    hide Follows;
    hide Proposes;
    hide Confirms;
    hide Cancels;
    hide NonceKey;
    SlotMoves(w, en, slot);
    UpgradeNonce(w, en, slot);
    RootVersionStep(w, en);
    assert Touches(en, slot) <==> Proposes(en, slot) || Confirms(en, slot) || Cancels(en, slot);
    hide Touches;
    hide RotatesRoot;
    hide RootVersion;
    hide RootSigned;
    hide Keysets;
    var h := w.history + [en];
    assert forall j :: 0 <= j < |w.history| ==> h[j] == w.history[j];
  }

  lemma ConfirmRests(w: World, en: Entry, slot: Slot, k: nat)
    requires Follows(w, en) && Stands(w, slot, k) && Confirms(en, slot)
    ensures RestsOn(w.crypto, w.history + [en], slot, k, |w.history|)
  {
    hide Admit;
    hide Follows;
    hide NonceKey;
    hide RootSigned;
    SlotMoves(w, en, slot);
    UpgradeNonce(w, en, slot);
    BeforeIsStore(w, en);
    TouchIsSigned(w, en, slot);
  }

  lemma ProposalStands(w: World, en: Entry, slot: Slot)
    requires Follows(w, en) && Proposes(en, slot)
    ensures Stands(Extend(w, en), slot, |w.history|)
  {
    hide Admit;
    hide Follows;
    hide NonceKey;
    hide RootSigned;
    SlotMoves(w, en, slot);
    UpgradeNonce(w, en, slot);
    BeforeIsStore(w, en);
    TouchIsSigned(w, en, slot);
    KeysetStep(w, en, ROOT_POLICY_BODY);
  }

  lemma PendingStep(w: World, en: Entry, slot: Slot)
    requires Follows(w, en) && Keysets(w) && PendingStands(w, slot)
    ensures PendingStands(Extend(w, en), slot)
  {
    hide Admit;
    hide Follows;
    hide Stands;
    hide Proposes;
    hide Confirms;
    hide Cancels;
    SlotMoves(w, en, slot);
    if Proposes(en, slot) {
      ProposalStands(w, en, slot);
    } else if !Touches(en, slot) && PendingOf(w, slot).address != ZERO {
      var k :| Stands(w, slot, k);
      StandsStep(w, en, slot, k);
    }
  }

  lemma RestsLonger(x: Crypto, h: seq<Entry>, en: Entry, slot: Slot, k: nat, n: nat)
    requires n < |h| && Confirms(h[n], slot) && RestsOn(x, h, slot, k, n)
    ensures (h + [en])[n] == h[n] && RestsOn(x, h + [en], slot, k, n)
  {
    hide NonceKey;
    hide Proposes;
    hide Confirms;
    hide Touches;
    hide RootSigned;
  }

  lemma TimelockedStep(w: World, en: Entry, slot: Slot)
    requires Follows(w, en) && PendingStands(w, slot) && Timelocked(w, slot)
    ensures Timelocked(Extend(w, en), slot)
  {
    hide Admit;
    hide Follows;
    hide Stands;
    hide RestsOn;
    var h := w.history + [en];
    forall n | 0 <= n < |h| && Confirms(h[n], slot) ensures exists k :: RestsOn(w.crypto, h, slot, k, n) {
      if n < |w.history| {
        assert Confirms(w.history[n], slot);
        var k :| RestsOn(w.crypto, w.history, slot, k, n);
        RestsLonger(w.crypto, w.history, en, slot, k, n);
      } else {
        SlotMoves(w, en, slot);
        var k :| Stands(w, slot, k);
        ConfirmRests(w, en, slot, k);
      }
    }
  }

  lemma IdleKeepsPending(w: World, w': World, slot: Slot)
    requires Idle(w, w') && PendingStands(w, slot)
    ensures PendingStands(w', slot)
  {
    hide NonceKey;
    hide Proposes;
    hide Touches;
    hide RotatesRoot;
    hide RootSigned;
    if PendingOf(w', slot).address != ZERO {
      assert PendingOf(w', slot) == PendingOf(w, slot);
      var k :| Stands(w, slot, k);
      assert Stands(w', slot, k);
    }
  }

  /**
   * The timelock over whole runs: every confirmed logic upgrade (and every confirmed verifier
   * upgrade of an instance) rests on a matching proposal made at least 604800 (172800) seconds
   * earlier, each signed by a root quorum, with no cancel, no second proposal and no root-key
   * rotation in between.
   */
  lemma {:induction false} TimelockedAlways(t: Trace, slot: Slot)
    requires Valid(t)
    ensures PendingStands(End(t), slot) && Timelocked(End(t), slot)
  {
    hide Admit;
    hide Follows;
    hide Step;
    hide Stands;
    hide RestsOn;
    if t.Then? {
      var en := LastStep(t);
      TimelockedAlways(t.prev, slot);
      NamedAlways(t.prev);
      if en.Some? {
        PendingStep(End(t.prev), en.value, slot);
        TimelockedStep(End(t.prev), en.value, slot);
      } else {
        IdleKeepsPending(End(t.prev), End(t), slot);
      }
    }
  }

  /** A proposal overtaken by a root-key rotation is never what a later confirmation rests on. */
  lemma OvertakenIsNeverConfirmed(t: Trace, slot: Slot, rotation: nat, n: nat) returns (k: nat)
    requires Valid(t)
    requires var h := End(t).history;
             rotation < n < |h| && RotatesRoot(h[rotation]) && Confirms(h[n], slot)
    ensures rotation < k && RestsOn(End(t).crypto, End(t).history, slot, k, n)
  {
    hide Admit;
    hide Valid;
    hide End;
    hide Confirms;
    hide Proposes;
    hide NonceKey;
    hide RootSigned;
    TimelockedAlways(t, slot);
    var h := End(t).history;
    k :| RestsOn(End(t).crypto, h, slot, k, n);
    assert rotation != k by {
      ProposalIsNoRotation(h[k], slot);
    }
  }

  lemma ProposalIsNoRotation(en: Entry, slot: Slot)
    ensures !(Proposes(en, slot) && RotatesRoot(en))
  {
  }

  /** Nothing is pending after a confirmation. */
  lemma ConfirmLeavesNothing(w: World, en: Entry, slot: Slot)
    requires Follows(w, en) && Confirms(en, slot)
    ensures PendingOf(Extend(w, en), slot) == NO_PENDING
  {
    hide Follows;
    SlotMoves(w, en, slot);
  }

  /** The logic address changes by a confirmation only, and to the address that was pending. */
  lemma LogicChangesByConfirmation(w: World, en: Entry)
    requires Follows(w, en) && en.after.store.logic != w.store.logic
    ensures Confirms(en, LogicSlot) && en.after.store.logic == en.call.address == w.store.pending.address
  {
    hide Admit;
    LogicMoves(w, en);
    GatedFrame(w, en);
    hide CardsAfter;
    hide SubCardsAfter;
    hide EventsOf;
  }

  /** So does an instance's verifier module; other instances are not affected by a call. */
  lemma VerifierChangesByConfirmation(w: World, en: Entry, a: Address)
    requires Follows(w, en) && a in w.logics && Extend(w, en).logics[a].verifier != w.logics[a].verifier
    ensures Confirms(en, VerifierSlot(a))
    ensures Extend(w, en).logics[a].verifier == en.call.address == w.logics[a].pendingVerifier.address
  {
    hide Admit;
    hide Moves;
    VerifierMoves(w, en, a);
    assert Extend(w, en).logics[a].verifier == en.call.address && Confirms(en, VerifierSlot(a)) by {
      hide StoreAfter;
      hide EventsOf;
    }
    hide Follows;
    VerifierConfirmMatches(w, en, a);
  }

  lemma VerifierConfirmMatches(w: World, en: Entry, a: Address)
    requires a in w.logics && Confirms(en, VerifierSlot(a)) && Moves(w, en, VerifierSlot(a))
    ensures en.call.address == w.logics[a].pendingVerifier.address
  {
  }

  // ---------------------------------------------------------------------------
  // Superseded instances
  // ---------------------------------------------------------------------------

  /** Every write operation of an instance that storage does not name reverts. */
  lemma SupersededReverts(e: Env, s: Store, l: Logic, c: Call)
    requires e.self != s.logic
    ensures Exec(e, s, l, c).Failure?
  {
    hide PreCheck;
    hide Authorize;
    hide PostCheck;
    hide GateOf;
  }

  /** Storage does not name `a` at any point of the continuation. */
  ghost predicate NeverNamed(t: Trace, txs: seq<Tx>, a: Address) {
    forall k :: 0 <= k <= |txs| ==> End(Longer(t, txs[..k])).store.logic != a
  }

  lemma NeverNamedBefore(t: Trace, txs: seq<Tx>, a: Address)
    requires txs != [] && NeverNamed(t, txs, a)
    ensures NeverNamed(t, txs[..|txs| - 1], a)
    ensures End(Longer(t, txs)).store.logic != a && End(Longer(t, txs[..|txs| - 1])).store.logic != a
  {
    hide Longer;
    hide End;
    var n := |txs| - 1;
    assert txs[..n + 1] == txs;
    forall k | 0 <= k <= n ensures End(Longer(t, txs[..n][..k])).store.logic != a {
      assert txs[..n][..k] == txs[..k];
    }
  }

  /**
   * A superseded instance is frozen: in every continuation of every run in which storage does not
   * name it, its verifier, its pending verifier upgrade and its protocol version never change, and
   * no accepted call, hence no change to storage, comes from it.
   */
  lemma {:induction false} SupersededIsFrozen(t: Trace, txs: seq<Tx>, a: Address)
    requires Valid(Longer(t, txs)) && a in End(t).logics && NeverNamed(t, txs, a)
    ensures var w, w' := End(t), End(Longer(t, txs));
            && a in w'.logics && w'.logics[a] == w.logics[a]
            && |w.history| <= |w'.history|
            && forall k :: |w.history| <= k < |w'.history| ==> w'.history[k].env.self != a
    decreases |txs|
  {
    hide Admit;
    hide Follows;
    hide Step;
    hide NeverNamed;
    if txs != [] {
      var t' := Longer(t, txs);
      var en := LastStep(t');
      NeverNamedBefore(t, txs, a);
      SupersededIsFrozen(t, txs[..|txs| - 1], a);
      if en.Some? {
        BeforeIsStore(End(t'.prev), en.value);
      }
    }
  }

  /** A transaction that asks to make `a` the logic contract. */
  predicate Reinstates(tx: Tx, a: Address) {
    tx.Transact? && tx.call.ConfirmLogicUpgrade? && tx.call.address == a
  }

  /** Without even a request for it, storage does not name the instance again. */
  lemma {:induction false} UnaskedIsUnnamed(t: Trace, txs: seq<Tx>, a: Address)
    requires Valid(Longer(t, txs)) && End(t).store.logic != a
    requires forall i :: 0 <= i < |txs| ==> !Reinstates(txs[i], a)
    ensures NeverNamed(t, txs, a)
    decreases |txs|
  {
    hide Admit;
    hide Follows;
    hide Step;
    if txs != [] {
      var n, t' := |txs| - 1, Longer(t, txs);
      var en := LastStep(t');
      UnaskedIsUnnamed(t, txs[..n], a);
      assert txs[..n][..n] == txs[..n];
      assert End(t'.prev).store.logic != a;
      if en.Some? && en.value.after.store.logic != End(t'.prev).store.logic {
        LogicChangesByConfirmation(End(t'.prev), en.value);
        assert !Reinstates(txs[n], a);
      }
      forall k | 0 <= k <= |txs| ensures End(Longer(t, txs[..k])).store.logic != a {
        if k <= n {
          assert txs[..n][..k] == txs[..k];
        } else {
          assert txs[..k] == txs;
        }
      }
    }
  }
}
