/**
 * What the storage contract guarantees by itself: over every sequence of calls, by any callers
 * with any arguments, whatever code the successive logic contracts run.
 */
module StorageRuns {
  import opened Wrappers
  import opened ProtocolTypes
  import opened Storage

  datatype Invocation = Invocation(caller: Address, call: StorageCall)

  /** A failed call changes nothing. */
  function After(s: Store, caller: Address, c: StorageCall): Store {
    match Apply(s, caller, c)
    case Success(t) => t
    case Failure(_) => s
  }

  function Run(s: Store, calls: seq<Invocation>): Store
    decreases |calls|
  {
    if calls == [] then s
    else Run(After(s, calls[0].caller, calls[0].call), calls[1..])
  }

  /** Existing cards stay, and a set forward never moves. */
  ghost predicate KeepsCards(a: Store, b: Store) {
    && (forall c: B256 :: a.Card(c).exists_ ==> b.Card(c).exists_)
    && (forall c: B256 :: a.Card(c).forwardTo != ZERO ==> b.Card(c).forwardTo == a.Card(c).forwardTo)
  }

  /** Domains stay registered; a deregistration stamp never returns to zero. */
  ghost predicate KeepsRegistrations(a: Store, b: Store) {
    && (forall c: B256 :: a.SubCard(c).deregisteredAt != 0 ==> b.SubCard(c).deregisteredAt != 0)
    && (forall h: B256 :: a.Domain(h).exists_ ==> b.Domain(h).exists_)
  }

  /** The contract stays initialized, nonces stay used, and delete-disable is for ever. */
  ghost predicate KeepsGovernance(a: Store, b: Store) {
    && (a.logic != ZERO ==> b.logic != ZERO)
    && a.usedNonces <= b.usedNonces
    && (a.deleteDisabled ==> b.deleteDisabled && forall p: B256 :: a.PolicyExists(p) ==> b.PolicyExists(p))
  }

  /** Every permanent fact of `a` still holds in `b`. */
  ghost predicate Keeps(a: Store, b: Store) {
    KeepsCards(a, b) && KeepsRegistrations(a, b) && KeepsGovernance(a, b)
  }

  /** Which setters touch which tables. */
  lemma SetterFrame(s: Store, c: StorageCall)
    requires !c.Initialize? && ApplySetter(s, c).Success?
    ensures var t := ApplySetter(s, c).value;
            && (c.SetCardEntry? || c.SetForwardTo? || c.UpdateCardHead? || t.cards == s.cards)
            && (c.SetSubCardEntry? || t.subCards == s.subCards)
            && (c.SetDomainEntry? || t.domains == s.domains)
            && (c.SetPolicyAuthorizerKey? || c.DeletePolicyAuthorizerKey? || t.policyKeys == s.policyKeys)
            && (c.MarkNonceUsed? || t.usedNonces == s.usedNonces)
            && (c.SetLogicContract? || t.logic == s.logic)
            && (c.DisablePolicyDeletePermanently? || t.deleteDisabled == s.deleteDisabled)
  {
    match c {
      case SetCardEntry(_, _, _, _, _) =>
      case SetForwardTo(_, _) =>
      case UpdateCardHead(_, _, _) =>
      case SetPressAuthEntry(_, _, _) =>
      case IncrementPressSequence(_, _) =>
      case SetSubCardEntry(_, _) =>
      case SetOpenOfferCount(_, _) =>
      case SetPolicyAuthorizerKey(_, _) =>
      case DeletePolicyAuthorizerKey(_) =>
      case SetGovernanceKeyset(_, _) =>
      case MarkNonceUsed(_) =>
      case SetLogicContract(_) =>
      case SetPendingLogicUpgrade(_) =>
      case ClearPendingLogicUpgrade =>
      case SetKeySchemePhase(_) =>
      case DisablePolicyDeletePermanently =>
      case SetDomainEntry(_, _) =>
      case SetPolicyAddress(_, _) =>
      case SetDnsAdminCardKey(_, _) =>
      case SetDnsGovernancePolicyAddress(_) =>
    }
  }

  lemma CardSetterKeepsCards(s: Store, c: StorageCall)
    requires (c.SetCardEntry? || c.SetForwardTo? || c.UpdateCardHead?) && ApplySetter(s, c).Success?
    ensures KeepsCards(s, ApplySetter(s, c).value)
  {
  }

  lemma SetterKeepsCards(s: Store, c: StorageCall)
    requires !c.Initialize? && ApplySetter(s, c).Success?
    ensures KeepsCards(s, ApplySetter(s, c).value)
  {
    hide ApplySetter;
    if c.SetCardEntry? || c.SetForwardTo? || c.UpdateCardHead? {
      CardSetterKeepsCards(s, c);
    } else {
      SetterFrame(s, c);
    }
  }

  lemma EntrySetterKeepsRegistrations(s: Store, c: StorageCall)
    requires (c.SetSubCardEntry? || c.SetDomainEntry?) && ApplySetter(s, c).Success?
    ensures KeepsRegistrations(s, ApplySetter(s, c).value)
  {
  }

  lemma SetterKeepsRegistrations(s: Store, c: StorageCall)
    requires !c.Initialize? && ApplySetter(s, c).Success?
    ensures KeepsRegistrations(s, ApplySetter(s, c).value)
  {
    hide ApplySetter;
    if c.SetSubCardEntry? || c.SetDomainEntry? {
      EntrySetterKeepsRegistrations(s, c);
    } else {
      SetterFrame(s, c);
    }
  }

  predicate SetsGovernance(c: StorageCall) {
    c.SetPolicyAuthorizerKey? || c.DeletePolicyAuthorizerKey? || c.MarkNonceUsed? || c.SetLogicContract?
    || c.DisablePolicyDeletePermanently?
  }

  lemma GovernanceSetterKeepsGovernance(s: Store, c: StorageCall)
    requires SetsGovernance(c) && ApplySetter(s, c).Success?
    ensures KeepsGovernance(s, ApplySetter(s, c).value)
  {
  }

  lemma SetterKeepsGovernance(s: Store, c: StorageCall)
    requires !c.Initialize? && ApplySetter(s, c).Success?
    ensures KeepsGovernance(s, ApplySetter(s, c).value)
  {
    hide ApplySetter;
    if SetsGovernance(c) {
      GovernanceSetterKeepsGovernance(s, c);
    } else {
      SetterFrame(s, c);
    }
  }

  lemma CallKeeps(s: Store, caller: Address, c: StorageCall)
    ensures Keeps(s, After(s, caller, c))
  {
    hide ApplySetter;
    if !c.Initialize? && Apply(s, caller, c).Success? {
      SetterKeepsCards(s, c);
      SetterKeepsRegistrations(s, c);
      SetterKeepsGovernance(s, c);
    }
  }

  /** Storage monotonicity: no run of calls undoes a permanent fact. */
  lemma {:induction false} RunKeeps(s: Store, calls: seq<Invocation>)
    ensures Keeps(s, Run(s, calls))
    decreases |calls|
  {
    if calls != [] {
      CallKeeps(s, calls[0].caller, calls[0].call);
      RunKeeps(After(s, calls[0].caller, calls[0].call), calls[1..]);
    }
  }

  /** Once initialized, the contract can never be initialized again. */
  lemma NoReinitialization(s: Store, calls: seq<Invocation>, caller: Address, logic: Address, key: Bytes)
    requires s.logic != ZERO
    ensures Apply(Run(s, calls), caller, StorageCall.Initialize(logic, key)) == Failure(InvalidAddress)
  {
    RunKeeps(s, calls);
  }

  /** A run without the calls of one address. */
  function Without(calls: seq<Invocation>, a: Address): seq<Invocation>
    decreases |calls|
  {
    if calls == [] then []
    else (if calls[0].caller == a then [] else [calls[0]]) + Without(calls[1..], a)
  }

  /** Only the logic contract of the moment changes anything, and only it names its successor. */
  lemma OnlyLogicWrites(s: Store, caller: Address, c: StorageCall)
    requires s.logic != ZERO
    ensures caller != s.logic ==> After(s, caller, c) == s
    ensures After(s, caller, c).logic != s.logic ==> c == StorageCall.SetLogicContract(After(s, caller, c).logic)
  {
    hide ApplySetter;
    if !c.Initialize? && Apply(s, caller, c).Success? {
      SetterFrame(s, c);
      NewLogicIsNamed(s, c);
    }
  }

  lemma NewLogicIsNamed(s: Store, c: StorageCall)
    requires !c.Initialize? && ApplySetter(s, c).Success?
    ensures c.SetLogicContract? ==> ApplySetter(s, c).value.logic == c.newLogic
  {
  }

  /** `a` is not the logic contract at any point of the run. */
  ghost predicate StaysOutside(s: Store, calls: seq<Invocation>, a: Address) {
    forall k :: 0 <= k <= |calls| ==> Run(s, calls[..k]).logic != a
  }

  lemma StaysOutsideAfterFirst(s: Store, calls: seq<Invocation>, a: Address)
    requires calls != [] && StaysOutside(s, calls, a)
    ensures s.logic != a && StaysOutside(After(s, calls[0].caller, calls[0].call), calls[1..], a)
  {
    hide After;
    assert calls[..0] == [];
    var t, rest := After(s, calls[0].caller, calls[0].call), calls[1..];
    forall k | 0 <= k <= |rest| ensures Run(t, rest[..k]).logic != a {
      assert calls[..k + 1][0] == calls[0] && calls[..k + 1][1..] == rest[..k];
      assert Run(s, calls[..k + 1]).logic != a;
    }
  }

  /**
   * As long as `a` is not the logic contract, its calls can be struck out of the run, whatever they
   * ask for: even asking to become the logic contract changes nothing.
   */
  lemma {:induction false} OutsidersArePowerless(s: Store, calls: seq<Invocation>, a: Address)
    requires s.logic != ZERO && StaysOutside(s, calls, a)
    ensures Run(s, calls) == Run(s, Without(calls, a))
    decreases |calls|
  {
    if calls != [] {
      var t := After(s, calls[0].caller, calls[0].call);
      var kept := Without(calls[1..], a);
      StaysOutsideAfterFirst(s, calls, a);
      OnlyLogicWrites(s, calls[0].caller, calls[0].call);
      CallKeeps(s, calls[0].caller, calls[0].call);
      hide After;
      OutsidersArePowerless(t, calls[1..], a);
      if calls[0].caller == a {
        assert Without(calls, a) == kept;
      } else {
        assert Without(calls, a) == [calls[0]] + kept;
        assert Without(calls, a)[1..] == kept;
      }
    }
  }

  /** An address that nobody else names cannot make itself the logic contract. */
  lemma {:induction false} NobodyPromotesItself(s: Store, calls: seq<Invocation>, a: Address)
    requires s.logic != ZERO && s.logic != a
    requires forall i :: i in calls && i.call == StorageCall.SetLogicContract(a) ==> i.caller == a
    ensures StaysOutside(s, calls, a)
    decreases |calls|
  {
    if calls != [] {
      var t, rest := After(s, calls[0].caller, calls[0].call), calls[1..];
      OnlyLogicWrites(s, calls[0].caller, calls[0].call);
      CallKeeps(s, calls[0].caller, calls[0].call);
      hide After;
      assert calls[0] in calls;
      NobodyPromotesItself(t, rest, a);
      forall k | 0 <= k <= |calls| ensures Run(s, calls[..k]).logic != a {
        if k > 0 {
          assert calls[..k][0] == calls[0] && calls[..k][1..] == rest[..k - 1];
          assert Run(t, rest[..k - 1]).logic != a;
        }
      }
    }
  }

  // ---------------------------------------------------------------------------
  // Deregistration times
  // ---------------------------------------------------------------------------

  /** The call sets another non-zero deregistration time on a sub-card. */
  predicate Redates(s: Store, c: StorageCall, sub: B256) {
    && c.SetSubCardEntry? && c.subCard == sub
    && c.subCardEntry.deregisteredAt !in {0, s.SubCard(sub).deregisteredAt}
    && |c.subCardEntry.registrationLogHead| <= MAX_CID_LEN && |c.subCardEntry.docCid| <= MAX_CID_LEN
  }

  /**
   * The contract's own documentation calls deregistered_at write-once (lines 20 and 132). Exactly
   * these calls move it once it is set: an entry with another non-zero time, written by the logic
   * contract. Freezing it takes the logic contract's own checks (see SubCards.DeadStaysDead).
   */
  lemma DeregisteredAtMovesExactly(s: Store, caller: Address, c: StorageCall, sub: B256)
    requires s.logic != ZERO && s.SubCard(sub).deregisteredAt != 0
    ensures After(s, caller, c).SubCard(sub).deregisteredAt != s.SubCard(sub).deregisteredAt
            <==> caller == s.logic && Redates(s, c, sub)
  {
    hide ApplySetter;
    OnlyLogicWrites(s, caller, c);
    if !c.Initialize? {
      if c.SetSubCardEntry? {
        SubCardSetter(s, c);
      } else if ApplySetter(s, c).Success? {
        SetterFrame(s, c);
      }
    }
  }

  lemma SubCardSetter(s: Store, c: StorageCall)
    requires c.SetSubCardEntry?
    ensures var old_, new_ := s.SubCard(c.subCard), c.subCardEntry;
            ApplySetter(s, c).Success? <==>
              && (old_.deregisteredAt != 0 ==> new_.deregisteredAt != 0)
              && |new_.registrationLogHead| <= MAX_CID_LEN && |new_.docCid| <= MAX_CID_LEN
    ensures ApplySetter(s, c).Success? ==>
              ApplySetter(s, c).value.subCards == s.subCards[c.subCard := c.subCardEntry]
  {
  }

  /** So for every set time there is a call that moves it. */
  lemma DeregisteredAtCanMove(s: Store, sub: B256, e: SubCardEntry)
    requires s.logic != ZERO
    requires s.SubCard(sub) == e && e.deregisteredAt != 0
    ensures exists c :: After(s, s.logic, c).SubCard(sub).deregisteredAt !in {0, e.deregisteredAt}
  {
    var moved := e.(deregisteredAt := e.deregisteredAt + 1, registrationLogHead := [], docCid := []);
    var c := StorageCall.SetSubCardEntry(sub, moved);
    DeregisteredAtMovesExactly(s, s.logic, c, sub);
    CallKeeps(s, s.logic, c);
    hide After;
    assert After(s, s.logic, c).SubCard(sub).deregisteredAt !in {0, e.deregisteredAt};
  }
}
