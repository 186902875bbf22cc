/**
 * Press keys over whole runs: an entry is active exactly while an authorization of it stands, and
 * nothing is accepted under an entry that has been revoked.
 */
module PressKeys {
  import opened Wrappers
  import opened ProtocolTypes
  import opened PayloadParser
  import opened Storage
  import opened Registry
  import opened Worlds
  import opened Signatures
  import opened Permissions
  import opened Outcomes
  import opened Sequences
  import opened Histories

  predicate Revokes(c: Call, policy: B256, press: B256) {
    c.RevokePress? && c.policy == policy && c.press == press
  }

  /** The `n`-th entry authorizes the pair, and up to the `m`-th nothing replaces or revokes that. */
  ghost predicate Stands(h: seq<Entry>, n: nat, m: nat, policy: B256, press: B256)
    requires m <= |h|
  {
    && n < m && Authorizes(h[n].call, policy, press)
    && forall j :: n < j < m ==> !Authorizes(h[j].call, policy, press) && !Revokes(h[j].call, policy, press)
  }

  /** The signature of a press that the call rests on: its gate or its co-signature. */
  function PressUse(s: Store, c: Call): Option<PressOp> {
    match c
    case RegisterAddressForward(old_, _, stamp) =>
      Some(PressOp(s.Card(old_).policy, stamp, "register_address_forward"))
    case _ => PressOpOf(s, c)
  }

  predicate UsesPress(s: Store, c: Call, policy: B256, press: B256) {
    match PressUse(s, c)
    case Some(PressOp(p, stamp, _)) => p == policy && stamp.press == press
    case None => false
  }

  // ---------------------------------------------------------------------------
  // One call
  // ---------------------------------------------------------------------------

  lemma UseIsSigned(e: Env, s: Store, l: Logic, c: Call)
    requires Allowed(e, s, l, c)
    ensures match PressUse(s, c)
            case Some(PressOp(policy, stamp, op)) => PressSigned(e, s, l, policy, stamp, op)
            case None => true
  {
    hide CardInOrder;
    hide GovernanceInOrder;
    hide DnsInOrder;
    hide VoteCarries;
    hide Says;
  }

  /** The entry is as that authorization made it, but for the sequence. */
  predicate Holds(entry: PressEntry, en: Entry) {
    && en.call.AuthorizePress?
    && entry.key == en.call.key && entry.mldsaHash == en.call.mldsaHash && entry.authorizedAt == en.env.now
  }

  /** What one call does to who may press, and with which key. */
  ghost predicate Turns(en: Entry, old_: PressEntry, now: PressEntry, policy: B256, press: B256) {
    if Authorizes(en.call, policy, press) then now.active && Holds(now, en)
    else if Revokes(en.call, policy, press) then
      old_.active && now == old_.(active := false, revokedAt := en.env.now)
    else now == old_.(nextSequence := now.nextSequence)
  }

  lemma ActiveMoves(en: Entry, policy: B256, press: B256)
    requires Lawful(en) && en.before.keySchemePhase == 0
    ensures en.after.store.keySchemePhase == 0
    ensures Turns(en, en.before.Press(policy, press), en.after.store.Press(policy, press), policy, press)
  {
    hide VoteCarries;
    hide PressConsents;
    hide CardInOrder;
    hide DnsInOrder;
    hide PressOpOf;
    assert PressMoves(en.env, en.before, en.call, en.after.store, policy, press);
    hide RegistryMoves;
  }

  // ---------------------------------------------------------------------------
  // Whole runs
  // ---------------------------------------------------------------------------

  /** The entry is active exactly while an authorization stands, and then holds the key it named. */
  ghost predicate Backed(entry: PressEntry, h: seq<Entry>, m: nat, policy: B256, press: B256)
    requires m <= |h|
  {
    && (entry.active <==> exists n :: 0 <= n < m && Stands(h, n, m, policy, press))
    && forall n :: 0 <= n < m && Stands(h, n, m, policy, press) ==> Holds(entry, h[n])
  }

  /** No press has been authorized and no key scheme is on offer. */
  predicate NoPresses(first: Store) {
    first.presses == map[] && first.keySchemePhase == 0
  }

  lemma StandsStep(h: seq<Entry>, n: nat, m: nat, policy: B256, press: B256)
    requires 0 < m <= |h|
    ensures Stands(h, n, m, policy, press) <==>
              if Authorizes(h[m - 1].call, policy, press) then n == m - 1
              else n < m - 1 && Stands(h, n, m - 1, policy, press) && !Revokes(h[m - 1].call, policy, press)
  {
  }

  lemma BackedStep(old_: PressEntry, now: PressEntry, h: seq<Entry>, m: nat, policy: B256, press: B256)
    requires 0 < m <= |h| && Backed(old_, h, m - 1, policy, press) && Turns(h[m - 1], old_, now, policy, press)
    ensures Backed(now, h, m, policy, press)
  {
    hide Stands;
    hide Revokes;
    forall n | 0 <= n < m && Stands(h, n, m, policy, press) ensures now.active && Holds(now, h[n]) {
      StandsStep(h, n, m, policy, press);
    }
    if Authorizes(h[m - 1].call, policy, press) {
      StandsStep(h, m - 1, m, policy, press);
    } else if now.active {
      var before := m - 1;
      var n :| 0 <= n < before && Stands(h, n, before, policy, press);
      StandsStep(h, n, m, policy, press);
    }
  }

  lemma NothingBacked(entry: PressEntry, h: seq<Entry>, policy: B256, press: B256)
    requires !entry.active
    ensures Backed(entry, h, 0, policy, press)
  {
  }

  lemma {:induction false} BackedAlways(x: Crypto, first: Store, h: seq<Entry>, m: nat, policy: B256, press: B256)
    requires LawfulHistory(x, first, h) && NoPresses(first) && m <= |h|
    ensures StoreAt(first, h, m).keySchemePhase == 0
    ensures Backed(StoreAt(first, h, m).Press(policy, press), h, m, policy, press)
    decreases m
  {
    hide LawfulHistory;
    hide Turns;
    hide Backed;
    hide Stands;
    if m == 0 {
      NothingBacked(first.Press(policy, press), h, policy, press);
    } else {
      BackedAlways(x, first, h, m - 1, policy, press);
      EntryIsLawful(x, first, h, m - 1);
      hide Lawful;
      ActiveMoves(h[m - 1], policy, press);
      var old_, now := StoreAt(first, h, m - 1).Press(policy, press), StoreAt(first, h, m).Press(policy, press);
      BackedStep(old_, now, h, m, policy, press);
    }
  }

  lemma {:induction false} FirstIsBare(t: Trace)
    ensures NoPresses(FirstOf(t))
  {
    if t.Then? {
      FirstIsBare(t.prev);
    }
  }

  /**
   * An entry of a run is active exactly while some authorization of it has been neither replaced
   * nor revoked, and holds the key and the hash which that authorization named.
   */
  lemma ActiveExactly(t: Trace, policy: B256, press: B256)
    requires Valid(t)
    ensures Backed(End(t).store.Press(policy, press), End(t).history, |End(t).history|, policy, press)
  {
    hide Valid;
    hide End;
    hide Backed;
    hide LawfulHistory;
    LawfulAlways(t);
    FirstIsBare(t);
    BackedAlways(End(t).crypto, FirstOf(t), End(t).history, |End(t).history|, policy, press);
  }

  /** The press has signed the call with the key that the `n`-th entry authorized, by vote of body 1. */
  ghost predicate RestsOn(x: Crypto, first: Store, h: seq<Entry>, n: nat, m: nat, use: PressOp)
    requires n < m < |h|
  {
    && Stands(h, n, m, use.policy, use.stamp.press)
    && VoteOn(h[n].call) == Some(Vote(1, h[n].call.gov)) && VotedFor(x, h[n], StoreAt(first, h, n))
    && x.verify(h[m].logic.verifier, x.keccak(use.stamp.payload), use.stamp.sig, h[n].call.key)
    && Says(use.stamp.payload, "op", Ascii(use.op))
  }

  lemma UseRests(x: Crypto, first: Store, h: seq<Entry>, m: nat) returns (n: nat)
    requires LawfulHistory(x, first, h) && NoPresses(first) && m < |h| && PressUse(h[m].before, h[m].call).Some?
    ensures n < m && RestsOn(x, first, h, n, m, PressUse(h[m].before, h[m].call).value)
  {
    hide LawfulHistory;
    hide Stands;
    hide VotedFor;
    hide Says;
    hide PressUse;
    EntryIsLawful(x, first, h, m);
    var en, use := h[m], PressUse(h[m].before, h[m].call).value;
    UseIsSigned(en.env, en.before, en.logic, en.call);
    hide Lawful;
    BackedAlways(x, first, h, m, use.policy, use.stamp.press);
    n :| 0 <= n < m && Stands(h, n, m, use.policy, use.stamp.press);
    LawfulVote(x, first, h, n);
  }

  /**
   * Every accepted press operation and address forward of a run is signed with a key that a quorum
   * of body 1 authorized for that policy and press, and that has not been revoked since.
   */
  lemma UsesRestOnAuthorizations(t: Trace, m: nat) returns (n: nat)
    requires Valid(t) && m < |End(t).history|
    requires PressUse(End(t).history[m].before, End(t).history[m].call).Some?
    ensures var h := End(t).history;
            n < m && RestsOn(End(t).crypto, FirstOf(t), h, n, m, PressUse(h[m].before, h[m].call).value)
  {
    hide Valid;
    hide End;
    hide RestsOn;
    hide LawfulHistory;
    hide PressUse;
    LawfulAlways(t);
    FirstIsBare(t);
    n := UseRests(End(t).crypto, FirstOf(t), End(t).history, m);
  }

  lemma RevokedAt(x: Crypto, first: Store, h: seq<Entry>, n: nat, m: nat, policy: B256, press: B256)
    requires LawfulHistory(x, first, h) && NoPresses(first) && n < m <= |h|
    requires Revokes(h[n].call, policy, press)
    requires forall j :: n < j < m ==> !Authorizes(h[j].call, policy, press)
    ensures !StoreAt(first, h, m).Press(policy, press).active
    ensures m < |h| ==> !UsesPress(h[m].before, h[m].call, policy, press)
  {
    hide LawfulHistory;
    BackedAlways(x, first, h, m, policy, press);
    if m < |h| {
      EntryIsLawful(x, first, h, m);
      UseIsSigned(h[m].env, h[m].before, h[m].logic, h[m].call);
    }
    hide Allowed;
    hide Changes;
    hide PressUse;
  }

  /**
   * Revocation holds: after an accepted revocation, as long as the pair is not authorized again, the
   * entry is inactive and no call of the run rests on it.
   */
  lemma RevocationHolds(t: Trace, n: nat, m: nat, policy: B256, press: B256)
    requires Valid(t) && n < m <= |End(t).history|
    requires Revokes(End(t).history[n].call, policy, press)
    requires forall j :: n < j < m ==> !Authorizes(End(t).history[j].call, policy, press)
    ensures !StoreAt(FirstOf(t), End(t).history, m).Press(policy, press).active
    ensures m < |End(t).history| ==>
              !UsesPress(End(t).history[m].before, End(t).history[m].call, policy, press)
  {
    hide Valid;
    hide End;
    hide LawfulHistory;
    hide UsesPress;
    hide Revokes;
    hide Authorizes;
    LawfulAlways(t);
    FirstIsBare(t);
    RevokedAt(End(t).crypto, FirstOf(t), End(t).history, n, m, policy, press);
  }
}
