/**
 * Who may write the policy-address table (contracts/logic-contract/src/dns_ops.rs), for one call
 * and over whole runs, and what a deregistered domain still lets a press do.
 */
module DomainAdmins {
  import opened Wrappers
  import opened ProtocolTypes
  import opened PayloadParser
  import opened Storage
  import opened Registry
  import opened Worlds
  import opened Signatures
  import opened Permissions
  import opened Outcomes
  import opened Histories
  import CanonicalJson
  import PrintedObjects
  import Payloads

  // ---------------------------------------------------------------------------
  // One call
  // ---------------------------------------------------------------------------

  /** An accepted SetPath: by the registered admin of an unsuspended domain, to an existing card. */
  lemma PathRights(e: Env, s: Store, l: Logic, c: Call, fx: Effects)
    requires Does(e, s, l, c, fx) && c.SetPath?
    ensures var d := s.Domain(e.crypto.keccak(c.domain));
            && d.exists_
            && !(d.fraudRisk == 2 && e.now < d.suspensionExpiresAt)
            && c.admin == d.admin
            && (c.sub == 0 || (s.SubCard(c.sub).active && s.SubCard(c.sub).master == c.admin))
            && s.Card(c.policyCard).exists_
    ensures fx.store.PolicyAddress(e.crypto.keccak(c.domain + [0] + c.path)) == c.policyCard
  {
    hide Exec;
    hide Authorized;
    AcceptedExactly(e, s, l, c);
    PolicyAddressOutcome(e, s, l, c, fx, EntryKey(e.crypto, c.domain, c.path));
  }

  /** An accepted RegisterDomain: a DNS governance card takes a domain that had no admin. */
  lemma RegistrationRights(e: Env, s: Store, l: Logic, c: Call, fx: Effects)
    requires Does(e, s, l, c, fx) && c.RegisterDomain?
    ensures s.Card(c.admin).exists_ && s.Card(c.admin).policy == s.dnsPolicy != 0
    ensures var d := s.Domain(e.crypto.keccak(c.domain)); d.exists_ ==> d.admin == 0
    ensures fx.store.Domain(e.crypto.keccak(c.domain)) == DomainEntry(c.admin, e.now, 0, 0, true)
    ensures |c.key| == 64 && fx.store.AdminKey(c.admin) == c.key
  {
    hide Exec;
    hide Authorized;
    AcceptedExactly(e, s, l, c);
    DomainOutcome(e, s, l, c, fx, e.crypto.keccak(c.domain));
    AdminKeyOutcome(e, s, l, c, fx, c.admin);
  }

  /** An accepted RemovePath zeroes a set entry of a domain; an accepted GovernanceSetPath writes one. */
  lemma RemovalRights(e: Env, s: Store, l: Logic, c: Call, fx: Effects)
    requires Does(e, s, l, c, fx) && (c.RemovePath? || c.GovernanceSetPath?)
    ensures var key := e.crypto.keccak(c.domain + [0] + c.path);
            && s.Domain(e.crypto.keccak(c.domain)).exists_
            && (c.RemovePath? ==>
                  s.PolicyAddress(key) != 0 && fx.store.PolicyAddress(key) == 0
                  && (c.card != 0 ==> s.Card(c.card).exists_ && s.Card(c.card).policy == s.dnsPolicy != 0))
            && (c.GovernanceSetPath? ==>
                  fx.store.PolicyAddress(key) == c.policyCard
                  && (c.policyCard != 0 ==> s.Card(c.policyCard).exists_))
  {
    hide Exec;
    hide Authorized;
    AcceptedExactly(e, s, l, c);
    PolicyAddressOutcome(e, s, l, c, fx, EntryKey(e.crypto, c.domain, c.path));
  }

  /**
   * Deregistration leaves no admin, yet it does not close the domain: a press of the DNS policy can
   * still set its paths, by naming no admin and no sub-card, exactly as long as the domain is not
   * suspended. Naming any card but zero is what is refused.
   */
  lemma DeregisteredStaysOpen(e: Env, s: Store, l: Logic, c: Call, fx: Effects, e': Env, c': Call)
    requires Does(e, s, l, c, fx) && c.DeregisterDomain?
    requires c'.SetPath? && c'.domain == c.domain && c'.sub == 0 && e'.crypto == e.crypto
    ensures Exec(e', fx.store, fx.logic, c').Success? <==>
              && e'.self == s.logic
              && c'.admin == 0
              && |c'.path| <= 512 && s.Card(c'.policyCard).exists_ && s.dnsPolicy != 0
              && !Suspended(e', s.Domain(e.crypto.keccak(c.domain)))
              && PressAllows(e', s, l, s.dnsPolicy, c'.stamp, "set_policy_address")
  {
    hide Exec;
    hide Says;
    hide SaysNumber;
    AcceptedExactly(e, s, l, c);
    AcceptedExactly(e', fx.store, fx.logic, c');
    AcceptedChanges(e, s, l, c, fx);
    assert DomainMoves(e, s, c, fx.store, e.crypto.keccak(c.domain));
    assert CardMoves(s, c, fx.store, c'.policyCard);
    assert PolicyKeyMoves(s, c, fx.store, s.dnsPolicy);
    assert PressMoves(e, s, c, fx.store, s.dnsPolicy, c'.stamp.press);
  }

  /** So whatever path a press could set before, it can set afterwards. */
  lemma SettableStaysSettable(e: Env, s: Store, l: Logic, c: Call, fx: Effects, e': Env, c': Call)
    requires Does(e, s, l, c, fx) && c.DeregisterDomain?
    requires c'.SetPath? && c'.domain == c.domain && e'.crypto == e.crypto && Exec(e', s, l, c').Success?
    ensures Exec(e', fx.store, fx.logic, c'.(admin := 0, sub := 0)).Success?
  {
    hide Exec;
    hide PressAllows;
    AcceptedExactly(e', s, l, c');
    DeregisteredStaysOpen(e, s, l, c, fx, e', c'.(admin := 0, sub := 0));
  }

  /** A press payload for an op, as the press builds it, says so. */
  lemma BuiltPayload(op: string) returns (payload: Bytes)
    requires forall i :: 0 <= i < |op| ==> 32 as char <= op[i] < 128 as char && op[i] != '"' && op[i] != '\\'
    ensures Says(payload, "op", Ascii(op)) && SaysNumber(payload, "sequence", 0)
  {
    var members := Payloads.PressPayload(Ascii(op), [], [], 0, []);
    payload := CanonicalJson.Canonicalize(CanonicalJson.Obj(members));
    Payloads.PressPayloadComesBack(Ascii(op), [], [], 0, []);
    Payloads.NameIsPlain(op);
    PrintedObjects.PlainKeyVerbatim(Ascii(op));
    assert Payloads.FinalOp(Ascii(op), []) == CanonicalJson.Str(Ascii(op));
    assert VerifyOp(payload, Ascii(op)) == Success(true);
    NumberSaid(payload, "sequence", 0);
  }

  lemma SetPathAccepted(e: Env, s: Store, l: Logic, c: Call)
    requires c.SetPath? && e.self == s.logic && DnsInOrder(e, s, c)
    requires PressAllows(e, s, l, s.dnsPolicy, c.stamp, "set_policy_address")
    ensures Exec(e, s, l, c).Success?
  {
    hide Exec;
    hide DnsInOrder;
    hide PressAllows;
    AcceptedExactly(e, s, l, c);
  }

  /** A deregistered domain, a press of the DNS policy, and a path that it sets. */
  lemma PathWithoutAdmin() returns (e: Env, s: Store, l: Logic, c: Call)
    ensures c.SetPath? && Registered(e, s, c.domain) && s.Domain(e.crypto.keccak(c.domain)).admin == 0
    ensures Exec(e, s, l, c).Success?
  {
    var payload := BuiltPayload("set_policy_address");
    var key: Bytes := seq(64, _ => 1);
    e := Env(Crypto(b => |b|, (_, _, _, _) => true), 1, 1, 0);
    s := BLANK.(logic := 1, dnsPolicy := 5, policyKeys := map[5 := key],
                presses := map[(5, 7) := PressEntry(key, 0, 0, true, 0, 1, 0)],
                cards := map[9 := CardEntry([], 5, 7, 0, true)],
                domains := map[1 := DomainEntry(0, 1, 0, 0, true)]);
    l := Logic(2, NO_PENDING, "");
    c := Call.SetPath([97], [], 9, 0, 0, Stamp(7, payload, []));
    hide Exec;
    hide Says;
    hide SaysNumber;
    hide Allowed;
    SetPathAccepted(e, s, l, c);
  }

  // ---------------------------------------------------------------------------
  // Whole runs
  // ---------------------------------------------------------------------------

  predicate Registers(x: Crypto, c: Call, hash: B256) {
    c.RegisterDomain? && x.keccak(c.domain) == hash
  }

  predicate Deregisters(x: Crypto, c: Call, hash: B256) {
    c.DeregisterDomain? && x.keccak(c.domain) == hash
  }

  /** The `n`-th entry registers the domain, and up to the `m`-th nothing registers or deregisters it. */
  ghost predicate Stands(x: Crypto, h: seq<Entry>, n: nat, m: nat, hash: B256)
    requires m <= |h|
  {
    && n < m && Registers(x, h[n].call, hash)
    && forall j :: n < j < m ==> !Registers(x, h[j].call, hash) && !Deregisters(x, h[j].call, hash)
  }

  predicate Names(d: DomainEntry, en: Entry) {
    en.call.RegisterDomain? && d.admin == en.call.admin && d.registeredAt == en.env.now
  }

  /** What one call does to a domain's admin. */
  ghost predicate Turns(x: Crypto, en: Entry, old_: DomainEntry, now: DomainEntry, hash: B256) {
    if Registers(x, en.call, hash) then now.exists_ && Names(now, en)
    else if Deregisters(x, en.call, hash) then old_.exists_ && now == old_.(admin := 0)
    else now == old_.(fraudRisk := now.fraudRisk, suspensionExpiresAt := now.suspensionExpiresAt)
  }

  lemma DomainTurns(x: Crypto, en: Entry, hash: B256)
    requires Lawful(en) && en.env.crypto == x
    ensures Turns(x, en, en.before.Domain(hash), en.after.store.Domain(hash), hash)
  {
    hide Authorized;
    hide CardInOrder;
    hide GovernanceInOrder;
    assert DomainMoves(en.env, en.before, en.call, en.after.store, hash);
    hide RegistryMoves;
  }

  /** A domain with an admin owes it to a registration that stands, and such a registration names the admin. */
  ghost predicate Backed(x: Crypto, d: DomainEntry, h: seq<Entry>, m: nat, hash: B256)
    requires m <= |h|
  {
    && (d.admin != 0 ==> exists n :: 0 <= n < m && Stands(x, h, n, m, hash))
    && forall n :: 0 <= n < m && Stands(x, h, n, m, hash) ==> d.exists_ && Names(d, h[n])
  }

  lemma StandsStep(x: Crypto, h: seq<Entry>, n: nat, m: nat, hash: B256)
    requires 0 < m <= |h|
    ensures Stands(x, h, n, m, hash) <==>
              if Registers(x, h[m - 1].call, hash) then n == m - 1
              else n < m - 1 && Stands(x, h, n, m - 1, hash) && !Deregisters(x, h[m - 1].call, hash)
  {
  }

  lemma BackedStep(x: Crypto, old_: DomainEntry, now: DomainEntry, h: seq<Entry>, m: nat, hash: B256)
    requires 0 < m <= |h| && Backed(x, old_, h, m - 1, hash) && Turns(x, h[m - 1], old_, now, hash)
    ensures Backed(x, now, h, m, hash)
  {
    hide Stands;
    hide Deregisters;
    forall n | 0 <= n < m && Stands(x, h, n, m, hash) ensures now.exists_ && Names(now, h[n]) {
      StandsStep(x, h, n, m, hash);
    }
    if Registers(x, h[m - 1].call, hash) {
      StandsStep(x, h, m - 1, m, hash);
    } else if now.admin != 0 {
      var before := m - 1;
      var n :| 0 <= n < before && Stands(x, h, n, before, hash);
      StandsStep(x, h, n, m, hash);
    }
  }

  lemma NothingBacked(x: Crypto, d: DomainEntry, h: seq<Entry>, hash: B256)
    requires d.admin == 0
    ensures Backed(x, d, h, 0, hash)
  {
  }

  lemma {:induction false} BackedAlways(x: Crypto, first: Store, h: seq<Entry>, m: nat, hash: B256)
    requires LawfulHistory(x, first, h) && first.domains == map[] && m <= |h|
    ensures Backed(x, StoreAt(first, h, m).Domain(hash), h, m, hash)
    decreases m
  {
    hide LawfulHistory;
    hide Turns;
    hide Backed;
    hide Stands;
    if m == 0 {
      NothingBacked(x, first.Domain(hash), h, hash);
    } else {
      BackedAlways(x, first, h, m - 1, hash);
      EntryIsLawful(x, first, h, m - 1);
      hide Lawful;
      DomainTurns(x, h[m - 1], hash);
      BackedStep(x, StoreAt(first, h, m - 1).Domain(hash), StoreAt(first, h, m).Domain(hash), h, m, hash);
    }
  }

  lemma {:induction false} FirstIsBare(t: Trace)
    ensures FirstOf(t).domains == map[]
  {
    if t.Then? {
      FirstIsBare(t.prev);
    }
  }

  /** The path is set in the name of the card that body 2 registered for the domain and left in place. */
  ghost predicate RestsOn(x: Crypto, first: Store, h: seq<Entry>, n: nat, m: nat)
    requires n < m < |h| && h[m].call.SetPath?
  {
    && Stands(x, h, n, m, x.keccak(h[m].call.domain))
    && VoteOn(h[n].call) == Some(Vote(2, h[n].call.gov)) && VotedFor(x, h[n], StoreAt(first, h, n))
    && h[n].call.admin == h[m].call.admin
  }

  lemma PathRests(x: Crypto, first: Store, h: seq<Entry>, m: nat) returns (n: nat)
    requires LawfulHistory(x, first, h) && first.domains == map[] && m < |h|
    requires h[m].call.SetPath? && h[m].call.admin != 0
    ensures n < m && RestsOn(x, first, h, n, m)
  {
    hide LawfulHistory;
    hide Stands;
    hide VotedFor;
    hide Authorized;
    hide Changes;
    hide CardInOrder;
    hide GovernanceInOrder;
    EntryIsLawful(x, first, h, m);
    var hash := x.keccak(h[m].call.domain);
    BackedAlways(x, first, h, m, hash);
    n :| 0 <= n < m && Stands(x, h, n, m, hash);
    LawfulVote(x, first, h, n);
    StandsRegisters(x, h, n, m, hash);
  }

  lemma StandsRegisters(x: Crypto, h: seq<Entry>, n: nat, m: nat, hash: B256)
    requires m <= |h| && Stands(x, h, n, m, hash)
    ensures n < m && h[n].call.RegisterDomain?
  {
  }

  /**
   * Every path that a run sets in the name of a card is set in the name of the domain's admin: the
   * card for which a quorum of body 2 registered the domain, and which has not been removed since.
   */
  lemma PathsRestOnRegistrations(t: Trace, m: nat) returns (n: nat)
    requires Valid(t) && m < |End(t).history|
    requires End(t).history[m].call.SetPath? && End(t).history[m].call.admin != 0
    ensures n < m && RestsOn(End(t).crypto, FirstOf(t), End(t).history, n, m)
  {
    hide Valid;
    hide End;
    hide RestsOn;
    hide LawfulHistory;
    LawfulAlways(t);
    FirstIsBare(t);
    n := PathRests(End(t).crypto, FirstOf(t), End(t).history, m);
  }
}
