/**
 * The event log is enough: an indexer that starts empty and folds the events rebuilds the card,
 * sub-card, offer and domain tables of the storage contract, and finds every event consistent
 * with the ones before it.
 */
module Replay {
  import opened Wrappers
  import opened ProtocolTypes
  import opened Storage
  import opened Registry
  import opened Worlds
  import opened Steps

  /** What an indexer keeps. */
  datatype View = View(
    cards: map<B256, CardEntry>,
    subCards: map<B256, SubCardEntry>,
    offers: map<B256, nat>,
    domains: map<B256, DomainEntry>)

  const EMPTY_VIEW := View(map[], map[], map[], map[])

  /** The part of storage that the log determines. */
  function Shown(s: Store): View {
    View(s.cards, s.subCards, s.offers, s.domains)
  }

  function SeeCard(v: View, ev: Event): Option<View> {
    match ev
    case CardRegistered(card, policy, press, cid, _) =>
      if card in v.cards then None
      else Some(v.(cards := v.cards[card := CardEntry(cid, policy, press, ZERO, true)]))
    case CardHeadUpdated(card, prevCid, newCid, press, _) =>
      if card !in v.cards || v.cards[card].logHead != prevCid then None
      else Some(v.(cards := v.cards[card := v.cards[card].(logHead := newCid, lastPress := press)]))
    case AddressTransition(old_, new_, _) =>
      if old_ !in v.cards || new_ !in v.cards || v.cards[old_].forwardTo != ZERO then None
      else Some(v.(cards := v.cards[old_ := v.cards[old_].(forwardTo := new_)]))
    case _ => Some(v)
  }

  function SeeSubCard(v: View, ev: Event): Option<View> {
    match ev
    case SubCardRegistered(sub, master, docCid, at) =>
      // The registration event carries no head: it is the master's head at this point of the log.
      if master !in v.cards || sub in v.subCards then None
      else Some(v.(subCards := v.subCards[sub := SubCardEntry(master, v.cards[master].logHead, docCid, true, at, 0)]))
    case SubCardDeregistered(sub, master, at) =>
      var entry := Get(v.subCards, sub, NO_SUB_CARD);
      if !entry.active || entry.master != master then None
      else Some(v.(subCards := v.subCards[sub := entry.(active := false, deregisteredAt := at)]))
    case OpenOfferClaimed(offer, card, useCount, _) =>
      if card in v.cards || useCount != Get(v.offers, offer, 0) + 1 then None
      else Some(v.(offers := v.offers[offer := useCount]))
    case _ => Some(v)
  }

  function SeeDomain(x: Crypto, v: View, ev: Event): Option<View> {
    match ev
    case DomainRegistered(domain, admin, at) =>
      var h := DomainHash(x, domain);
      if Get(v.domains, h, NO_DOMAIN).admin != ZERO || admin !in v.cards then None
      else Some(v.(domains := v.domains[h := DomainEntry(admin, at, 0, 0, true)]))
    case DomainDeregistered(domain, _) =>
      var h := DomainHash(x, domain);
      if h !in v.domains then None
      else Some(v.(domains := v.domains[h := v.domains[h].(admin := ZERO)]))
    case DomainFraudRiskUpdated(domain, risk, expires, _) =>
      var h := DomainHash(x, domain);
      if h !in v.domains then None
      else Some(v.(domains := v.domains[h := v.domains[h].(fraudRisk := risk, suspensionExpiresAt := expires)]))
    case _ => Some(v)
  }

  /** Take in one event; None when it contradicts the view. */
  function See(x: Crypto, v: View, ev: Event): Option<View> {
    match SeeCard(v, ev)
    case None => None
    case Some(v1) =>
      match SeeSubCard(v1, ev)
      case None => None
      case Some(v2) => SeeDomain(x, v2, ev)
  }

  /** Take in a stretch of the log, oldest event first. */
  function Replayed(x: Crypto, v: View, log: seq<Event>): Option<View> {
    if log == [] then Some(v)
    else
      match Replayed(x, v, log[..|log| - 1])
      case None => None
      case Some(u) => See(x, u, log[|log| - 1])
  }

  lemma ReplayedOne(x: Crypto, v: View, ev: Event)
    ensures Replayed(x, v, [ev]) == See(x, v, ev)
  {
    assert [ev][..0] == [];
  }

  lemma {:induction false} ReplayedAppend(x: Crypto, v: View, a: seq<Event>, b: seq<Event>)
    requires Replayed(x, v, a).Some?
    ensures Replayed(x, v, a + b) == Replayed(x, Replayed(x, v, a).value, b)
    decreases |b|
  {
    if b == [] {
      assert a + b == a;
    } else {
      var n := |b| - 1;
      assert (a + b)[..|a + b| - 1] == a + b[..n];
      ReplayedAppend(x, v, a, b[..n]);
    }
  }

  // ---------------------------------------------------------------------------
  // One call
  // ---------------------------------------------------------------------------

  /** The events an accepted call logged, taken in by a reader of the state it found. */
  ghost predicate Replays(w: World, en: Entry) {
    Replayed(w.crypto, Shown(w.store), en.after.events) == Some(Shown(en.after.store))
  }

  lemma CardEventsOnly(w: World, en: Entry)
    requires Follows(w, en)
    requires en.call.RegisterCard? || en.call.UpdateHead? || en.call.ClaimOpenOffer? || en.call.RegisterAddressForward?
          || en.call.BatchUpdateCardHeads? || en.call.RegisterSubCard? || en.call.DeregisterSubCard?
    ensures en.after.events == CardEvents(en.env, en.gated, en.call)
  {
    hide Admit;
    hide StoreAfter;
    hide LogicAfter;
    hide CardEvents;
    assert GovernanceEvents(en.env, en.gated, en.logic, en.call) == [];
    assert DnsEvents(en.env, en.gated, en.call) == [];
  }

  lemma ReplaysCreation(w: World, en: Entry)
    requires Follows(w, en) && CardsExist(w.store) && TablesOk(w)
    requires en.call.RegisterCard? || en.call.ClaimOpenOffer?
    ensures Replays(w, en)
  {
    hide Admit;
    hide Follows;
    hide GovernancePreCheck;
    hide DnsPreCheck;
    hide PostCheck;
    Tables(w, en);
    Checks(w, en);
    CardEventsOnly(w, en);
    var v := Shown(w.store);
    if en.call.RegisterCard? {
      ReplayedOne(w.crypto, v, en.after.events[0]);
    } else {
      var first, second := en.after.events[0], en.after.events[1];
      assert en.after.events == [first] + [second];
      ReplayedOne(w.crypto, v, first);
      ReplayedAppend(w.crypto, v, [first], [second]);
      ReplayedOne(w.crypto, See(w.crypto, v, first).value, second);
    }
  }

  lemma SeeHead(x: Crypto, v: View, card: B256, prevCid: Bytes, newCid: Bytes, press: B256, now: nat)
    requires card in v.cards && v.cards[card].logHead == prevCid
    ensures See(x, v, CardHeadUpdated(card, prevCid, newCid, press, now))
            == Some(v.(cards := WithHead(v.cards, card, newCid, press)))
  {
  }

  /** The head events of a batch, read one by one. */
  lemma {:induction false} ReplaysBatch(x: Crypto, v: View, batch: seq<B256>, prevCids: seq<Bytes>, newCids: seq<Bytes>,
                                        press: B256, now: nat, n: nat)
    requires n <= |batch| == |prevCids| == |newCids| && Batches.Distinct(batch)
    requires forall k :: 0 <= k < |batch| ==> batch[k] in v.cards && v.cards[batch[k]].logHead == prevCids[k]
    ensures Replayed(x, v, HeadEvents(batch, prevCids, newCids, press, now, n))
            == Some(v.(cards := WithHeads(v.cards, batch, newCids, press, n)))
  {
    hide See;
    hide WithHead;
    if n > 0 {
      var events := HeadEvents(batch, prevCids, newCids, press, now, n);
      ReplaysBatch(x, v, batch, prevCids, newCids, press, now, n - 1);
      Batches.HeadsWritten(v.cards, batch, newCids, press, n - 1);
      assert events[..|events| - 1] == HeadEvents(batch, prevCids, newCids, press, now, n - 1);
      assert batch[n - 1] !in batch[..n - 1];
      SeeHead(x, v.(cards := WithHeads(v.cards, batch, newCids, press, n - 1)),
              batch[n - 1], prevCids[n - 1], newCids[n - 1], press, now);
    }
  }

  lemma ReplaysHeads(w: World, en: Entry)
    requires Follows(w, en) && CardsExist(w.store)
    requires en.call.UpdateHead? || en.call.BatchUpdateCardHeads?
    ensures Replays(w, en)
  {
    hide Admit;
    hide Follows;
    hide GovernancePreCheck;
    hide DnsPreCheck;
    Tables(w, en);
    Checks(w, en);
    CardEventsOnly(w, en);
    var c := en.call;
    if c.UpdateHead? {
      ReplayedOne(w.crypto, Shown(w.store), en.after.events[0]);
    } else {
      Batches.ValidItemsAreDistinct(en.gated, c.policy, c.cards, c.prevCids, c.newCids);
      ReplaysBatch(w.crypto, Shown(w.store), c.cards, c.prevCids, c.newCids, c.stamp.press, en.env.now, |c.cards|);
    }
  }

  lemma ReplaysForwardOrSubCard(w: World, en: Entry)
    requires Follows(w, en) && CardsExist(w.store) && TablesOk(w)
    requires en.call.RegisterAddressForward? || en.call.RegisterSubCard? || en.call.DeregisterSubCard?
    ensures Replays(w, en)
  {
    hide Admit;
    hide Follows;
    hide GovernancePreCheck;
    hide DnsPreCheck;
    hide AdminSignature;
    Tables(w, en);
    Checks(w, en);
    CardEventsOnly(w, en);
    ReplayedOne(w.crypto, Shown(w.store), en.after.events[0]);
  }

  lemma DnsEventsOnly(w: World, en: Entry)
    requires Follows(w, en) && (en.call.RegisterDomain? || en.call.DeregisterDomain? || en.call.FlagDomainFraudRisk?)
    ensures en.after.events == DnsEvents(en.env, en.gated, en.call) && en.env.crypto == w.crypto
  {
    hide Admit;
    hide StoreAfter;
    hide LogicAfter;
    hide DnsEvents;
    assert CardEvents(en.env, en.gated, en.call) == [];
    assert GovernanceEvents(en.env, en.gated, en.logic, en.call) == [];
  }

  lemma ReplaysDomain(w: World, en: Entry)
    requires Follows(w, en) && CardsExist(w.store) && TablesOk(w)
    requires en.call.RegisterDomain? || en.call.DeregisterDomain? || en.call.FlagDomainFraudRisk?
    ensures Replays(w, en)
  {
    hide Admit;
    hide Follows;
    hide CardPreCheck;
    hide GovernancePreCheck;
    hide PostCheck;
    hide DomainHash;
    Tables(w, en);
    Checks(w, en);
    DnsEventsOnly(w, en);
    ReplayedOne(w.crypto, Shown(w.store), en.after.events[0]);
  }

  /** An event that says nothing about the four tables. */
  predicate Silent(ev: Event) {
    !(ev.CardRegistered? || ev.CardHeadUpdated? || ev.AddressTransition? || ev.SubCardRegistered?
      || ev.SubCardDeregistered? || ev.OpenOfferClaimed? || ev.DomainRegistered? || ev.DomainDeregistered?
      || ev.DomainFraudRiskUpdated?)
  }

  predicate ChangesNoTable(c: Call) {
    !(c.RegisterCard? || c.UpdateHead? || c.ClaimOpenOffer? || c.RegisterAddressForward? || c.BatchUpdateCardHeads?
      || c.RegisterSubCard? || c.DeregisterSubCard? || c.RegisterDomain? || c.DeregisterDomain?
      || c.FlagDomainFraudRisk?)
  }

  lemma SilentEvents(e: Env, s: Store, l: Logic, c: Call)
    requires ChangesNoTable(c)
    ensures forall ev :: ev in EventsOf(e, s, l, c) ==> Silent(ev)
  {
    assert CardEvents(e, s, c) == [];
    forall ev | ev in GovernanceEvents(e, s, l, c) ensures Silent(ev) {
    }
    forall ev | ev in DnsEvents(e, s, c) ensures Silent(ev) {
    }
    hide CardEvents;
    hide GovernanceEvents;
    hide DnsEvents;
  }

  lemma {:induction false} SilentReplay(x: Crypto, v: View, log: seq<Event>)
    requires forall ev :: ev in log ==> Silent(ev)
    ensures Replayed(x, v, log) == Some(v)
  {
    if log != [] {
      SilentReplay(x, v, log[..|log| - 1]);
      assert log[|log| - 1] in log;
    }
  }

  lemma ReplaysNothing(w: World, en: Entry)
    requires Follows(w, en) && ChangesNoTable(en.call)
    ensures Replays(w, en)
  {
    hide Admit;
    hide StoreAfter;
    hide LogicAfter;
    hide EventsOf;
    SilentEvents(en.env, en.gated, en.logic, en.call);
    SilentReplay(w.crypto, Shown(w.store), en.after.events);
    Tables(w, en);
  }

  lemma ReplaysStep(w: World, en: Entry)
    requires Follows(w, en) && CardsExist(w.store) && TablesOk(w)
    ensures Replays(w, en)
  {
    hide Admit;
    hide Follows;
    hide Replays;
    var c := en.call;
    if ChangesNoTable(c) {
      ReplaysNothing(w, en);
    } else if c.RegisterCard? || c.ClaimOpenOffer? {
      ReplaysCreation(w, en);
    } else if c.UpdateHead? || c.BatchUpdateCardHeads? {
      ReplaysHeads(w, en);
    } else if c.RegisterDomain? || c.DeregisterDomain? || c.FlagDomainFraudRisk? {
      ReplaysDomain(w, en);
    } else {
      ReplaysForwardOrSubCard(w, en);
    }
  }

  // ---------------------------------------------------------------------------
  // Whole runs
  // ---------------------------------------------------------------------------

  /**
   * Event replay: after every run, folding the log from empty rebuilds the four tables exactly,
   * and no event contradicts those before it.
   */
  lemma {:induction false} ReplayRebuilds(t: Trace)
    requires Valid(t)
    ensures Replayed(End(t).crypto, EMPTY_VIEW, Log(End(t).history)) == Some(Shown(End(t).store))
  {
    hide Admit;
    hide Follows;
    hide Step;
    hide See;
    hide Log;
    if t.Then? {
      var en := LastStep(t);
      var w := End(t.prev);
      ReplayRebuilds(t.prev);
      if en.Some? {
        CardsExistAlways(t.prev);
        TablesAlways(t.prev);
        ReplaysStep(w, en.value);
        LogExtend(w.history, en.value);
        ReplayedAppend(w.crypto, EMPTY_VIEW, Log(w.history), en.value.after.events);
      }
    } else {
      EmptyLog();
    }
  }

  lemma EmptyLog()
    ensures Log([]) == []
  {
  }
}
