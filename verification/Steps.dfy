/** What one accepted call does to the card table, stated once for the run invariants. */
module Steps {
  import opened ProtocolTypes
  import opened Storage
  import opened Registry
  import opened Worlds
  import Batches

  /** The checks an accepted call has passed; the gate left every slot they read alone. */
  lemma Checks(w: World, en: Entry)
    requires Follows(w, en)
    ensures CardPreCheck(en.env, en.before, en.logic, en.call).Success?
    ensures GovernancePreCheck(en.env, en.before, en.logic, en.call).Success?
    ensures DnsPreCheck(en.env, en.before, en.call).Success?
    ensures PostCheck(en.env, en.gated, en.call).Success?
    ensures en.gated == en.before.(presses := en.gated.presses, usedNonces := en.gated.usedNonces)
  {
    Stages(w, en);
    GatedFrame(w, en);
    hide Admit;
    hide CardPreCheck;
    hide GovernancePreCheck;
    hide DnsPreCheck;
    hide PostCheck;
    hide GateOf;
    hide Authorize;
  }

  /** The tables an accepted call leaves, each from the table it found. */
  lemma Tables(w: World, en: Entry)
    requires Follows(w, en)
    ensures en.after.store.cards == CardsAfter(en.gated, en.call)
    ensures en.after.store.subCards == SubCardsAfter(en.env.now, en.gated, en.call)
    ensures en.after.store.offers == OffersAfter(en.gated, en.call)
    ensures en.after.store.domains == DomainsAfter(en.env, en.gated, en.call)
    ensures w.store.cards == en.gated.cards && w.store.subCards == en.gated.subCards
    ensures w.store.offers == en.gated.offers && w.store.domains == en.gated.domains
    ensures TimeOk(en.env.now) && |w.history| + 1 < U32_RANGE && en.before == w.store
  {
    Checks(w, en);
    hide Admit;
    hide CardPreCheck;
    hide GovernancePreCheck;
    hide DnsPreCheck;
    hide PostCheck;
    hide CardsAfter;
    hide SubCardsAfter;
    hide OffersAfter;
    hide DomainsAfter;
  }

  /** Nothing but a registration or a claim brings a card into being. */
  function NewCards(c: Call): set<B256> {
    match c
    case RegisterCard(card, _, _, _) => {card}
    case ClaimOpenOffer(_, _, _, card, _, _, _) => {card}
    case _ => {}
  }

  /** Every card that was ever written exists. */
  ghost predicate CardsExist(s: Store) {
    forall a :: a in s.cards ==> s.cards[a].exists_
  }

  /** What no call does to a card that is there. */
  ghost predicate CardsGrow(s: Store, t: Store, added: set<B256>) {
    && t.cards.Keys == s.cards.Keys + added
    && added !! s.cards.Keys
    && (forall a :: a in s.cards ==> t.cards[a].policy == s.cards[a].policy)
    && (forall a :: a in s.cards && s.cards[a].forwardTo != ZERO ==> t.cards[a].forwardTo == s.cards[a].forwardTo)
  }

  lemma BatchCards(w: World, en: Entry)
    requires Follows(w, en) && CardsExist(w.store) && en.call.BatchUpdateCardHeads?
    ensures CardsExist(en.after.store) && CardsGrow(w.store, en.after.store, {})
  {
    hide Admit;
    hide Follows;
    hide CardPreCheck;
    hide GovernancePreCheck;
    hide DnsPreCheck;
    Tables(w, en);
    Checks(w, en);
    var c, s := en.call, en.gated;
    Batches.ValidItemsAreDistinct(s, c.policy, c.cards, c.prevCids, c.newCids);
    hide PostCheck;
    forall k | 0 <= k < |c.cards| ensures c.cards[k] in s.cards {
    }
    Batches.HeadsOfExisting(s.cards, c.cards, c.newCids, c.stamp.press);
    hide WithHeads;
  }

  /** Cards come into being one at a time, and keep their policy and a forward that is set. */
  lemma CardsStep(w: World, en: Entry)
    requires Follows(w, en) && CardsExist(w.store)
    ensures CardsExist(en.after.store)
    ensures CardsGrow(w.store, en.after.store, NewCards(en.call))
  {
    hide Admit;
    hide Follows;
    hide GovernancePreCheck;
    hide DnsPreCheck;
    hide PostCheck;
    if en.call.BatchUpdateCardHeads? {
      BatchCards(w, en);
    } else {
      Checks(w, en);
      Tables(w, en);
    }
  }

  lemma {:induction false} CardsExistAlways(t: Trace)
    requires Valid(t)
    ensures CardsExist(End(t).store)
  {
    hide Admit;
    hide Follows;
    hide Step;
    if t.Then? {
      var en := LastStep(t);
      CardsExistAlways(t.prev);
      if en.Some? {
        CardsStep(End(t.prev), en.value);
      }
    }
  }

  /**
   * What the other tables always satisfy: a sub-card is active exactly until it is deregistered,
   * offers are claimed at most once a call, and a written domain is registered.
   */
  ghost predicate TablesOk(w: World) {
    && (forall a :: a in w.store.subCards ==> (w.store.subCards[a].active <==> w.store.subCards[a].deregisteredAt == 0))
    && (forall o :: o in w.store.offers ==> w.store.offers[o] <= |w.history|)
    && (forall h :: h in w.store.domains ==> w.store.domains[h].exists_)
  }

  lemma TablesStep(w: World, en: Entry)
    requires Follows(w, en) && TablesOk(w)
    ensures TablesOk(Extend(w, en))
  {
    hide Admit;
    hide Follows;
    hide DomainHash;
    Tables(w, en);
  }

  lemma {:induction false} TablesAlways(t: Trace)
    requires Valid(t)
    ensures TablesOk(End(t))
  {
    hide Admit;
    hide Follows;
    hide Step;
    if t.Then? {
      var en := LastStep(t);
      TablesAlways(t.prev);
      if en.Some? {
        TablesStep(End(t.prev), en.value);
      }
    }
  }
}
