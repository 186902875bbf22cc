/** Every card is accounted for: one per registration and one per use of an open offer. */
module Conservation {
  import opened ProtocolTypes
  import opened Storage
  import opened Registry
  import opened Worlds
  import opened Steps
  import opened Replay

  /** Accepted register_card calls. */
  function Registrations(history: seq<Entry>): nat {
    if history == [] then 0
    else Registrations(history[..|history| - 1]) + (if history[|history| - 1].call.RegisterCard? then 1 else 0)
  }

  predicate ClaimsFrom(en: Entry, offer: B256) {
    en.call.ClaimOpenOffer? && en.call.offer == offer
  }

  /** The cards that came from an offer. */
  function CardsFrom(history: seq<Entry>, offer: B256): set<B256> {
    if history == [] then {}
    else
      var en := history[|history| - 1];
      CardsFrom(history[..|history| - 1], offer) + (if ClaimsFrom(en, offer) then {en.call.card} else {})
  }

  /** The sum of a table of counts. */
  ghost function Sum(m: map<B256, nat>): nat
    decreases |m|
  {
    if m == map[] then 0
    else
      var k :| k in m;
      m[k] + Sum(m - {k})
  }

  /** The sum does not depend on the order in which the table is emptied. */
  lemma {:induction false} SumSplit(m: map<B256, nat>, k: B256)
    requires k in m
    ensures Sum(m) == m[k] + Sum(m - {k})
    decreases |m|
  {
    var j :| j in m && Sum(m) == m[j] + Sum(m - {j});
    if j != k {
      SumSplit(m - {j}, k);
      SumSplit(m - {k}, j);
      assert m - {j} - {k} == m - {k} - {j};
    }
  }

  lemma SumUpdate(m: map<B256, nat>, k: B256, v: nat)
    ensures Sum(m[k := v]) + Get(m, k, 0) == Sum(m) + v
  {
    var m' := m[k := v];
    SumSplit(m', k);
    if k in m {
      SumSplit(m, k);
    }
    assert m' - {k} == m - {k};
    assert k !in m ==> m - {k} == m;
  }

  // ---------------------------------------------------------------------------
  // The balance
  // ---------------------------------------------------------------------------

  ghost predicate Balanced(w: World) {
    && |w.store.cards| == Registrations(w.history) + Sum(w.store.offers)
    && (forall o: B256 :: CardsFrom(w.history, o) <= w.store.cards.Keys)
    && (forall o: B256 :: |CardsFrom(w.history, o)| == w.store.OfferCount(o))
  }

  lemma Extended(history: seq<Entry>, en: Entry, o: B256)
    ensures CardsFrom(history + [en], o)
            == CardsFrom(history, o) + (if ClaimsFrom(en, o) then {en.call.card} else {})
    ensures Registrations(history + [en]) == Registrations(history) + (if en.call.RegisterCard? then 1 else 0)
  {
    assert (history + [en])[..|history|] == history;
  }

  /** A claim adds one to its offer's count; nothing else touches the counts. */
  lemma OffersStep(w: World, en: Entry)
    requires Follows(w, en) && TablesOk(w)
    ensures en.after.store.offers ==
            if en.call.ClaimOpenOffer? then w.store.offers[en.call.offer := w.store.OfferCount(en.call.offer) + 1]
            else w.store.offers
  {
    hide Admit;
    hide Follows;
    hide CardsAfter;
    hide SubCardsAfter;
    hide DomainsAfter;
    Tables(w, en);
  }

  lemma CardCount(w: World, en: Entry)
    requires Follows(w, en) && CardsExist(w.store)
    ensures |en.after.store.cards| == |w.store.cards| + |NewCards(en.call)|
    ensures w.store.cards.Keys <= en.after.store.cards.Keys
    ensures NewCards(en.call) <= en.after.store.cards.Keys && NewCards(en.call) !! w.store.cards.Keys
  {
    hide Admit;
    hide Follows;
    hide NewCards;
    CardsStep(w, en);
    var a, b := w.store.cards.Keys, NewCards(en.call);
    assert |a + b| == |a| + |b|;
    assert |en.after.store.cards| == |en.after.store.cards.Keys| && |w.store.cards| == |a|;
  }

  lemma NewCardCount(c: Call)
    ensures |NewCards(c)| == if c.RegisterCard? || c.ClaimOpenOffer? then 1 else 0
  {
  }

  lemma TotalStep(w: World, en: Entry)
    requires Follows(w, en) && CardsExist(w.store) && TablesOk(w)
    requires |w.store.cards| == Registrations(w.history) + Sum(w.store.offers)
    ensures |en.after.store.cards| == Registrations(w.history + [en]) + Sum(en.after.store.offers)
  {
    hide Admit;
    hide Follows;
    hide Sum;
    hide Registrations;
    hide TablesOk;
    hide CardsExist;
    hide NewCards;
    NewCardCount(en.call);
    Extended(w.history, en, ZERO);
    CardCount(w, en);
    OffersStep(w, en);
    if en.call.ClaimOpenOffer? {
      SumUpdate(w.store.offers, en.call.offer, w.store.OfferCount(en.call.offer) + 1);
    }
  }

  lemma OfferStep(w: World, en: Entry, o: B256)
    requires Follows(w, en) && CardsExist(w.store) && TablesOk(w)
    requires CardsFrom(w.history, o) <= w.store.cards.Keys
    requires |CardsFrom(w.history, o)| == w.store.OfferCount(o)
    ensures CardsFrom(w.history + [en], o) <= en.after.store.cards.Keys
    ensures |CardsFrom(w.history + [en], o)| == en.after.store.OfferCount(o)
  {
    hide Admit;
    hide Follows;
    hide CardsFrom;
    hide TablesOk;
    hide CardsExist;
    Extended(w.history, en, o);
    CardCount(w, en);
    OffersStep(w, en);
  }

  lemma BalancedStep(w: World, en: Entry)
    requires Follows(w, en) && CardsExist(w.store) && TablesOk(w) && Balanced(w)
    ensures Balanced(Extend(w, en))
  {
    hide Admit;
    hide Follows;
    hide CardsExist;
    hide TablesOk;
    hide Sum;
    hide CardsFrom;
    hide Registrations;
    TotalStep(w, en);
    forall o: B256
      ensures CardsFrom(w.history + [en], o) <= en.after.store.cards.Keys
      ensures |CardsFrom(w.history + [en], o)| == en.after.store.OfferCount(o)
    {
      assert CardsFrom(w.history, o) <= w.store.cards.Keys;
      OfferStep(w, en, o);
    }
  }

  /**
   * Conservation: the existing cards are as many as the accepted registrations plus the sum of all
   * offer counts, and each offer's count is the number of different cards that came from it.
   */
  lemma {:induction false} BalancedAlways(t: Trace)
    requires Valid(t)
    ensures Balanced(End(t))
  {
    hide Admit;
    hide Follows;
    hide Step;
    if t.Then? {
      var en := LastStep(t);
      BalancedAlways(t.prev);
      if en.Some? {
        CardsExistAlways(t.prev);
        TablesAlways(t.prev);
        BalancedStep(End(t.prev), en.value);
      }
    } else {
      assert Sum(map[]) == 0;
    }
  }

  // ---------------------------------------------------------------------------
  // Offers
  // ---------------------------------------------------------------------------

  /** The use counts an offer's events carry, in order. */
  function UseCounts(log: seq<Event>, offer: B256): seq<nat> {
    if log == [] then []
    else
      var earlier := UseCounts(log[..|log| - 1], offer);
      match log[|log| - 1]
      case OpenOfferClaimed(o, _, useCount, _) => if o == offer then earlier + [useCount] else earlier
      case _ => earlier
  }

  /** In a consistent log an offer's events count 1, 2, ..., n, where n is its final count. */
  lemma {:induction false} UseCountsRun(x: Crypto, log: seq<Event>, offer: B256)
    requires Replayed(x, EMPTY_VIEW, log).Some?
    ensures var counts := UseCounts(log, offer);
            && |counts| == Get(Replayed(x, EMPTY_VIEW, log).value.offers, offer, 0)
            && forall i :: 0 <= i < |counts| ==> counts[i] == i + 1
  {
    if log != [] {
      UseCountsRun(x, log[..|log| - 1], offer);
    }
  }

  /** A claim that carried a limit, and none above the given one. */
  predicate ClaimsWithin(en: Entry, offer: B256, limit: nat) {
    ClaimsFrom(en, offer) ==> en.call.maxAcceptances != U64_RANGE - 1 && en.call.maxAcceptances <= limit
  }

  /** So did every accepted claim of the offer. */
  ghost predicate CappedAt(history: seq<Entry>, offer: B256, limit: nat) {
    forall k :: 0 <= k < |history| ==> ClaimsWithin(history[k], offer, limit)
  }

  lemma ClaimBelowLimit(w: World, en: Entry)
    requires Follows(w, en) && en.call.ClaimOpenOffer? && en.call.maxAcceptances != U64_RANGE - 1
    ensures w.store.OfferCount(en.call.offer) < en.call.maxAcceptances
  {
    hide Admit;
    hide Follows;
    Checks(w, en);
    Tables(w, en);
  }

  lemma CappedBefore(history: seq<Entry>, en: Entry, offer: B256, limit: nat)
    requires CappedAt(history + [en], offer, limit)
    ensures CappedAt(history, offer, limit) && ClaimsWithin(en, offer, limit)
  {
    var h := history + [en];
    assert h[|history|] == en;
    forall k | 0 <= k < |history| ensures ClaimsWithin(history[k], offer, limit) {
      assert h[k] == history[k];
    }
  }

  /** No more cards come from an offer than the largest limit that was claimed under. */
  lemma {:induction false} OfferCap(t: Trace, offer: B256, limit: nat)
    requires Valid(t) && CappedAt(End(t).history, offer, limit)
    ensures |CardsFrom(End(t).history, offer)| == End(t).store.OfferCount(offer) <= limit
  {
    hide Admit;
    hide Follows;
    hide Step;
    hide CardsFrom;
    hide TablesOk;
    hide CappedAt;
    BalancedAlways(t);
    if t.Then? {
      var en := LastStep(t);
      if en.Some? {
        CappedBefore(End(t.prev).history, en.value, offer, limit);
        TablesAlways(t.prev);
        OffersStep(End(t.prev), en.value);
        if ClaimsFrom(en.value, offer) {
          ClaimBelowLimit(End(t.prev), en.value);
        }
      }
      OfferCap(t.prev, offer, limit);
    }
  }
}
