/**
 * Whole runs, entry by entry: every accepted call was allowed when it came and changed what it had
 * to, and from that alone, what stands behind a press key, a keyset and a domain's admin.
 */
module Histories {
  import opened ProtocolTypes
  import opened Storage
  import opened Registry
  import opened Worlds
  import opened Signatures
  import opened Permissions
  import opened Outcomes

  // ---------------------------------------------------------------------------
  // Lawful histories
  // ---------------------------------------------------------------------------

  /** The call was allowed and did what it had to. */
  ghost predicate Lawful(en: Entry) {
    && Allowed(en.env, en.before, en.logic, en.call)
    && Changes(en.env, en.before, en.logic, en.call, en.after)
  }

  /** The storage contract before the `n`-th entry. */
  function StoreAt(first: Store, h: seq<Entry>, n: nat): Store
    requires n <= |h|
  {
    if n == 0 then first else h[n - 1].after.store
  }

  /** Lawful calls, each on what the one before left, all with the same foreign computations. */
  ghost predicate LawfulHistory(x: Crypto, first: Store, h: seq<Entry>) {
    forall n :: 0 <= n < |h| ==> Lawful(h[n]) && h[n].env.crypto == x && h[n].before == StoreAt(first, h, n)
  }

  lemma EntryIsLawful(x: Crypto, first: Store, h: seq<Entry>, n: nat)
    requires LawfulHistory(x, first, h) && n < |h|
    ensures Lawful(h[n]) && h[n].before == StoreAt(first, h, n) && h[n].env.crypto == x
  {
  }

  /** Within a run, the transactions that take effect are the allowed calls to known instances. */
  lemma AcceptsExactly(w: World, tx: Tx)
    ensures Accepts(w, tx) <==>
              && tx.Transact? && tx.target in w.logics
              && Allowed(EnvOf(w, tx), w.store, w.logics[tx.target], tx.call)
  {
    hide Admit;
    hide Allowed;
    if tx.Transact? && tx.target in w.logics {
      AcceptedExactly(EnvOf(w, tx), w.store, w.logics[tx.target], tx.call);
    }
    hide StoreAfter;
    hide LogicAfter;
    hide EventsOf;
  }

  /** An accepted call did what it does. */
  lemma FollowsDoes(w: World, en: Entry)
    requires Follows(w, en)
    ensures Does(en.env, en.before, en.logic, en.call, en.after)
    ensures en.before == w.store && en.env.crypto == w.crypto
  {
    hide Admit;
    hide StoreAfter;
    hide LogicAfter;
    hide EventsOf;
  }

  lemma FollowsLawful(w: World, en: Entry)
    requires Follows(w, en)
    ensures Lawful(en)
  {
    hide Follows;
    hide Allowed;
    hide Changes;
    FollowsDoes(w, en);
    AcceptedExactly(en.env, en.before, en.logic, en.call);
    AcceptedChanges(en.env, en.before, en.logic, en.call, en.after);
  }

  function FirstOf(t: Trace): Store {
    match t
    case Genesis(_, logic, key) => FirstStore(logic, key)
    case Then(prev, _) => FirstOf(prev)
  }

  /** The history is lawful, and the store is what its last entry left. */
  ghost predicate Accounted(first: Store, w: World) {
    && LawfulHistory(w.crypto, first, w.history)
    && w.store == StoreAt(first, w.history, |w.history|)
  }

  lemma AccountedStep(first: Store, w: World, en: Entry)
    requires Follows(w, en) && Accounted(first, w)
    ensures Accounted(first, Extend(w, en))
  {
    hide Follows;
    hide Lawful;
    hide Does;
    FollowsDoes(w, en);
    FollowsLawful(w, en);
  }

  /** Every entry of every run is lawful. */
  lemma {:induction false} LawfulAlways(t: Trace)
    requires Valid(t)
    ensures Accounted(FirstOf(t), End(t))
  {
    hide Admit;
    hide Follows;
    hide Step;
    hide Lawful;
    if t.Then? {
      var en := LastStep(t);
      LawfulAlways(t.prev);
      if en.Some? {
        AccountedStep(FirstOf(t.prev), End(t.prev), en.value);
      }
    }
  }

  // ---------------------------------------------------------------------------
  // Votes
  // ---------------------------------------------------------------------------

  /** A quorum of different keys, of the keyset that the body had, is behind the call. */
  ghost predicate VotedFor(x: Crypto, en: Entry, store: Store) {
    match VoteOn(en.call)
    case Some(Vote(body, gov)) =>
      && en.env.crypto == x
      && Fresh(en.env, store, body, gov.payload)
      && QuorumOfKeys(en.env, en.logic, store.KeysetOf(body), gov)
    case None => true
  }

  lemma LawfulEntryVote(en: Entry)
    requires Lawful(en)
    ensures VotedFor(en.env.crypto, en, en.before)
  {
    hide VoteOn;
    hide Fresh;
    hide QuorumSigned;
    hide Changes;
    hide CardInOrder;
    hide GovernanceInOrder;
    hide DnsInOrder;
    hide PressConsents;
    if VoteOn(en.call).Some? {
      DifferentKeysSigned(en.env, en.before, en.logic, VoteOn(en.call).value.body, VoteOn(en.call).value.gov);
    }
  }

  lemma LawfulVote(x: Crypto, first: Store, h: seq<Entry>, n: nat)
    requires LawfulHistory(x, first, h) && n < |h|
    ensures VotedFor(x, h[n], StoreAt(first, h, n))
  {
    hide LawfulHistory;
    hide VotedFor;
    EntryIsLawful(x, first, h, n);
    hide Lawful;
    LawfulEntryVote(h[n]);
  }

  /**
   * Over every run: behind every governed call stand at least a quorum of different keys of the
   * keyset that its body then had, each with a signature over the call's own payload.
   */
  lemma VotesAlways(t: Trace)
    requires Valid(t)
    ensures forall n :: 0 <= n < |End(t).history| ==>
              VotedFor(End(t).crypto, End(t).history[n], StoreAt(FirstOf(t), End(t).history, n))
  {
    hide End;
    hide Valid;
    hide VotedFor;
    hide LawfulHistory;
    LawfulAlways(t);
    forall n | 0 <= n < |End(t).history|
      ensures VotedFor(End(t).crypto, End(t).history[n], StoreAt(FirstOf(t), End(t).history, n))
    {
      LawfulVote(End(t).crypto, FirstOf(t), End(t).history, n);
    }
  }
}
