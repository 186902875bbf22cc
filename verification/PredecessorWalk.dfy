/**
 * The predecessor check of a domain handoff (governance/scripts/admin-deactivation.ts): is the
 * current admin reached from an old admin card?
 */
module PredecessorWalk {
  import opened Wrappers
  import opened ProtocolTypes
  import opened Storage
  import opened Registry
  import opened Worlds
  import opened Steps
  import opened StorageRuns

  /** The registry as the walk finds it at each hop: other transactions can come in between. */
  type Registries = nat -> Store

  /**
   * The successor that the log document behind a head names when it is fetched at a hop; None when
   * it cannot be fetched or read, or names none.
   */
  type Documents = (nat, Bytes) -> Option<B256>

  const DEFAULT_MAX_HOPS: nat := 20

  /** Where the walk goes from a card at a hop. */
  function Next(reg: Registries, docs: Documents, hop: nat, card: B256): Option<B256> {
    var entry := reg(hop).Card(card);
    if !entry.exists_ then None
    else if entry.forwardTo != ZERO then Some(entry.forwardTo)
    else docs(hop, entry.logHead)
  }

  /** The card `n` steps on. */
  function Nth(reg: Registries, docs: Documents, card: B256, n: nat): Option<B256> {
    if n == 0 then Some(card)
    else
      match Nth(reg, docs, card, n - 1)
      case Some(c) => Next(reg, docs, n - 1, c)
      case None => None
  }

  /** The admin is reached in between one and `maxHops` steps. */
  ghost predicate Reaches(reg: Registries, docs: Documents, card: B256, admin: B256, maxHops: nat) {
    exists n :: 1 <= n <= maxHops && Nth(reg, docs, card, n) == Some(admin)
  }

  /** The card exists, and its forward is the other or, where it has none, its log document names it. */
  predicate Hop(reg: Registries, docs: Documents, hop: nat, from: B256, to: B256) {
    var entry := reg(hop).Card(from);
    && entry.exists_
    && if entry.forwardTo != 0 then to == entry.forwardTo else docs(hop, entry.logHead) == Some(to)
  }

  /** The cards passed on a walk. */
  ghost predicate Way(reg: Registries, docs: Documents, way: seq<B256>) {
    forall i :: 0 <= i < |way| - 1 ==> Hop(reg, docs, i, way[i], way[i + 1])
  }

  /** A way of one to `maxHops` hops leads from the card to the admin. */
  ghost predicate WayLeads(reg: Registries, docs: Documents, card: B256, admin: B256, maxHops: nat, way: seq<B256>) {
    2 <= |way| <= maxHops + 1 && way[0] == card && way[|way| - 1] == admin && Way(reg, docs, way)
  }

  lemma {:induction false} WayIsNth(reg: Registries, docs: Documents, way: seq<B256>, n: nat)
    requires n < |way| && Way(reg, docs, way)
    ensures Nth(reg, docs, way[0], n) == Some(way[n])
  {
    if n > 0 {
      WayIsNth(reg, docs, way, n - 1);
    }
  }

  lemma {:induction false} NthHasWay(reg: Registries, docs: Documents, card: B256, n: nat) returns (way: seq<B256>)
    requires Nth(reg, docs, card, n).Some?
    ensures |way| == n + 1 && way[0] == card && Some(way[n]) == Nth(reg, docs, card, n) && Way(reg, docs, way)
  {
    if n == 0 {
      way := [card];
    } else {
      var before := NthHasWay(reg, docs, card, n - 1);
      way := before + [Nth(reg, docs, card, n).value];
      forall i | 0 <= i < n ensures Hop(reg, docs, i, way[i], way[i + 1]) {
        if i < n - 1 {
          assert way[i] == before[i] && way[i + 1] == before[i + 1];
        }
      }
    }
  }

  /** Stepping on from card to card reaches the admin exactly when some way leads to it. */
  lemma ReachesByWay(reg: Registries, docs: Documents, card: B256, admin: B256, maxHops: nat)
    ensures Reaches(reg, docs, card, admin, maxHops) <==>
              exists way :: WayLeads(reg, docs, card, admin, maxHops, way)
  {
    if Reaches(reg, docs, card, admin, maxHops) {
      var n :| 1 <= n <= maxHops && Nth(reg, docs, card, n) == Some(admin);
      var way := NthHasWay(reg, docs, card, n);
      assert WayLeads(reg, docs, card, admin, maxHops, way);
    }
    if way :| WayLeads(reg, docs, card, admin, maxHops, way) {
      WayIsNth(reg, docs, way, |way| - 1);
    }
  }

  lemma {:induction false} NothingAfterNone(reg: Registries, docs: Documents, card: B256, n: nat, m: nat)
    requires n <= m && Nth(reg, docs, card, n).None?
    ensures Nth(reg, docs, card, m).None?
    decreases m
  {
    if n < m {
      NothingAfterNone(reg, docs, card, n, m - 1);
    }
  }

  /** The walk answers true exactly when the admin is reached, cycles or not. */
  method VerifyPredecessorChain(reg: Registries, docs: Documents, oldCard: B256, currentAdmin: B256,
                                maxHops: nat := DEFAULT_MAX_HOPS)
    returns (found: bool)
    ensures found <==> Reaches(reg, docs, oldCard, currentAdmin, maxHops)
    ensures found <==> exists way :: WayLeads(reg, docs, oldCard, currentAdmin, maxHops, way)
  {
    ReachesByWay(reg, docs, oldCard, currentAdmin, maxHops);
    hide WayLeads;
    var cursor := oldCard;
    for hop := 0 to maxHops
      invariant Nth(reg, docs, oldCard, hop) == Some(cursor)
      invariant forall n :: 1 <= n <= hop ==> Nth(reg, docs, oldCard, n) != Some(currentAdmin)
    {
      var entry := reg(hop).Card(cursor);
      if !entry.exists_ {
        NoneFrom(reg, docs, oldCard, hop + 1);
        return false;
      }
      if entry.forwardTo != ZERO {
        if entry.forwardTo == currentAdmin {
          assert Nth(reg, docs, oldCard, hop + 1) == Some(currentAdmin);
          return true;
        }
        cursor := entry.forwardTo;
        continue;
      }
      var successor := docs(hop, entry.logHead);
      if successor.None? {
        NoneFrom(reg, docs, oldCard, hop + 1);
        return false;
      }
      if successor.value == currentAdmin {
        assert Nth(reg, docs, oldCard, hop + 1) == Some(currentAdmin);
        return true;
      }
      cursor := successor.value;
    }
    return false;
  }

  lemma NoneFrom(reg: Registries, docs: Documents, card: B256, n: nat)
    requires Nth(reg, docs, card, n).None?
    ensures forall m :: n <= m ==> Nth(reg, docs, card, m).None?
  {
    forall m | n <= m ensures Nth(reg, docs, card, m).None? {
      NothingAfterNone(reg, docs, card, n, m);
    }
  }

  // ---------------------------------------------------------------------------
  // Answers that last
  // ---------------------------------------------------------------------------

  /** The card `n` on-chain forwards on, in one registry state. */
  function NthForward(s: Store, card: B256, n: nat): Option<B256> {
    if n == 0 then Some(card)
    else
      match NthForward(s, card, n - 1)
      case None => None
      case Some(c) =>
        if s.Card(c).exists_ && s.Card(c).forwardTo != ZERO then Some(s.Card(c).forwardTo) else None
  }

  /** A later walk takes the same steps along forwards, even when the registry moves under it. */
  lemma {:induction false} ForwardsStay(s: Store, reg: Registries, docs: Documents, card: B256, n: nat)
    requires NthForward(s, card, n).Some? && forall hop :: 0 <= hop < n ==> KeepsCards(s, reg(hop))
    ensures Nth(reg, docs, card, n) == NthForward(s, card, n)
  {
    if n > 0 {
      ForwardsStay(s, reg, docs, card, n - 1);
      assert KeepsCards(s, reg(n - 1));
    }
  }

  /**
   * A true answer that used only on-chain forwards stays true when each hop of the later walk reads
   * the state after any calls to the storage contract, by any callers, and whatever the log
   * documents say then.
   */
  lemma TrueAnswersLast(s: Store, calls: nat -> seq<Invocation>, reg: Registries, docs: Documents, card: B256,
                        admin: B256, maxHops: nat, n: nat)
    requires 1 <= n <= maxHops && NthForward(s, card, n) == Some(admin)
    requires forall hop :: 0 <= hop < n ==> reg(hop) == Run(s, calls(hop))
    ensures Reaches(reg, docs, card, admin, maxHops)
  {
    forall hop | 0 <= hop < n ensures KeepsCards(s, reg(hop)) {
      RunKeeps(s, calls(hop));
    }
    ForwardsStay(s, reg, docs, card, n);
  }

  lemma {:induction false} RunsKeepCards(t: Trace, txs: seq<Tx>)
    requires Valid(Longer(t, txs))
    ensures KeepsCards(End(t).store, End(Longer(t, txs)).store)
    decreases |txs|
  {
    hide Admit;
    hide Follows;
    hide Step;
    if txs != [] {
      var t' := Longer(t, txs);
      var en := LastStep(t');
      RunsKeepCards(t, txs[..|txs| - 1]);
      if en.Some? {
        CardsExistAlways(t'.prev);
        CardsStep(End(t'.prev), en.value);
      }
    }
  }

  /** The same over the registry's own runs. */
  lemma TrueAnswersLastInRuns(t: Trace, txs: nat -> seq<Tx>, reg: Registries, docs: Documents, card: B256,
                              admin: B256, maxHops: nat, n: nat)
    requires 1 <= n <= maxHops && NthForward(End(t).store, card, n) == Some(admin)
    requires forall hop :: 0 <= hop < n ==>
               Valid(Longer(t, txs(hop))) && reg(hop) == End(Longer(t, txs(hop))).store
    ensures Reaches(reg, docs, card, admin, maxHops)
  {
    hide Admit;
    hide Valid;
    hide End;
    hide KeepsCards;
    forall hop | 0 <= hop < n ensures KeepsCards(End(t).store, reg(hop)) {
      RunsKeepCards(t, txs(hop));
    }
    ForwardsStay(End(t).store, reg, docs, card, n);
  }
}
