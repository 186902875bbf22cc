/** What a consistent event log says about the heads of one card. */
module HeadChains {
  import opened Wrappers
  import opened ProtocolTypes
  import opened Registry
  import opened Worlds
  import opened Steps
  import opened Replay

  /** The head an event gives to a card. */
  function NewHead(ev: Event, card: B256): Option<Bytes> {
    match ev
    case CardRegistered(c, _, _, cid, _) => if c == card then Some(cid) else None
    case CardHeadUpdated(c, _, newCid, _, _) => if c == card then Some(newCid) else None
    case _ => None
  }

  /** Every head a card has had, its initial one first. */
  function Heads(log: seq<Event>, card: B256): seq<Bytes> {
    if log == [] then []
    else
      var earlier := Heads(log[..|log| - 1], card);
      match NewHead(log[|log| - 1], card)
      case Some(head) => earlier + [head]
      case None => earlier
  }

  /** A reader's card table changes a head exactly where an event says so. */
  lemma SeeMovesHead(x: Crypto, v: View, ev: Event, card: B256)
    requires See(x, v, ev).Some?
    ensures var u := See(x, v, ev).value;
            match NewHead(ev, card)
            case Some(head) => card in u.cards && u.cards[card].logHead == head
            case None => (card in u.cards <==> card in v.cards)
                         && (card in v.cards ==> u.cards[card].logHead == v.cards[card].logHead)
  {
  }

  lemma {:induction false} LastHead(x: Crypto, log: seq<Event>, card: B256)
    requires Replayed(x, EMPTY_VIEW, log).Some?
    ensures var v := Replayed(x, EMPTY_VIEW, log).value;
            && (card in v.cards <==> Heads(log, card) != [])
            && (card in v.cards ==> v.cards[card].logHead == Heads(log, card)[|Heads(log, card)| - 1])
  {
    hide See;
    hide NewHead;
    if log != [] {
      var n := |log| - 1;
      LastHead(x, log[..n], card);
      SeeMovesHead(x, Replayed(x, EMPTY_VIEW, log[..n]).value, log[n], card);
    }
  }

  /** A prefix of a consistent log is consistent, and the next event fits it. */
  lemma {:induction false} PrefixReplays(x: Crypto, v: View, log: seq<Event>, k: nat)
    requires Replayed(x, v, log).Some? && k < |log|
    ensures Replayed(x, v, log[..k]).Some? && See(x, Replayed(x, v, log[..k]).value, log[k]).Some?
    decreases |log|
  {
    hide See;
    var n := |log| - 1;
    if k < n {
      PrefixReplays(x, v, log[..n], k);
      assert log[..n][..k] == log[..k];
    }
  }

  /**
   * The head events of one card form a chain: the first registers it, every later one names as
   * its previous head the head the card then had.
   */
  lemma EventsChain(x: Crypto, log: seq<Event>, k: nat)
    requires Replayed(x, EMPTY_VIEW, log).Some? && k < |log|
    ensures match log[k]
            case CardRegistered(card, _, _, _, _) => Heads(log[..k], card) == []
            case CardHeadUpdated(card, prevCid, _, _, _) =>
              var heads := Heads(log[..k], card);
              heads != [] && heads[|heads| - 1] == prevCid
            case _ => true
  {
    PrefixReplays(x, EMPTY_VIEW, log, k);
    match log[k] {
      case CardRegistered(card, _, _, _, _) => LastHead(x, log[..k], card);
      case CardHeadUpdated(card, _, _, _, _) => LastHead(x, log[..k], card);
      case _ =>
    }
  }

  /** Every card's stored head is the end of its chain. */
  lemma CardsEndTheirChains(t: Trace, card: B256)
    requires Valid(t)
    ensures var s, heads := End(t).store, Heads(Log(End(t).history), card);
            && (s.Card(card).exists_ <==> heads != [])
            && (heads != [] ==> s.Card(card).logHead == heads[|heads| - 1])
  {
    hide Admit;
    hide Valid;
    hide End;
    hide Heads;
    ReplayRebuilds(t);
    CardsExistAlways(t);
    LastHead(End(t).crypto, Log(End(t).history), card);
  }

  lemma {:induction false} HeadsOnlyGrow(log: seq<Event>, k: nat, card: B256)
    requires k <= |log|
    ensures Heads(log[..k], card) <= Heads(log, card)
    decreases |log|
  {
    if k == |log| {
      assert log[..k] == log;
    } else {
      var n := |log| - 1;
      HeadsOnlyGrow(log[..n], k, card);
      assert log[..n][..k] == log[..k];
    }
  }
}
