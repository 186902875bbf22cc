/** BatchUpdateCardHeads (contracts/logic-contract/src/card_ops.rs): order-free, all or nothing. */
module Batches {
  import opened Wrappers
  import opened ProtocolTypes
  import opened Storage
  import opened Registry
  import opened Worlds
  import LogicContracts

  /** No card is listed twice. */
  ghost predicate Distinct(batch: seq<B256>) {
    forall i, j :: 0 <= i < j < |batch| ==> batch[i] != batch[j]
  }

  /** The nested duplicate scan finds every repetition. */
  lemma ValidItemsAreDistinct(s: Store, policy: B256, cards: seq<B256>, prevCids: seq<Bytes>, newCids: seq<Bytes>)
    requires |cards| == |prevCids| == |newCids|
    requires BatchItems(s, policy, cards, prevCids, newCids, 0).Success?
    ensures Distinct(cards)
    ensures forall k :: 0 <= k < |cards| ==>
              && |newCids[k]| <= MAX_CID_LEN
              && s.Card(cards[k]).exists_
              && s.Card(cards[k]).policy == policy
              && s.Card(cards[k]).logHead == prevCids[k]
  {
    LogicContracts.BatchItemsValid(s, policy, cards, prevCids, newCids, 0);
    forall i, j | 0 <= i < j < |cards| ensures cards[i] != cards[j] {
      assert cards[i + 1..][j - i - 1] == cards[j];
    }
  }

  /** The table `m` is `cards` with exactly the first `n` heads written. */
  ghost predicate Wrote(m: map<B256, CardEntry>, cards: map<B256, CardEntry>, batch: seq<B256>, heads: seq<Bytes>,
                        press: B256, n: nat)
    requires n <= |batch| == |heads|
  {
    && (forall a :: a in m <==> a in cards || a in batch[..n])
    && (forall k :: 0 <= k < n ==>
          batch[k] in m && m[batch[k]] == Get(cards, batch[k], NO_CARD).(logHead := heads[k], lastPress := press))
    && (forall a :: a in cards && a !in batch[..n] ==> a in m && m[a] == cards[a])
  }

  lemma WroteNext(m: map<B256, CardEntry>, cards: map<B256, CardEntry>, batch: seq<B256>, heads: seq<Bytes>,
                  press: B256, n: nat)
    requires n < |batch| == |heads| && Distinct(batch) && Wrote(m, cards, batch, heads, press, n)
    ensures Wrote(WithHead(m, batch[n], heads[n], press), cards, batch, heads, press, n + 1)
  {
    var a, m' := batch[n], WithHead(m, batch[n], heads[n], press);
    assert a !in batch[..n];
    assert Get(m, a, NO_CARD) == Get(cards, a, NO_CARD);
    assert batch[..n + 1] == batch[..n] + [a];
    forall k | 0 <= k < n + 1
      ensures batch[k] in m'
      ensures m'[batch[k]] == Get(cards, batch[k], NO_CARD).(logHead := heads[k], lastPress := press)
    {
      if k < n {
        assert batch[k] != a;
      }
    }
  }

  /** The first `n` writes set exactly their own cards' heads and touch no other card. */
  lemma {:induction false} HeadsWritten(cards: map<B256, CardEntry>, batch: seq<B256>, heads: seq<Bytes>, press: B256,
                                        n: nat)
    requires n <= |batch| == |heads| && Distinct(batch)
    ensures Wrote(WithHeads(cards, batch, heads, press, n), cards, batch, heads, press, n)
  {
    hide Distinct;
    if n > 0 {
      HeadsWritten(cards, batch, heads, press, n - 1);
      hide Wrote;
      WroteNext(WithHeads(cards, batch, heads, press, n - 1), cards, batch, heads, press, n - 1);
    }
  }

  /** Writing heads to cards that are there adds no card and moves no policy or forward. */
  lemma HeadsOfExisting(cards: map<B256, CardEntry>, batch: seq<B256>, heads: seq<Bytes>, press: B256)
    requires |batch| == |heads| && Distinct(batch) && forall k :: 0 <= k < |batch| ==> batch[k] in cards
    ensures var m := WithHeads(cards, batch, heads, press, |batch|);
            && m.Keys == cards.Keys
            && (forall a :: a in cards ==> m[a] == cards[a].(logHead := m[a].logHead, lastPress := m[a].lastPress))
            && (forall a :: a in cards && a !in batch ==> m[a] == cards[a])
  {
    HeadsWritten(cards, batch, heads, press, |batch|);
    hide WithHeads;
    assert batch[..|batch|] == batch;
    var m := WithHeads(cards, batch, heads, press, |batch|);
    forall a | a in cards ensures m[a] == cards[a].(logHead := m[a].logHead, lastPress := m[a].lastPress) {
      if a in batch {
        var k :| 0 <= k < |batch| && batch[k] == a;
      }
    }
  }

  /** The items of a batch as card/head pairs. */
  ghost function Items(batch: seq<B256>, heads: seq<Bytes>): seq<(B256, Bytes)>
    requires |batch| == |heads|
  {
    seq(|batch|, i requires 0 <= i < |batch| => (batch[i], heads[i]))
  }

  /** An item of one batch is an item of every rearrangement of it. */
  lemma SameItem(batch: seq<B256>, heads: seq<Bytes>, batch': seq<B256>, heads': seq<Bytes>, k: nat) returns (j: nat)
    requires |batch| == |heads| && |batch'| == |heads'|
    requires multiset(Items(batch, heads)) == multiset(Items(batch', heads'))
    requires k < |batch|
    ensures j < |batch'| && batch'[j] == batch[k] && heads'[j] == heads[k]
  {
    var item := Items(batch, heads)[k];
    assert item in multiset(Items(batch', heads'));
    j :| 0 <= j < |batch'| && Items(batch', heads')[j] == item;
  }

  /** What one order writes to its own cards, the other writes too. */
  lemma WritesAgree(cards: map<B256, CardEntry>, batch: seq<B256>, heads: seq<Bytes>,
                    batch': seq<B256>, heads': seq<Bytes>, press: B256)
    requires |batch| == |heads| && |batch'| == |heads'| && Distinct(batch')
    requires multiset(Items(batch, heads)) == multiset(Items(batch', heads'))
    ensures var m' := WithHeads(cards, batch', heads', press, |batch'|);
            forall k :: 0 <= k < |batch| ==>
              && batch[k] in batch'
              && batch[k] in m'
              && m'[batch[k]] == Get(cards, batch[k], NO_CARD).(logHead := heads[k], lastPress := press)
  {
    HeadsWritten(cards, batch', heads', press, |batch'|);
    var m' := WithHeads(cards, batch', heads', press, |batch'|);
    forall k | 0 <= k < |batch|
      ensures batch[k] in batch' && batch[k] in m'
      ensures m'[batch[k]] == Get(cards, batch[k], NO_CARD).(logHead := heads[k], lastPress := press)
    {
      var j := SameItem(batch, heads, batch', heads', k);
      assert batch'[j] == batch[k];
    }
  }

  /** Where one order leaves a card, the other leaves it too. */
  lemma SameAt(cards: map<B256, CardEntry>, batch: seq<B256>, heads: seq<Bytes>,
               batch': seq<B256>, heads': seq<Bytes>, press: B256, a: B256)
    requires |batch| == |heads| && |batch'| == |heads'|
    requires Distinct(batch) && Distinct(batch')
    requires multiset(Items(batch, heads)) == multiset(Items(batch', heads'))
    requires a in WithHeads(cards, batch, heads, press, |batch|)
    ensures a in WithHeads(cards, batch', heads', press, |batch'|)
    ensures WithHeads(cards, batch, heads, press, |batch|)[a] == WithHeads(cards, batch', heads', press, |batch'|)[a]
  {
    hide WithHeads;
    hide Items;
    HeadsWritten(cards, batch, heads, press, |batch|);
    if a in batch {
      var k :| 0 <= k < |batch| && batch[k] == a;
      WritesAgree(cards, batch, heads, batch', heads', press);
    } else {
      if a in batch' {
        var j :| 0 <= j < |batch'| && batch'[j] == a;
        WritesAgree(cards, batch', heads', batch, heads, press);
        assert false;
      }
      HeadsWritten(cards, batch', heads', press, |batch'|);
      assert batch[..|batch|] == batch && batch'[..|batch'|] == batch';
    }
  }

  /**
   * Order independence: n single head updates, done in any order, leave the same cards. So the
   * batch equals any sequence of the single updates it lists.
   */
  lemma OrderFree(cards: map<B256, CardEntry>, batch: seq<B256>, heads: seq<Bytes>,
                  batch': seq<B256>, heads': seq<Bytes>, press: B256)
    requires |batch| == |heads| && |batch'| == |heads'|
    requires Distinct(batch) && Distinct(batch')
    requires multiset(Items(batch, heads)) == multiset(Items(batch', heads'))
    ensures WithHeads(cards, batch, heads, press, |batch|) == WithHeads(cards, batch', heads', press, |batch'|)
  {
    hide WithHeads;
    hide Items;
    var m, m' := WithHeads(cards, batch, heads, press, |batch|), WithHeads(cards, batch', heads', press, |batch'|);
    forall a | a in m ensures a in m' && m[a] == m'[a] {
      SameAt(cards, batch, heads, batch', heads', press, a);
    }
    forall a | a in m' ensures a in m {
      SameAt(cards, batch', heads', batch, heads, press, a);
    }
    assert m == m';
  }

  /**
   * The apply loop needs no rollback: at every point of it, the storage contract accepts the next
   * write and only that card changes.
   */
  lemma ApplyLoopNeverFails(s: Store, policy: B256, cards: seq<B256>, prevCids: seq<Bytes>, newCids: seq<Bytes>,
                            press: B256, k: nat)
    requires |cards| == |prevCids| == |newCids| && k < |cards|
    requires BatchItems(s, policy, cards, prevCids, newCids, 0).Success?
    ensures var now := s.(cards := WithHeads(s.cards, cards, newCids, press, k));
            Apply(now, s.logic, StorageCall.UpdateCardHead(cards[k], newCids[k], press))
            == Success(s.(cards := WithHeads(s.cards, cards, newCids, press, k + 1)))
  {
    ValidItemsAreDistinct(s, policy, cards, prevCids, newCids);
  }

  /**
   * An accepted batch: every listed card existed under the stated policy with the stated head and
   * now has the new one, all other cards are untouched, and the press sequence grew by exactly one.
   */
  lemma BatchOutcome(w: World, en: Entry)
    requires Follows(w, en) && en.call.BatchUpdateCardHeads?
    ensures var c, s, t := en.call, en.before, en.after.store;
            && |c.cards| == |c.prevCids| == |c.newCids| && Distinct(c.cards)
            && (forall k :: 0 <= k < |c.cards| ==>
                  && s.Card(c.cards[k]).exists_
                  && s.Card(c.cards[k]).policy == c.policy
                  && s.Card(c.cards[k]).logHead == c.prevCids[k]
                  && t.Card(c.cards[k]) == s.Card(c.cards[k]).(logHead := c.newCids[k], lastPress := c.stamp.press))
            && (forall a: B256 :: a !in c.cards ==> t.Card(a) == s.Card(a))
            && t.presses == Bump(s, c.policy, c.stamp.press).presses
  {
    var c := en.call;
    Stages(w, en);
    GateEffect(en.env, en.before, en.logic, GateOf(en.before, en.call));
    ValidItemsAreDistinct(en.before, c.policy, c.cards, c.prevCids, c.newCids);
    HeadsWritten(en.before.cards, c.cards, c.newCids, c.stamp.press, |c.cards|);
    assert c.cards[..|c.cards|] == c.cards;
  }
}
