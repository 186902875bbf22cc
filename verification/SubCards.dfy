/** The life of a sub-card (contracts/logic-contract/src/subcard_ops.rs) over whole runs. */
module SubCards {
  import opened ProtocolTypes
  import opened Storage
  import opened Registry
  import opened Worlds
  import opened Steps
  import opened Replay
  import opened HeadChains

  datatype Phase = Unregistered | Active | Dead

  function PhaseOf(s: Store, a: B256): Phase {
    if a !in s.subCards then Unregistered
    else if s.subCards[a].active then Active
    else Dead
  }

  /** What one call can do to one sub-card: start it, end it at that moment, or nothing. */
  ghost predicate Lives(s: Store, t: Store, now: nat, a: B256) {
    match PhaseOf(s, a)
    case Unregistered =>
      a in t.subCards ==>
        var q := t.subCards[a];
        && q.active && q.registeredAt == now
        && s.Card(q.master).exists_ && q.registrationLogHead == s.Card(q.master).logHead
    case Active =>
      && a in t.subCards
      && t.subCards[a] in {s.subCards[a], s.subCards[a].(active := false, deregisteredAt := now)}
    case Dead =>
      a in t.subCards && t.subCards[a] == s.subCards[a]
  }

  lemma LivesStep(w: World, en: Entry, a: B256)
    requires Follows(w, en) && TablesOk(w)
    ensures Lives(w.store, en.after.store, en.env.now, a)
  {
    hide Admit;
    hide Follows;
    hide AdminSignature;
    hide GovernancePreCheck;
    hide DnsPreCheck;
    Tables(w, en);
    Checks(w, en);
  }

  /** Registration comes before deregistration, and neither lies in the future. */
  ghost predicate Dated(w: World) {
    forall a :: a in w.store.subCards ==>
      var q := w.store.subCards[a];
      && q.registeredAt <= w.now
      && (q.deregisteredAt != 0 ==> q.registeredAt <= q.deregisteredAt <= w.now)
  }

  lemma DatedStep(w: World, en: Entry)
    requires Follows(w, en) && TablesOk(w) && Dated(w)
    ensures Dated(Extend(w, en))
  {
    hide Admit;
    forall a | a in en.after.store.subCards
      ensures var q := en.after.store.subCards[a];
              && q.registeredAt <= en.env.now
              && (q.deregisteredAt != 0 ==> q.registeredAt <= q.deregisteredAt <= en.env.now)
    {
      LivesStep(w, en, a);
      TablesStep(w, en);
    }
    hide Follows;
  }

  lemma {:induction false} DatedAlways(t: Trace)
    requires Valid(t)
    ensures Dated(End(t))
  {
    hide Admit;
    hide Follows;
    hide Step;
    if t.Then? {
      var en := LastStep(t);
      DatedAlways(t.prev);
      if en.Some? {
        TablesAlways(t.prev);
        DatedStep(End(t.prev), en.value);
      }
    }
  }

  /**
   * The lifecycle over whole runs. Who a sub-card belongs to, what it says and when it started
   * never change; once it is dead, nothing about it does, so it is never active again.
   */
  lemma {:induction false} DeadStaysDead(t: Trace, txs: seq<Tx>, a: B256)
    requires Valid(Longer(t, txs)) && a in End(t).store.subCards
    ensures a in End(Longer(t, txs)).store.subCards
    ensures var p, q := End(t).store.subCards[a], End(Longer(t, txs)).store.subCards[a];
            && q.(active := p.active, deregisteredAt := p.deregisteredAt) == p
            && (PhaseOf(End(t).store, a) == Dead ==> q == p)
            && (q.active ==> p.active)
    decreases |txs|
  {
    hide Admit;
    hide Follows;
    hide Step;
    if txs != [] {
      var t' := Longer(t, txs);
      var en := LastStep(t');
      DeadStaysDead(t, txs[..|txs| - 1], a);
      if en.Some? {
        TablesAlways(t'.prev);
        LivesStep(End(t'.prev), en.value, a);
      }
    }
  }

  lemma SeeKeepsSubCard(x: Crypto, v: View, ev: Event, a: B256)
    requires See(x, v, ev).Some? && a in See(x, v, ev).value.subCards
    ensures var q := See(x, v, ev).value.subCards[a];
            if a in v.subCards
            then q.master == v.subCards[a].master && q.registrationLogHead == v.subCards[a].registrationLogHead
            else q.master in v.cards && q.registrationLogHead == v.cards[q.master].logHead
  {
  }

  /** The head a sub-card was registered under is one its master has had. */
  lemma {:induction false} RegistrationHeadIsHistoric(x: Crypto, log: seq<Event>, a: B256)
    requires Replayed(x, EMPTY_VIEW, log).Some?
    requires a in Replayed(x, EMPTY_VIEW, log).value.subCards
    ensures var q := Replayed(x, EMPTY_VIEW, log).value.subCards[a];
            q.registrationLogHead in Heads(log, q.master)
  {
    var n := |log| - 1;
    var v := Replayed(x, EMPTY_VIEW, log[..n]).value;
    var u := Replayed(x, EMPTY_VIEW, log).value;
    SeeKeepsSubCard(x, v, log[n], a);
    hide See;
    HeadsOnlyGrow(log, n, u.subCards[a].master);
    if a in v.subCards {
      RegistrationHeadIsHistoric(x, log[..n], a);
    } else {
      LastHead(x, log[..n], u.subCards[a].master);
    }
  }

  lemma RegistrationHeads(t: Trace, a: B256)
    requires Valid(t) && a in End(t).store.subCards
    ensures var q := End(t).store.subCards[a];
            q.registrationLogHead in Heads(Log(End(t).history), q.master)
  {
    hide Admit;
    hide Valid;
    hide End;
    hide Heads;
    ReplayRebuilds(t);
    RegistrationHeadIsHistoric(End(t).crypto, Log(End(t).history), a);
  }
}
