/** Press sequence accounting over whole runs. */
module Sequences {
  import opened Wrappers
  import opened ProtocolTypes
  import opened PayloadParser
  import opened Storage
  import opened Registry
  import opened Worlds

  /** The sequence number an accepted call carried for a press, when its gate was that press's. */
  function Carried(en: Entry, policy: B256, press: B256): Option<nat> {
    match GateOf(en.before, en.call)
    case Press(p, stamp, _, _) =>
      if p == policy && stamp.press == press && ExtractSequence(stamp.payload).Success?
      then ExtractSequence(stamp.payload).value else None
    case _ => None
  }

  predicate Authorizes(c: Call, policy: B256, press: B256) {
    c.AuthorizePress? && c.policy == policy && c.press == press
  }

  /** The sequence numbers accepted from a press since it was last authorized, in order. */
  function Charged(history: seq<Entry>, policy: B256, press: B256): seq<nat> {
    if history == [] then []
    else
      var en := history[|history| - 1];
      if Authorizes(en.call, policy, press) then []
      else
        var earlier := Charged(history[..|history| - 1], policy, press);
        match Carried(en, policy, press)
        case Some(sequence) => earlier + [sequence]
        case None => earlier
  }

  /** A press-gated operation adds one to its press's sequence and does nothing else to presses. */
  lemma PressGated(w: World, en: Entry)
    requires Follows(w, en) && GateOf(w.store, en.call).Press?
    ensures var g := GateOf(w.store, en.call);
            && ExtractSequence(g.stamp.payload) == Success(Some(w.store.Press(g.policy, g.stamp.press).nextSequence))
            && en.after.store.presses == Bump(w.store, g.policy, g.stamp.press).presses
  {
    hide Admit;
    Stages(w, en);
    GatedFrame(w, en);
    GateEffect(en.env, en.before, en.logic, GateOf(en.before, en.call));
    hide Authorize;
    hide PreCheck;
    hide PostCheck;
    hide CardsAfter;
    hide SubCardsAfter;
    hide LogicAfter;
    hide EventsOf;
    assert en.after.store.presses == PressesAfter(en.env.now, en.gated, en.call);
    hide StoreAfter;
    hide Follows;
  }

  /** Any other operation leaves every sequence alone, except that an authorization restarts one. */
  lemma NotPressGated(w: World, en: Entry, policy: B256, press: B256)
    requires Follows(w, en) && !GateOf(w.store, en.call).Press?
    ensures en.after.store.Press(policy, press).nextSequence
            == if Authorizes(en.call, policy, press) then 0 else w.store.Press(policy, press).nextSequence
  {
    hide Admit;
    Stages(w, en);
    GateEffect(en.env, en.before, en.logic, GateOf(en.before, en.call));
    hide Authorize;
    hide PreCheck;
    hide PostCheck;
    hide CardsAfter;
    hide SubCardsAfter;
    hide LogicAfter;
    hide EventsOf;
    assert en.gated.presses == w.store.presses;
    assert en.after.store.presses == PressesAfter(en.env.now, en.gated, en.call);
    hide StoreAfter;
    hide Follows;
  }

  /** The sequences charged to a press are 0, 1, ..., n - 1, and n comes next. */
  ghost predicate Counted(w: World, policy: B256, press: B256) {
    var charged := Charged(w.history, policy, press);
    && |charged| == w.store.Press(policy, press).nextSequence <= |w.history|
    && forall i :: 0 <= i < |charged| ==> charged[i] == i
  }

  lemma CountedStep(w: World, en: Entry, policy: B256, press: B256)
    requires Follows(w, en) && Counted(w, policy, press)
    ensures Counted(Extend(w, en), policy, press)
  {
    hide Admit;
    hide GateOf;
    hide StoreAfter;
    hide LogicAfter;
    hide EventsOf;
    assert (w.history + [en])[..|w.history|] == w.history;
    if GateOf(w.store, en.call).Press? {
      PressGated(w, en);
      NotAnAuthorization(w.store, en.call);
    } else {
      NotPressGated(w, en, policy, press);
    }
  }

  lemma NotAnAuthorization(s: Store, c: Call)
    requires GateOf(s, c).Press?
    ensures !c.AuthorizePress?
  {
  }

  /**
   * Press sequence accounting: after every run, for every policy and press, the payloads accepted
   * since its last authorization carried 0, 1, ..., n - 1 in that order, and the stored next
   * sequence is n, the number of gated operations charged to the pair, revocations or not.
   */
  lemma {:induction false} CountedAlways(t: Trace, policy: B256, press: B256)
    requires Valid(t)
    ensures Counted(End(t), policy, press)
  {
    hide Admit;
    hide Follows;
    hide Step;
    hide Charged;
    if t.Then? {
      var en := LastStep(t);
      CountedAlways(t.prev, policy, press);
      if en.Some? {
        CountedStep(End(t.prev), en.value, policy, press);
      }
    } else {
      NothingCharged(policy, press);
    }
  }

  lemma NothingCharged(policy: B256, press: B256)
    ensures Charged([], policy, press) == []
  {
  }
}
