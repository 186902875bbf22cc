/** Key-scheme rotation (contracts/logic-contract/src/key_scheme_ops.rs) while the registry is in phase 0. */
module KeySchemes {
  import opened Storage
  import opened Registry
  import opened Worlds

  /** The phase is still 0, and no rotation was ever accepted. */
  ghost predicate PhaseZero(w: World) {
    && w.store.keySchemePhase == 0
    && forall k :: 0 <= k < |w.history| ==> !w.history[k].call.RotateOnChainKeyScheme?
  }

  /** In phase 0 every rotation is refused, whatever else it brings. */
  lemma RotationNeedsPhase(e: Env, s: Store, l: Logic, c: Call)
    requires c.RotateOnChainKeyScheme? && s.keySchemePhase == 0
    ensures Exec(e, s, l, c).Failure?
  {
    hide PreCheck;
    hide PostCheck;
  }

  lemma PhaseStep(w: World, en: Entry)
    requires Follows(w, en) && PhaseZero(w)
    ensures PhaseZero(Extend(w, en))
  {
    Stages(w, en);
    GatedFrame(w, en);
    hide PreCheck;
    hide PostCheck;
    hide LogicAfter;
    hide EventsOf;
    hide CardsAfter;
    hide SubCardsAfter;
    assert en.after.store.keySchemePhase == en.gated.keySchemePhase;
    if en.call.RotateOnChainKeyScheme? {
      RotationNeedsPhase(en.env, en.before, en.logic, en.call);
    }
  }

  /** No operation of this code raises the phase, so no run ever gets past the phase check. */
  lemma {:induction false} PhaseZeroAlways(t: Trace)
    requires Valid(t)
    ensures PhaseZero(End(t))
  {
    hide Admit;
    hide Follows;
    hide Step;
    if t.Then? {
      var en := LastStep(t);
      PhaseZeroAlways(t.prev);
      if en.Some? {
        PhaseStep(End(t.prev), en.value);
      }
    }
  }
}
