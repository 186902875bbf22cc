/** What governance signatures guarantee over whole runs, across upgrades between instances. */
module Governance {
  import opened Wrappers
  import opened ProtocolTypes
  import opened PayloadParser
  import opened Storage
  import opened Quorum
  import opened Registry
  import opened Worlds
  import opened Steps

  /** An accepted governance payload: by which body, put to which keyset, with which signatures. */
  datatype Approval = Approval(body: u8, ballot: Ballot, payload: Bytes, sigs: seq<Bytes>)

  function ApprovalOf(en: Entry): Option<Approval> {
    match GateOf(en.before, en.call)
    case Governed(body, gov) =>
      Some(Approval(body, BallotOf(en.env, en.before, en.logic, body, gov.payload), gov.payload, gov.sigs))
    case _ => None
  }

  /** The accepted governance operations, oldest first. */
  function Approvals(history: seq<Entry>): seq<Approval> {
    if history == [] then []
    else
      var earlier := Approvals(history[..|history| - 1]);
      match ApprovalOf(history[|history| - 1])
      case Some(approval) => earlier + [approval]
      case None => earlier
  }

  lemma ApprovalsExtend(history: seq<Entry>, en: Entry)
    ensures Approvals(history + [en])
            == Approvals(history) + (if ApprovalOf(en).Some? then [ApprovalOf(en).value] else [])
    ensures |Approvals(history)| <= |history|
  {
    hide ApprovalOf;
    assert (history + [en])[..|history|] == history;
    AtMostOneEach(history);
  }

  lemma {:induction false} AtMostOneEach(history: seq<Entry>)
    ensures |Approvals(history)| <= |history|
  {
    hide ApprovalOf;
    if history != [] {
      AtMostOneEach(history[..|history| - 1]);
    }
  }

  /** What the gate has established of an approval it lets through. */
  ghost predicate Sound(a: Approval) {
    && a.ballot.Signers(a.sigs).Success?
    && ExtractGovernanceVersion(a.payload) == Success(Some(a.ballot.keyset.version))
  }

  /** A governed operation marks a fresh nonce and nothing else touches nonces. */
  lemma NonceStep(w: World, en: Entry)
    requires Follows(w, en)
    ensures match ApprovalOf(en)
            case Some(a) =>
              && Sound(a) && a.ballot.keyset == w.store.KeysetOf(a.body) && a.ballot.crypto == w.crypto
              && NonceKey(w.crypto, a.payload) !in w.store.usedNonces
              && en.after.store.usedNonces == w.store.usedNonces + {NonceKey(w.crypto, a.payload)}
            case None => en.after.store.usedNonces == w.store.usedNonces
  {
    hide Admit;
    Stages(w, en);
    GateEffect(en.env, en.before, en.logic, GateOf(en.before, en.call));
    hide Authorize;
    hide PreCheck;
    hide PostCheck;
    hide GateOf;
    hide LogicAfter;
    hide EventsOf;
    hide CardsAfter;
    hide SubCardsAfter;
    hide ExtractGovernanceVersion;
    hide ExtractNonceBytes;
  }

  // ---------------------------------------------------------------------------
  // Single use
  // ---------------------------------------------------------------------------

  /** Every accepted payload has its own nonce, and the used nonces are exactly theirs. */
  ghost predicate SingleUse(w: World) {
    var a := Approvals(w.history);
    && |w.store.usedNonces| == |a|
    && (forall i :: 0 <= i < |a| ==> NonceKey(w.crypto, a[i].payload) in w.store.usedNonces)
    && (forall i, j :: 0 <= i < j < |a| ==> NonceKey(w.crypto, a[i].payload) != NonceKey(w.crypto, a[j].payload))
  }

  lemma SingleUseStep(w: World, en: Entry)
    requires Follows(w, en) && SingleUse(w)
    ensures SingleUse(Extend(w, en))
  {
    hide Admit;
    hide Follows;
    hide ApprovalOf;
    hide Approvals;
    hide NonceKey;
    NonceStep(w, en);
    ApprovalsExtend(w.history, en);
  }

  lemma {:induction false} SingleUseAlways(t: Trace)
    requires Valid(t)
    ensures SingleUse(End(t))
  {
    hide Admit;
    hide Follows;
    hide Step;
    if t.Then? {
      var en := LastStep(t);
      SingleUseAlways(t.prev);
      if en.Some? {
        SingleUseStep(End(t.prev), en.value);
      }
    }
  }

  /**
   * No payload bytes are ever accepted twice, by whichever bodies and through whichever instances,
   * and the nonces marked used are as many as the accepted governance operations.
   */
  lemma PayloadsAreSingleUse(t: Trace)
    requires Valid(t)
    ensures var a := Approvals(End(t).history);
            && |End(t).store.usedNonces| == |a|
            && forall i, j :: 0 <= i < j < |a| ==> a[i].payload != a[j].payload
  {
    hide Admit;
    hide Valid;
    hide End;
    hide Approvals;
    hide NonceKey;
    SingleUseAlways(t);
  }

  // ---------------------------------------------------------------------------
  // Keysets
  // ---------------------------------------------------------------------------

  predicate Majority(k: Keyset) {
    2 * k.quorum > k.keyCount
  }

  /** A keyset is replaced by a rotation only, which takes a majority quorum and the next version. */
  lemma KeysetStep(w: World, en: Entry, body: u8)
    requires Follows(w, en)
    ensures var k, k' := w.store.KeysetOf(body), en.after.store.KeysetOf(body);
            if en.call.RotateGovernanceKeys? && en.call.body == body
            then Majority(k') && k'.version == (k.version + 1) % U32_RANGE
            else k' == k
  {
    hide Admit;
    Checks(w, en);
    hide CardPreCheck;
    hide DnsPreCheck;
    hide PostCheck;
    hide LogicAfter;
    hide EventsOf;
    hide CardsAfter;
    hide SubCardsAfter;
  }

  /** The three bodies that were bootstrapped always have a majority keyset. */
  ghost predicate Keysets(w: World) {
    && (forall b: u8 :: w.store.KeysetOf(b).version <= |w.history|)
    && (forall b: u8 :: b <= DNS_GOVERNANCE_BODY ==> Majority(w.store.KeysetOf(b)))
  }

  /** Each version of a body names one keyset. */
  ghost predicate Named(w: World) {
    var a := Approvals(w.history);
    && (forall i :: 0 <= i < |a| ==> Sound(a[i]) && (a[i].body <= DNS_GOVERNANCE_BODY ==> Majority(a[i].ballot.keyset)))
    && (forall i :: 0 <= i < |a| ==> a[i].ballot.keyset.version <= w.store.KeysetOf(a[i].body).version)
    && (forall i :: 0 <= i < |a| && a[i].ballot.keyset.version == w.store.KeysetOf(a[i].body).version ==>
          a[i].ballot.keyset == w.store.KeysetOf(a[i].body))
    && (forall i, j :: 0 <= i < j < |a| && a[i].body == a[j].body
                       && a[i].ballot.keyset.version == a[j].ballot.keyset.version ==>
          a[i].ballot.keyset == a[j].ballot.keyset)
  }

  lemma KeysetsStep(w: World, en: Entry)
    requires Follows(w, en) && Keysets(w)
    ensures Keysets(Extend(w, en))
    ensures forall b: u8 :: en.after.store.KeysetOf(b) == w.store.KeysetOf(b)
                            || en.after.store.KeysetOf(b).version == w.store.KeysetOf(b).version + 1
  {
    hide Admit;
    hide Follows;
    Tables(w, en);
    forall b: u8
      ensures en.after.store.KeysetOf(b).version <= |w.history| + 1
      ensures b <= DNS_GOVERNANCE_BODY ==> Majority(en.after.store.KeysetOf(b))
      ensures en.after.store.KeysetOf(b) == w.store.KeysetOf(b)
              || en.after.store.KeysetOf(b).version == w.store.KeysetOf(b).version + 1
    {
      KeysetStep(w, en, b);
      assert w.store.KeysetOf(b).version <= |w.history|;
    }
  }

  lemma NamedStep(w: World, en: Entry)
    requires Follows(w, en) && Keysets(w) && Named(w)
    ensures Named(Extend(w, en))
  {
    hide Admit;
    hide Follows;
    hide ApprovalOf;
    hide Approvals;
    hide Sound;
    NonceStep(w, en);
    ApprovalsExtend(w.history, en);
    KeysetsStep(w, en);
  }

  lemma {:induction false} NamedAlways(t: Trace)
    requires Valid(t)
    ensures Keysets(End(t)) && Named(End(t))
  {
    hide Admit;
    hide Follows;
    hide Step;
    if t.Then? {
      var en := LastStep(t);
      NamedAlways(t.prev);
      if en.Some? {
        KeysetsStep(End(t.prev), en.value);
        NamedStep(End(t.prev), en.value);
      }
    }
  }

  /** The key indices that signed an accepted payload. */
  ghost function SignersOf(a: Approval): set<nat>
    requires Sound(a)
  {
    a.ballot.Signers(a.sigs).value
  }

  /**
   * Quorum intersection over runs: two governance actions accepted by the same body (root, press
   * registry or DNS) at the same version share a signing key.
   */
  lemma ActionsShareASigner(t: Trace, i: nat, j: nat)
    requires Valid(t)
    requires var a := Approvals(End(t).history);
             i < j < |a| && a[i].body == a[j].body <= DNS_GOVERNANCE_BODY
             && ExtractGovernanceVersion(a[i].payload) == ExtractGovernanceVersion(a[j].payload)
    ensures var a := Approvals(End(t).history);
            && Sound(a[i]) && Sound(a[j]) && a[i].ballot.keyset == a[j].ballot.keyset
            && SignersOf(a[i]) * SignersOf(a[j]) != {}
  {
    hide Admit;
    hide Valid;
    hide End;
    hide Approvals;
    hide ExtractGovernanceVersion;
    NamedAlways(t);
    var a := Approvals(End(t).history);
    MajoritiesIntersect(a[i].ballot, a[i].sigs, a[j].ballot, a[j].sigs);
  }

  /** Each accepted action was signed by `quorum` different public keys of its keyset. */
  lemma ActionsHaveDistinctSigners(t: Trace, i: nat)
    requires Valid(t) && i < |Approvals(End(t).history)|
    ensures var a := Approvals(End(t).history)[i];
            && Sound(a)
            && |SignerKeys(a.ballot, a.sigs)| == |a.sigs| >= a.ballot.keyset.quorum
  {
    hide Admit;
    hide Valid;
    hide End;
    hide Approvals;
    hide ExtractGovernanceVersion;
    NamedAlways(t);
    var a := Approvals(End(t).history)[i];
    DistinctKeysSign(a.ballot, a.sigs);
  }
}
