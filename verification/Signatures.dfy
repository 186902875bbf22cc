/**
 * What the signatures of a call must be over, by whom, and for which operation: the press write
 * gate, the governance quorum, the co-signature and the admin signature as plain conditions.
 */
module Signatures {
  import opened Wrappers
  import opened ProtocolTypes
  import opened PayloadParser
  import opened Storage
  import opened Quorum
  import opened Registry

  // ---------------------------------------------------------------------------
  // Who signs
  // ---------------------------------------------------------------------------

  /** The field stands in the payload with exactly this text. */
  predicate Says(payload: Bytes, name: string, text: Bytes) {
    Field(payload, Ascii(name)) == Success(Some(text))
  }

  /** The field stands in the payload as the decimal of this 64-bit number. */
  ghost predicate SaysNumber(payload: Bytes, name: string, n: nat) {
    exists text :: Says(payload, name, text) && U64Of(text) == Some(n)
  }

  /** An active press of the policy has signed the payload, for this op. */
  predicate PressSigned(e: Env, s: Store, l: Logic, policy: B256, stamp: Stamp, op: string) {
    var entry := Get(s.presses, (policy, stamp.press), NO_PRESS);
    && |entry.key| == 64
    && entry.active
    && e.crypto.verify(l.verifier, e.crypto.keccak(stamp.payload), stamp.sig, entry.key)
    && Says(stamp.payload, "op", Ascii(op))
  }

  predicate Recognized(s: Store, policy: B256) {
    |Get(s.policyKeys, policy, [])| == 64
  }

  /** The press has also named its next sequence number, and its policy is recognized. */
  ghost predicate PressAllows(e: Env, s: Store, l: Logic, policy: B256, stamp: Stamp, op: string) {
    && Recognized(s, policy)
    && PressSigned(e, s, l, policy, stamp, op)
    && SaysNumber(stamp.payload, "sequence", Get(s.presses, (policy, stamp.press), NO_PRESS).nextSequence)
  }

  /** The `i`-th 64-byte key of a keyset. */
  function KeySlice(k: Keyset, i: nat): Bytes
    requires 64 * i + 64 <= |k.keysFlat|
  {
    k.keysFlat[64 * i..64 * i + 64]
  }

  /** The keyset has a full key at the index, and the signature over the payload verifies under it. */
  predicate SignedBy(e: Env, l: Logic, k: Keyset, payload: Bytes, sig: Bytes, i: nat) {
    && i < k.keyCount && 64 * i + 64 <= |k.keysFlat|
    && e.crypto.verify(l.verifier, e.crypto.keccak(payload), sig, KeySlice(k, i))
  }

  /** The lowest such index. */
  ghost predicate FirstSignedBy(e: Env, l: Logic, k: Keyset, payload: Bytes, sig: Bytes, i: nat) {
    SignedBy(e, l, k, payload, sig, i) && forall j :: 0 <= j < i ==> !SignedBy(e, l, k, payload, sig, j)
  }

  /** A signature counts: 64 bytes, and a first key below index 50. */
  ghost predicate Counts(e: Env, l: Logic, k: Keyset, payload: Bytes, sig: Bytes) {
    |sig| == 64 && exists i: nat :: i < 50 && FirstSignedBy(e, l, k, payload, sig, i)
  }

  /** Two signatures are by the same key. */
  ghost predicate SameSigner(e: Env, l: Logic, k: Keyset, payload: Bytes, sig: Bytes, sig': Bytes) {
    exists i: nat :: FirstSignedBy(e, l, k, payload, sig, i) && FirstSignedBy(e, l, k, payload, sig', i)
  }

  /** A quorum of the keyset has signed: every signature counts, no two are by the same key, there are enough. */
  ghost predicate QuorumSigned(e: Env, l: Logic, k: Keyset, gov: Signed) {
    && (forall n :: 0 <= n < |gov.sigs| ==> Counts(e, l, k, gov.payload, gov.sigs[n]))
    && (forall m, n :: 0 <= m < n < |gov.sigs| ==> !SameSigner(e, l, k, gov.payload, gov.sigs[m], gov.sigs[n]))
    && |gov.sigs| >= k.quorum
  }

  /** The payload's version is the body's, cut to 32 bits, and its nonce is fresh. */
  ghost predicate Fresh(e: Env, s: Store, body: u8, payload: Bytes) {
    && (exists v: nat :: SaysNumber(payload, "governance_version", v)
                         && v % 0x1_0000_0000 == Get(s.keysets, body, NO_KEYSET).version)
    && (exists raw :: Says(payload, "nonce", raw) && e.crypto.keccak(raw) !in s.usedNonces)
  }

  ghost predicate BodyAllows(e: Env, s: Store, l: Logic, body: u8, gov: Signed) {
    Fresh(e, s, body, gov.payload) && QuorumSigned(e, l, Get(s.keysets, body, NO_KEYSET), gov)
  }

  // ---------------------------------------------------------------------------
  // The gates
  // ---------------------------------------------------------------------------

  lemma NumberSaid(payload: Bytes, name: string, n: nat)
    ensures SaysNumber(payload, name, n) <==> Number(payload, Ascii(name)) == Success(Some(n))
  {
    hide Field;
    hide U64Of;
    if Number(payload, Ascii(name)) == Success(Some(n)) {
      assert Says(payload, name, Field(payload, Ascii(name)).value.value);
    }
  }

  /** The press write gate passes exactly what the press allows. */
  lemma PressGateExactly(e: Env, s: Store, l: Logic, policy: B256, stamp: Stamp, op: string)
    ensures PressGate(e, s, l, policy, stamp, Ascii(op)).Success? <==> PressAllows(e, s, l, policy, stamp, op)
  {
    hide Field;
    hide U64Of;
    hide Ascii;
    NumberSaid(stamp.payload, "sequence", s.Press(policy, stamp.press).nextSequence);
  }

  lemma CoSignatureExactly(e: Env, s: Store, l: Logic, policy: B256, stamp: Stamp)
    ensures CoSignature(e, s, l, policy, stamp).Success? <==>
              PressSigned(e, s, l, policy, stamp, "register_address_forward") && |stamp.sig| == 64
  {
    hide Field;
    hide Ascii;
  }

  lemma SignsExactly(e: Env, s: Store, l: Logic, body: u8, payload: Bytes, sig: Bytes, i: nat)
    ensures var b := BallotOf(e, s, l, body, payload);
            SignedBy(e, l, Get(s.keysets, body, NO_KEYSET), payload, sig, i) <==> b.HasKey(i) && b.Signs(sig, i)
  {
  }

  lemma FirstExactly(e: Env, s: Store, l: Logic, body: u8, payload: Bytes, sig: Bytes, i: nat)
    ensures FirstSignedBy(e, l, Get(s.keysets, body, NO_KEYSET), payload, sig, i)
            <==> BallotOf(e, s, l, body, payload).First(sig) == Some(i)
  {
    var b := BallotOf(e, s, l, body, payload);
    var first := b.First(sig);
    SignsExactly(e, s, l, body, payload, sig, i);
    forall j: nat ensures SignedBy(e, l, Get(s.keysets, body, NO_KEYSET), payload, sig, j)
                          <==> b.HasKey(j) && b.Signs(sig, j)
    {
      SignsExactly(e, s, l, body, payload, sig, j);
    }
    hide SignedBy;
    if first == Some(i) {
      forall j | 0 <= j < i ensures !SignedBy(e, l, Get(s.keysets, body, NO_KEYSET), payload, sig, j) {
        assert b.HasKey(j);
      }
    }
  }

  lemma CountsExactly(e: Env, s: Store, l: Logic, body: u8, payload: Bytes, sig: Bytes)
    ensures var first := BallotOf(e, s, l, body, payload).First(sig);
            Counts(e, l, Get(s.keysets, body, NO_KEYSET), payload, sig) <==>
              |sig| == 64 && first.Some? && first.value < 50
  {
    hide FirstSignedBy;
    var first := BallotOf(e, s, l, body, payload).First(sig);
    forall i: nat ensures FirstSignedBy(e, l, Get(s.keysets, body, NO_KEYSET), payload, sig, i) <==> first == Some(i) {
      FirstExactly(e, s, l, body, payload, sig, i);
    }
    if first.Some? {
      assert FirstSignedBy(e, l, Get(s.keysets, body, NO_KEYSET), payload, sig, first.value);
    }
  }

  lemma SameSignerExactly(e: Env, s: Store, l: Logic, body: u8, payload: Bytes, sig: Bytes, sig': Bytes)
    requires BallotOf(e, s, l, body, payload).First(sig).Some?
    ensures var b := BallotOf(e, s, l, body, payload);
            SameSigner(e, l, Get(s.keysets, body, NO_KEYSET), payload, sig, sig') <==> b.First(sig) == b.First(sig')
  {
    hide FirstSignedBy;
    var b := BallotOf(e, s, l, body, payload);
    forall i: nat
      ensures FirstSignedBy(e, l, Get(s.keysets, body, NO_KEYSET), payload, sig, i) <==> b.First(sig) == Some(i)
      ensures FirstSignedBy(e, l, Get(s.keysets, body, NO_KEYSET), payload, sig', i) <==> b.First(sig') == Some(i)
    {
      FirstExactly(e, s, l, body, payload, sig, i);
      FirstExactly(e, s, l, body, payload, sig', i);
    }
    assert FirstSignedBy(e, l, Get(s.keysets, body, NO_KEYSET), payload, sig, b.First(sig).value);
  }

  lemma MatchedExactly(e: Env, s: Store, l: Logic, body: u8, gov: Signed)
    ensures Matched(BallotOf(e, s, l, body, gov.payload), gov.sigs) <==>
              forall n :: 0 <= n < |gov.sigs| ==>
                Counts(e, l, Get(s.keysets, body, NO_KEYSET), gov.payload, gov.sigs[n])
  {
    hide Counts;
    hide BallotOf;
    var b := BallotOf(e, s, l, body, gov.payload);
    forall n | 0 <= n < |gov.sigs|
      ensures Counts(e, l, Get(s.keysets, body, NO_KEYSET), gov.payload, gov.sigs[n]) <==>
                |gov.sigs[n]| == 64 && b.First(gov.sigs[n]).Some? && b.First(gov.sigs[n]).value < 50
    {
      CountsExactly(e, s, l, body, gov.payload, gov.sigs[n]);
    }
    assert Matched(b, gov.sigs) ==> forall n :: 0 <= n < |gov.sigs| ==> gov.sigs[n] in gov.sigs;
  }

  lemma DifferentExactly(e: Env, s: Store, l: Logic, body: u8, gov: Signed)
    requires Matched(BallotOf(e, s, l, body, gov.payload), gov.sigs)
    ensures AllDifferent(BallotOf(e, s, l, body, gov.payload), gov.sigs) <==>
              forall m, n :: 0 <= m < n < |gov.sigs| ==>
                !SameSigner(e, l, Get(s.keysets, body, NO_KEYSET), gov.payload, gov.sigs[m], gov.sigs[n])
  {
    hide SameSigner;
    hide BallotOf;
    var b := BallotOf(e, s, l, body, gov.payload);
    forall m, n | 0 <= m < n < |gov.sigs|
      ensures SameSigner(e, l, Get(s.keysets, body, NO_KEYSET), gov.payload, gov.sigs[m], gov.sigs[n])
              <==> b.First(gov.sigs[m]) == b.First(gov.sigs[n])
    {
      assert gov.sigs[m] in gov.sigs;
      SameSignerExactly(e, s, l, body, gov.payload, gov.sigs[m], gov.sigs[n]);
    }
  }

  /** The signature count passes exactly what a quorum has signed. */
  lemma SignersExactly(e: Env, s: Store, l: Logic, body: u8, gov: Signed)
    ensures BallotOf(e, s, l, body, gov.payload).Signers(gov.sigs).Success?
            <==> QuorumSigned(e, l, Get(s.keysets, body, NO_KEYSET), gov)
  {
    hide Counts;
    hide SameSigner;
    hide AllDifferent;
    hide Matched;
    hide Firsts;
    var b := BallotOf(e, s, l, body, gov.payload);
    AcceptedExactly(b, gov.sigs);
    MatchedExactly(e, s, l, body, gov);
    if Matched(b, gov.sigs) {
      FirstsDistinct(b, gov.sigs);
      DifferentExactly(e, s, l, body, gov);
    }
  }

  lemma FreshExactly(e: Env, s: Store, body: u8, payload: Bytes)
    ensures Fresh(e, s, body, payload) <==>
              && (exists v: nat :: ExtractGovernanceVersion(payload) == Success(Some(v))
                              && v == Get(s.keysets, body, NO_KEYSET).version)
              && ExtractNonceBytes(payload).Success? && ExtractNonceBytes(payload).value.Some?
              && e.crypto.keccak(ExtractNonceBytes(payload).value.value) !in s.usedNonces
  {
    hide Field;
    hide U64Of;
    hide Ascii;
    var number := Number(payload, FIELD_GOVERNANCE_VERSION);
    if number.Success? && number.value.Some? {
      NumberSaid(payload, "governance_version", number.value.value);
    }
    forall v: nat ensures SaysNumber(payload, "governance_version", v) <==> number == Success(Some(v)) {
      NumberSaid(payload, "governance_version", v);
    }
    if ExtractNonceBytes(payload).Success? && ExtractNonceBytes(payload).value.Some? {
      assert Says(payload, "nonce", ExtractNonceBytes(payload).value.value);
    }
  }

  /** The governance check passes exactly what the body allows. */
  lemma QuorumGateExactly(e: Env, s: Store, l: Logic, body: u8, gov: Signed)
    ensures QuorumGate(e, s, l, body, gov).Success? <==> BodyAllows(e, s, l, body, gov)
  {
    hide ExtractGovernanceVersion;
    hide ExtractNonceBytes;
    hide QuorumSigned;
    hide Fresh;
    hide BallotOf;
    FreshExactly(e, s, body, gov.payload);
    SignersExactly(e, s, l, body, gov);
  }

  // ---------------------------------------------------------------------------
  // The remaining signatures
  // ---------------------------------------------------------------------------

  /**
   * A master with a DNS admin key has signed the admin payload with that key; for every other
   * master there is no admin payload and the signature is 64 zero bytes.
   */
  ghost predicate AdminAllows(e: Env, s: Store, l: Logic, master: B256, payload: Bytes, sig: Bytes) {
    var key := Get(s.adminKeys, master, []);
    if |key| == 64 then
      && payload != [] && |sig| == 64
      && (exists text :: Says(payload, "sub_card_address", text))
      && (exists text :: Says(payload, "sub_card_doc_cid", text))
      && e.crypto.verify(l.verifier, e.crypto.keccak(payload), sig, key)
    else payload == [] && sig == seq(64, _ => 0)
  }

  lemma AdminSignatureExactly(e: Env, s: Store, l: Logic, master: B256, payload: Bytes, sig: Bytes)
    ensures AdminSignature(e, s, l, master, payload, sig).Success? <==> AdminAllows(e, s, l, master, payload, sig)
  {
    hide Field;
    hide Ascii;
    var sub, doc := Field(payload, FIELD_SUB_CARD_ADDRESS), Field(payload, FIELD_SUB_CARD_DOC_CID);
    if sub.Success? && sub.value.Some? {
      assert Says(payload, "sub_card_address", sub.value.value);
    }
    if doc.Success? && doc.value.Some? {
      assert Says(payload, "sub_card_doc_cid", doc.value.value);
    }
    assert IsZeroSignature(sig) <==> sig == seq(64, _ => 0);
  }

  /**
   * An active press with the first key scheme has signed the rotation with its present key, in
   * time, for the ML-DSA key whose hash its authorization named.
   */
  ghost predicate RotationAllows(e: Env, s: Store, l: Logic, policy: B256, stamp: Stamp, newKey: Bytes,
                                 mldsaSig: Bytes)
  {
    var entry := Get(s.presses, (policy, stamp.press), NO_PRESS);
    && |entry.key| == 64
    && entry.active
    && entry.keyScheme == 0
    && s.keySchemePhase != 0
    && (exists deadline: nat :: SaysNumber(stamp.payload, "deadline_block", deadline) && e.block <= deadline)
    && e.crypto.verify(l.verifier, e.crypto.keccak(stamp.payload), stamp.sig, entry.key)
    && |newKey| == 1312 && e.crypto.keccak(newKey) == entry.mldsaHash
    && |mldsaSig| == 2420
  }

  lemma KeySchemeExactly(e: Env, s: Store, l: Logic, policy: B256, stamp: Stamp, newKey: Bytes, mldsaSig: Bytes)
    ensures KeySchemeChecks(e, s, l, policy, stamp, newKey, mldsaSig).Success?
            <==> RotationAllows(e, s, l, policy, stamp, newKey, mldsaSig)
  {
    hide Field;
    hide U64Of;
    hide Ascii;
    var number := Number(stamp.payload, FIELD_DEADLINE_BLOCK);
    forall v: nat ensures SaysNumber(stamp.payload, "deadline_block", v) <==> number == Success(Some(v)) {
      NumberSaid(stamp.payload, "deadline_block", v);
    }
    hide SaysNumber;
    if number.Success? && number.value.Some? {
      assert SaysNumber(stamp.payload, "deadline_block", number.value.value);
    }
  }

  /** The key is one of the keyset's, and some signature over the payload verifies under it. */
  ghost predicate KeySigned(e: Env, l: Logic, k: Keyset, gov: Signed, key: Bytes) {
    && (exists i: nat :: 64 * i + 64 <= |k.keysFlat| && key == KeySlice(k, i))
    && (exists sig :: sig in gov.sigs && e.crypto.verify(l.verifier, e.crypto.keccak(gov.payload), sig, key))
  }

  /** At least a quorum of different keys of the keyset, as byte strings, have signed the payload. */
  ghost predicate QuorumOfKeys(e: Env, l: Logic, k: Keyset, gov: Signed) {
    exists keys: set<Bytes> :: |keys| >= k.quorum && forall key :: key in keys ==> KeySigned(e, l, k, gov, key)
  }

  lemma KeyIsSlice(b: Ballot, i: nat)
    requires b.HasKey(i)
    ensures 64 * i + 64 <= |b.keyset.keysFlat| && b.Key(i) == KeySlice(b.keyset, i)
  {
  }

  lemma DifferentKeysSigned(e: Env, s: Store, l: Logic, body: u8, gov: Signed)
    requires BodyAllows(e, s, l, body, gov)
    ensures QuorumOfKeys(e, l, Get(s.keysets, body, NO_KEYSET), gov)
  {
    hide QuorumSigned;
    hide Fresh;
    var b, k := BallotOf(e, s, l, body, gov.payload), Get(s.keysets, body, NO_KEYSET);
    SignersExactly(e, s, l, body, gov);
    DistinctKeysSign(b, gov.sigs);
    var keys := SignerKeys(b, gov.sigs);
    forall key | key in keys ensures KeySigned(e, l, k, gov, key) {
      var i: nat :| i in b.Signers(gov.sigs).value && b.HasKey(i) && key == b.Key(i);
      KeyIsSlice(b, i);
    }
  }
}
