/**
 * Counting governance signatures: the signer loop of verify_governance_quorum
 * (contracts/logic-contract/src/write_gate.rs) and what an accepted count means.
 */
module Quorum {
  import opened Wrappers
  import opened ProtocolTypes
  import opened Storage

  /** One message put to one keyset, checked by one verifier module. */
  datatype Ballot = Ballot(crypto: Crypto, verifier: Address, hash: B256, keyset: Keyset) {

    /** The loop stops at the first index that has no full key. */
    predicate HasKey(i: nat) {
      i < keyset.keyCount && (i + 1) * KEY_LEN <= |keyset.keysFlat|
    }

    function Key(i: nat): Bytes
      requires HasKey(i)
    {
      keyset.keysFlat[i * KEY_LEN..(i + 1) * KEY_LEN]
    }

    predicate Signs(sig: Bytes, i: nat)
      requires HasKey(i)
    {
      crypto.verify(verifier, hash, sig, Key(i))
    }

    function FirstFrom(sig: Bytes, i: nat): (r: Option<nat>)
      ensures r.Some? ==> i <= r.value && HasKey(r.value) && Signs(sig, r.value)
      ensures r.Some? ==> forall j :: i <= j < r.value ==> !Signs(sig, j)
      ensures r.None? ==> forall j :: i <= j && HasKey(j) ==> !Signs(sig, j)
      decreases keyset.keyCount - i
    {
      if !HasKey(i) then None
      else if Signs(sig, i) then Some(i)
      else FirstFrom(sig, i + 1)
    }

    /** The lowest key index under which a signature verifies. */
    function First(sig: Bytes): Option<nat> {
      FirstFrom(sig, 0)
    }

    /** The indices that sign, or why the signatures are refused; `used` has signed already. */
    function Tally(sigs: seq<Bytes>, used: set<nat>): Result<set<nat>, Error>
      decreases |sigs|
    {
      if sigs == [] then Success(used)
      else
        :- Need(|sigs[0]| == KEY_LEN, InvalidGovernanceSignature);
        :- Need(First(sigs[0]).Some?, InvalidGovernanceSignature);
        var idx := First(sigs[0]).value;
        :- Need(idx < MAX_GOVERNANCE_KEYS, Panic);
        :- Need(idx !in used, DuplicateSigner);
        Tally(sigs[1..], used + {idx})
    }

    /** The signing indices when the quorum is met. */
    function Signers(sigs: seq<Bytes>): Result<set<nat>, Error> {
      var signers :- Tally(sigs, {});
      :- Need(|signers| >= keyset.quorum, InsufficientQuorum);
      Success(signers)
    }
  }

  // ---------------------------------------------------------------------------
  // The loop
  // ---------------------------------------------------------------------------

  /** The inner loop: which key verifies this signature. */
  method FindKey(b: Ballot, sig: Bytes) returns (foundKeyIdx: Option<nat>)
    ensures foundKeyIdx == b.First(sig)
  {
    foundKeyIdx := None;
    var keyIdx := 0;
    while keyIdx < b.keyset.keyCount
      invariant 0 <= keyIdx
      invariant b.First(sig) == b.FirstFrom(sig, keyIdx)
    {
      var start := keyIdx * KEY_LEN;
      var end := start + KEY_LEN;
      if end > |b.keyset.keysFlat| {
        break;
      }
      var pubkeySlice := b.keyset.keysFlat[start..end];
      assert pubkeySlice == b.Key(keyIdx);
      if b.crypto.verify(b.verifier, b.hash, sig, pubkeySlice) {
        return Some(keyIdx);
      }
      keyIdx := keyIdx + 1;
    }
  }

  /** The indices marked in the duplicate table. */
  ghost function Marked(used: seq<bool>): set<nat> {
    set i: nat | i < |used| && used[i]
  }

  method CountSigners(b: Ballot, sigs: seq<Bytes>) returns (r: Result<nat, Error>)
    ensures r == match b.Signers(sigs) { case Success(s) => Success(|s|) case Failure(e) => Failure(e) }
  {
    var usedKeyIndices := new bool[MAX_GOVERNANCE_KEYS](_ => false);
    var validSigCount := 0;
    ghost var used := {};
    for k := 0 to |sigs|
      invariant used == Marked(usedKeyIndices[..])
      invariant validSigCount == |used|
      invariant b.Tally(sigs, {}) == b.Tally(sigs[k..], used)
    {
      var sigBytes := sigs[k];
      assert sigs[k..][0] == sigBytes && sigs[k..][1..] == sigs[k + 1..];
      if |sigBytes| != KEY_LEN {
        return Failure(InvalidGovernanceSignature);
      }
      var foundKeyIdx := FindKey(b, sigBytes);
      match foundKeyIdx {
        case None =>
          return Failure(InvalidGovernanceSignature);
        case Some(idx) =>
          if idx >= usedKeyIndices.Length {
            return Failure(Panic);
          }
          if usedKeyIndices[idx] {
            assert idx in Marked(usedKeyIndices[..]);
            return Failure(DuplicateSigner);
          }
          usedKeyIndices[idx] := true;
          validSigCount := validSigCount + 1;
          used := used + {idx};
      }
    }
    assert sigs[|sigs|..] == [];
    if validSigCount < b.keyset.quorum {
      return Failure(InsufficientQuorum);
    }
    return Success(validSigCount);
  }

  // ---------------------------------------------------------------------------
  // What acceptance means
  // ---------------------------------------------------------------------------

  /** Each signature is well formed and is matched by a key the duplicate table has room for. */
  ghost predicate Matched(b: Ballot, sigs: seq<Bytes>) {
    forall s :: s in sigs ==> |s| == KEY_LEN && b.First(s).Some? && b.First(s).value < MAX_GOVERNANCE_KEYS
  }

  /** The first-match indices of the signatures. */
  ghost function Firsts(b: Ballot, sigs: seq<Bytes>): set<nat>
    requires Matched(b, sigs)
  {
    set s | s in sigs :: b.First(s).value
  }

  lemma FirstsCons(b: Ballot, s: Bytes, rest: seq<Bytes>)
    requires Matched(b, [s] + rest)
    ensures Matched(b, rest)
    ensures Firsts(b, [s] + rest) == {b.First(s).value} + Firsts(b, rest)
  {
    var all := [s] + rest;
    assert forall t :: t in all <==> t == s || t in rest;
  }

  lemma {:induction false} FirstsSize(b: Ballot, sigs: seq<Bytes>)
    requires Matched(b, sigs)
    ensures |Firsts(b, sigs)| <= |sigs|
    decreases |sigs|
  {
    if sigs != [] {
      assert sigs == [sigs[0]] + sigs[1..];
      FirstsCons(b, sigs[0], sigs[1..]);
      FirstsSize(b, sigs[1..]);
    }
  }

  lemma {:induction false} TallyAccepts(b: Ballot, sigs: seq<Bytes>, used: set<nat>)
    requires b.Tally(sigs, used).Success?
    ensures Matched(b, sigs) && Firsts(b, sigs) !! used && |Firsts(b, sigs)| == |sigs|
    ensures b.Tally(sigs, used).value == Firsts(b, sigs) + used
    decreases |sigs|
  {
    hide Matched;
    hide Firsts;
    if sigs == [] {
      NoFirsts(b);
    } else {
      var s, rest := sigs[0], sigs[1..];
      TallyFirst(b, sigs, used);
      TallyAccepts(b, rest, used + {b.First(s).value});
      FirstsGrow(b, s, rest, used);
      assert sigs == [s] + rest;
    }
  }

  lemma NoFirsts(b: Ballot)
    ensures Matched(b, []) && Firsts(b, []) == {}
  {
  }

  lemma FirstsGrow(b: Ballot, s: Bytes, rest: seq<Bytes>, used: set<nat>)
    requires |s| == KEY_LEN && b.First(s).Some? && b.First(s).value < MAX_GOVERNANCE_KEYS
    requires Matched(b, rest) && Firsts(b, rest) !! used + {b.First(s).value} && b.First(s).value !in used
    ensures Matched(b, [s] + rest) && Firsts(b, [s] + rest) !! used
    ensures |Firsts(b, [s] + rest)| == |Firsts(b, rest)| + 1
    ensures Firsts(b, [s] + rest) + used == Firsts(b, rest) + (used + {b.First(s).value})
  {
    var all := [s] + rest;
    assert forall t :: t in all <==> t == s || t in rest;
    assert Matched(b, all);
    FirstsCons(b, s, rest);
  }

  /** What the loop has found out about the first signature once it accepts them all. */
  lemma TallyFirst(b: Ballot, sigs: seq<Bytes>, used: set<nat>)
    requires b.Tally(sigs, used).Success? && sigs != []
    ensures b.First(sigs[0]).Some? && |sigs[0]| == KEY_LEN && b.First(sigs[0]).value < MAX_GOVERNANCE_KEYS
    ensures b.First(sigs[0]).value !in used
    ensures b.Tally(sigs, used) == b.Tally(sigs[1..], used + {b.First(sigs[0]).value})
  {
  }

  lemma {:induction false} TallyComplete(b: Ballot, sigs: seq<Bytes>, used: set<nat>)
    requires Matched(b, sigs) && Firsts(b, sigs) !! used && |Firsts(b, sigs)| == |sigs|
    ensures b.Tally(sigs, used).Success?
    decreases |sigs|
  {
    if sigs != [] {
      var s, rest := sigs[0], sigs[1..];
      var idx := b.First(s).value;
      assert sigs == [s] + rest;
      FirstsCons(b, s, rest);
      FirstsSize(b, rest);
      assert idx !in Firsts(b, rest);
      TallyComplete(b, rest, used + {idx});
    }
  }

  /**
   * Exactly what the loop accepts: every signature is matched, there are as many first matches
   * as signatures (no two signatures select the same key), and at least `quorum` of them.
   */
  lemma AcceptedExactly(b: Ballot, sigs: seq<Bytes>)
    ensures b.Signers(sigs).Success? <==>
              Matched(b, sigs) && |Firsts(b, sigs)| == |sigs| && |sigs| >= b.keyset.quorum
    ensures b.Signers(sigs).Success? ==> b.Signers(sigs).value == Firsts(b, sigs)
  {
    if b.Tally(sigs, {}).Success? {
      TallyAccepts(b, sigs, {});
    }
    if Matched(b, sigs) && |Firsts(b, sigs)| == |sigs| {
      TallyComplete(b, sigs, {});
    }
  }

  /** No two signatures have the same first match. */
  ghost predicate AllDifferent(b: Ballot, sigs: seq<Bytes>) {
    forall m, n :: 0 <= m < n < |sigs| ==> b.First(sigs[m]) != b.First(sigs[n])
  }

  lemma DifferentCons(b: Ballot, s: Bytes, rest: seq<Bytes>)
    ensures AllDifferent(b, [s] + rest) <==>
              AllDifferent(b, rest) && forall n :: 0 <= n < |rest| ==> b.First(rest[n]) != b.First(s)
  {
    var all := [s] + rest;
    if AllDifferent(b, all) {
      forall m, n | 0 <= m < n < |rest| ensures b.First(rest[m]) != b.First(rest[n]) {
        assert b.First(all[m + 1]) != b.First(all[n + 1]);
      }
      forall n | 0 <= n < |rest| ensures b.First(rest[n]) != b.First(s) {
        assert b.First(all[0]) != b.First(all[n + 1]);
      }
    }
  }

  /** As many first matches as signatures means that they are all different. */
  lemma {:induction false} FirstsDistinct(b: Ballot, sigs: seq<Bytes>)
    requires Matched(b, sigs)
    ensures |Firsts(b, sigs)| == |sigs| <==> AllDifferent(b, sigs)
    decreases |sigs|
  {
    if sigs == [] {
      NoFirsts(b);
    } else {
      var s, rest := sigs[0], sigs[1..];
      assert sigs == [s] + rest;
      FirstsCons(b, s, rest);
      hide AllDifferent;
      hide Firsts;
      hide Matched;
      FirstsDistinct(b, rest);
      FirstsSize(b, rest);
      FirstAmong(b, s, rest);
      DifferentCons(b, s, rest);
    }
  }

  lemma FirstAmong(b: Ballot, s: Bytes, rest: seq<Bytes>)
    requires Matched(b, [s] + rest) && Matched(b, rest)
    ensures b.First(s).Some?
    ensures b.First(s).value in Firsts(b, rest) <==> exists n :: 0 <= n < |rest| && b.First(rest[n]) == b.First(s)
  {
    assert s in [s] + rest;
    if b.First(s).value in Firsts(b, rest) {
      var t :| t in rest && b.First(t).value == b.First(s).value;
      var n :| 0 <= n < |rest| && rest[n] == t;
      assert b.First(rest[n]) == b.First(s);
    }
  }

  /** Acceptance, and who is found to have signed, do not depend on the order of the signatures. */
  lemma OrderIndependent(b: Ballot, s: seq<Bytes>, t: seq<Bytes>)
    requires multiset(s) == multiset(t)
    ensures b.Signers(s).Success? <==> b.Signers(t).Success?
    ensures b.Signers(s).Success? ==> b.Signers(t).value == b.Signers(s).value
  {
    AcceptedExactly(b, s);
    AcceptedExactly(b, t);
    assert |s| == |multiset(s)| == |multiset(t)| == |t|;
    assert forall x :: x in s <==> x in t by {
      assert forall x :: x in s <==> x in multiset(s);
      assert forall x :: x in t <==> x in multiset(t);
    }
    assert Matched(b, s) <==> Matched(b, t);
    assert Matched(b, s) ==> Firsts(b, s) == Firsts(b, t);
  }

  /** The public keys, as byte strings, of the indices that signed. */
  ghost function SignerKeys(b: Ballot, sigs: seq<Bytes>): set<Bytes>
    requires b.Signers(sigs).Success?
  {
    set i | i in b.Signers(sigs).value && b.HasKey(i) :: b.Key(i)
  }

  /** A function that never takes the same value twice on a set keeps its size. */
  lemma {:induction false} InjectiveImageSize(b: Ballot, indices: set<nat>)
    requires forall i :: i in indices ==> b.HasKey(i)
    requires forall i, j :: i in indices && j in indices && i != j ==> b.Key(i) != b.Key(j)
    ensures |set i | i in indices && b.HasKey(i) :: b.Key(i)| == |indices|
    decreases |indices|
  {
    var image := set i | i in indices && b.HasKey(i) :: b.Key(i);
    if indices == {} {
      assert image == {};
    } else {
      var i :| i in indices;
      var rest := indices - {i};
      InjectiveImageSize(b, rest);
      var restImage := set k | k in rest && b.HasKey(k) :: b.Key(k);
      assert image == restImage + {b.Key(i)};
      assert b.Key(i) !in restImage;
    }
  }

  /**
   * Distinct signers by key value: an accepted quorum has at least `quorum` different public-key
   * byte strings, each verifying a supplied signature, even when the keyset repeats keys. First
   * match always selects the lowest copy of a repeated key, so a copy never signs twice.
   */
  lemma DistinctKeysSign(b: Ballot, sigs: seq<Bytes>)
    requires b.Signers(sigs).Success?
    ensures |SignerKeys(b, sigs)| == |sigs| >= b.keyset.quorum
    ensures forall k :: k in SignerKeys(b, sigs) ==>
              exists s :: s in sigs && b.crypto.verify(b.verifier, b.hash, s, k)
  {
    AcceptedExactly(b, sigs);
    var signers := b.Signers(sigs).value;
    forall i | i in signers
      ensures b.HasKey(i) && exists s :: s in sigs && b.First(s) == Some(i) && b.Signs(s, i)
    {
      var s :| s in sigs && b.First(s).value == i;
    }
    forall i, j | i in signers && j in signers && i != j
      ensures b.Key(i) != b.Key(j)
    {
      var s :| s in sigs && b.First(s) == Some(i) && b.Signs(s, i);
      var t :| t in sigs && b.First(t) == Some(j) && b.Signs(t, j);
      assert if i < j then !b.Signs(t, i) else !b.Signs(s, j);
    }
    InjectiveImageSize(b, signers);
  }

  /** Every signing index is below the key count. */
  lemma SignersInRange(b: Ballot, sigs: seq<Bytes>)
    requires b.Signers(sigs).Success?
    ensures forall i :: i in b.Signers(sigs).value ==> i < b.keyset.keyCount
    ensures |b.Signers(sigs).value| >= b.keyset.quorum
  {
    AcceptedExactly(b, sigs);
  }

  lemma {:induction false} RangeSize(s: set<nat>, n: nat)
    requires forall i :: i in s ==> i < n
    ensures |s| <= n
    decreases n
  {
    if n == 0 {
      assert s == {};
    } else {
      RangeSize(s - {n - 1}, n - 1);
    }
  }

  /** Two accepted quorums of one majority keyset share a signing key index. */
  lemma MajoritiesIntersect(a: Ballot, s: seq<Bytes>, b: Ballot, t: seq<Bytes>)
    requires a.keyset == b.keyset && 2 * a.keyset.quorum > a.keyset.keyCount
    requires a.Signers(s).Success? && b.Signers(t).Success?
    ensures a.Signers(s).value * b.Signers(t).value != {}
  {
    SignersInRange(a, s);
    SignersInRange(b, t);
    var p, q := a.Signers(s).value, b.Signers(t).value;
    if p * q == {} {
      assert |p + q| == |p| + |q|;
      RangeSize(p + q, a.keyset.keyCount);
    }
  }
}
