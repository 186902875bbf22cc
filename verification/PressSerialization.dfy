/** Canonical bytes of an object without some of its properties (press/src/serialization.ts). */
module PressSerialization {
  import opened ProtocolTypes
  import opened Unicode
  import opened KeySort
  import opened CanonicalJson
  import opened CanonicalBytes

  /** The one key that an assignment on a plain object does not store. */
  const PROTO: JsString := [95, 95, 112, 114, 111, 116, 111, 95, 95]

  /** The members whose keys are not dropped. */
  function Without(members: seq<Member>, drop: set<JsString>): seq<Member> {
    if members == [] then []
    else
      var rest := Without(members[..|members| - 1], drop);
      var last := members[|members| - 1];
      if last.key in drop then rest else rest + [last]
  }

  ghost function Listed(keys: seq<JsString>): set<JsString> {
    set k | k in keys
  }

  /** The loop copies everything it is not told to leave out, except `__proto__`. */
  method CanonicalizeExcluding(members: seq<Member>, exclude: seq<JsString>) returns (bytes: Bytes)
    ensures bytes == Canonicalize(Obj(Without(members, Listed(exclude) + {PROTO})))
  {
    var filtered: seq<Member> := [];
    for i := 0 to |members|
      invariant filtered == Without(members[..i], Listed(exclude) + {PROTO})
    {
      assert members[..i + 1][..i] == members[..i];
      if members[i].key !in exclude {
        // Assigning to __proto__ creates no property.
        if members[i].key != PROTO {
          filtered := filtered + [members[i]];
        }
      }
    }
    assert members[..|members|] == members;
    bytes := Canonicalize(Obj(filtered));
  }

  lemma {:induction false} WithoutMembers(members: seq<Member>, drop: set<JsString>)
    ensures forall m :: m in Without(members, drop) <==> m in members && m.key !in drop
  {
    if members != [] {
      var n := |members| - 1;
      WithoutMembers(members[..n], drop);
      assert members == members[..n] + [members[n]];
    }
  }

  lemma MembersOfKeys(members: seq<Member>)
    ensures forall m :: m in members ==> m.key in KeysOf(members)
    ensures forall k :: k in KeysOf(members) ==> members[IndexOf(members, k)] in members
  {
    KeysOfAt(members);
    forall m | m in members ensures m.key in KeysOf(members) {
      var i :| 0 <= i < |members| && members[i] == m;
      assert KeysOf(members)[i] == m.key;
    }
  }

  lemma UniqueFront(members: seq<Member>, n: nat)
    requires Unique(KeysOf(members)) && n <= |members|
    ensures Unique(KeysOf(members[..n]))
  {
    KeysOfAt(members);
    KeysOfAt(members[..n]);
    forall i, j | 0 <= i < j < n ensures KeysOf(members[..n])[i] != KeysOf(members[..n])[j] {
      assert KeysOf(members)[i] != KeysOf(members)[j];
    }
  }

  lemma {:induction false} WithoutUnique(members: seq<Member>, drop: set<JsString>)
    requires Unique(KeysOf(members))
    ensures Unique(KeysOf(Without(members, drop)))
  {
    hide KeysOf;
    if members == [] {
      KeysOfAt([]);
    } else {
      var n := |members| - 1;
      var rest, last := Without(members[..n], drop), members[n];
      UniqueFront(members, n);
      WithoutUnique(members[..n], drop);
      WithoutMembers(members[..n], drop);
      KeysOfAt(members);
      KeysOfAt(rest);
      KeysOfAt(rest + [last]);
      forall i | 0 <= i < |rest| ensures rest[i].key != last.key {
        assert rest[i] in members[..n];
        var j :| 0 <= j < n && members[j] == rest[i];
        assert KeysOf(members)[j] != KeysOf(members)[n];
      }
    }
  }

  lemma WithoutWf(members: seq<Member>, drop: set<JsString>)
    requires Wf(Obj(members))
    ensures Wf(Obj(Without(members, drop)))
  {
    WithoutUnique(members, drop);
    WithoutMembers(members, drop);
    var kept := Without(members, drop);
    forall i | 0 <= i < |kept| ensures Wf(kept[i].value) {
      assert kept[i] in members;
    }
  }

  ghost function Properties(members: seq<Member>): map<JsString, Value> {
    MeaningsOf(Obj(members), KeysOf(members))
  }

  /** What is left means what the object meant, less the dropped keys. */
  lemma WithoutMeaning(members: seq<Member>, drop: set<JsString>)
    requires Wf(Obj(members))
    ensures Properties(Without(members, drop)) == Properties(members) - drop
  {
    hide Meaning;
    hide MeaningsOf;
    hide KeysOf;
    hide IndexOf;
    hide Without;
    var kept := Without(members, drop);
    WithoutWf(members, drop);
    WithoutMembers(members, drop);
    MembersOfKeys(members);
    MembersOfKeys(kept);
    MeaningsOfAt(Obj(members), KeysOf(members));
    MeaningsOfAt(Obj(kept), KeysOf(kept));
    forall k | k in KeysOf(kept)
      ensures k in KeysOf(members) && k !in drop && Properties(kept)[k] == Properties(members)[k]
    {
      var m := kept[IndexOf(kept, k)];
      assert m in kept && m.key == k;
      MemberFound(members, m);
    }
    forall k | k in KeysOf(members) && k !in drop ensures k in KeysOf(kept) {
      var m := members[IndexOf(members, k)];
      assert m in kept && m.key == k;
    }
  }

  /** The bytes are equal exactly when the objects agree outside the excluded keys and `__proto__`. */
  lemma ExcludedKeysDoNotMatter(a: seq<Member>, b: seq<Member>, drop: set<JsString>)
    requires Wf(Obj(a)) && Wf(Obj(b))
    ensures Canonicalize(Obj(Without(a, drop))) == Canonicalize(Obj(Without(b, drop)))
            <==> Properties(a) - drop == Properties(b) - drop
  {
    hide Canonicalize;
    hide MeaningsOf;
    hide KeysOf;
    WithoutWf(a, drop);
    WithoutWf(b, drop);
    WithoutMeaning(a, drop);
    WithoutMeaning(b, drop);
    SameBytesSameValue(Obj(Without(a, drop)), Obj(Without(b, drop)));
  }

  /**
   * Exactly the specified keys are omitted if and only if the object has no own `__proto__`
   * property that was to be kept.
   */
  lemma OmitsExactlyTheExcluded(members: seq<Member>, exclude: set<JsString>)
    requires Wf(Obj(members))
    ensures Canonicalize(Obj(Without(members, exclude + {PROTO}))) == Canonicalize(Obj(Without(members, exclude)))
            <==> PROTO !in Properties(members) || PROTO in exclude
  {
    hide Canonicalize;
    hide MeaningsOf;
    hide KeysOf;
    WithoutWf(members, exclude);
    WithoutWf(members, exclude + {PROTO});
    WithoutMeaning(members, exclude);
    WithoutMeaning(members, exclude + {PROTO});
    SameBytesSameValue(Obj(Without(members, exclude + {PROTO})), Obj(Without(members, exclude)));
    var p := Properties(members);
    if PROTO in p && PROTO !in exclude {
      assert PROTO in p - exclude && PROTO !in p - (exclude + {PROTO});
    } else {
      assert p - exclude == p - (exclude + {PROTO});
    }
  }
}
