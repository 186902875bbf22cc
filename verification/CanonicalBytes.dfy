/** What the canonical bytes say: exactly the value, whatever the order of insertion. */
module CanonicalBytes {
  import opened PayloadParser
  import opened Unicode
  import opened JsonText
  import opened KeySort
  import opened CanonicalJson

  // ---------------------------------------------------------------------------
  // The text can be encoded
  // ---------------------------------------------------------------------------

  lemma Joined(a: JsString, b: JsString)
    requires WellFormed(a) && WellFormed(b)
    ensures WellFormed(a + b)
  {
    EncodeAppend(a, b);
  }

  lemma QuotedWellFormed(s: JsString)
    ensures WellFormed(Quoted(s))
  {
    EscapeWellFormed(s);
    EncodeAscii([QUOTE]);
    Joined([QUOTE], Escape(s));
    Joined([QUOTE] + Escape(s), [QUOTE]);
  }

  lemma PunctuationWellFormed(u: Unit)
    requires u < 0x80
    ensures WellFormed([u])
  {
    EncodeAscii([u]);
  }

  lemma {:induction false} TextWellFormed(v: Json)
    ensures WellFormed(SerializeValue(v))
    decreases v, 2, 0
  {
    hide WellFormed;
    match v {
      case Null => EncodeAscii(SerializeValue(v));
      case Bool(_) => EncodeAscii(SerializeValue(v));
      case Num(n) => IntTextAscii(n); EncodeAscii(SerializeValue(v));
      case Str(s) => QuotedWellFormed(s);
      case Arr(_) =>
        ItemsWellFormed(v, 0);
        PunctuationWellFormed(OPEN_BRACKET);
        PunctuationWellFormed(CLOSE_BRACKET);
        Joined([OPEN_BRACKET], Items(v, 0));
        Joined([OPEN_BRACKET] + Items(v, 0), [CLOSE_BRACKET]);
      case Obj(_) => ObjectWellFormed(v);
    }
  }

  lemma {:induction false} ObjectWellFormed(v: Json)
    requires v.Obj?
    ensures WellFormed(SerializeValue(v))
    decreases v, 1, 0
  {
    hide WellFormed;
    hide SerializeValue;
    hide Sort;
    hide Pairs;
    SortedMeanings(v);
    var pairs := Pairs(v, Sort(KeysOf(v.members)));
    PairsWellFormed(v, Sort(KeysOf(v.members)));
    PunctuationWellFormed(OPEN_BRACE);
    PunctuationWellFormed(CLOSE_BRACE);
    Joined([OPEN_BRACE], pairs);
    Joined([OPEN_BRACE] + pairs, [CLOSE_BRACE]);
  }

  lemma {:induction false} ItemsWellFormed(v: Json, i: nat)
    requires v.Arr? && i <= |v.items|
    ensures WellFormed(Items(v, i))
    decreases v, 0, |v.items| - i
  {
    hide SerializeValue;
    if i < |v.items| {
      TextWellFormed(v.items[i]);
      if i + 1 < |v.items| {
        ItemsWellFormed(v, i + 1);
        PunctuationWellFormed(COMMA);
        Joined([COMMA], Items(v, i + 1));
        Joined(SerializeValue(v.items[i]), [COMMA] + Items(v, i + 1));
      } else {
        assert Items(v, i) == SerializeValue(v.items[i]);
      }
    }
  }

  lemma {:induction false} PairsWellFormed(v: Json, keys: seq<JsString>)
    requires v.Obj? && forall k :: k in keys ==> k in KeysOf(v.members)
    ensures WellFormed(Pairs(v, keys))
    decreases v, 0, |keys|
  {
    hide SerializeValue;
    hide Quoted;
    hide KeysOf;
    if keys != [] {
      var value := v.members[IndexOf(v.members, keys[0])].value;
      var front := Quoted(keys[0]) + [COLON];
      QuotedWellFormed(keys[0]);
      TextWellFormed(value);
      PunctuationWellFormed(COLON);
      Joined(Quoted(keys[0]), [COLON]);
      Joined(front, SerializeValue(value));
      if |keys| > 1 {
        PairsWellFormed(v, keys[1..]);
        PunctuationWellFormed(COMMA);
        Joined([COMMA], Pairs(v, keys[1..]));
        Joined(front + SerializeValue(value), [COMMA] + Pairs(v, keys[1..]));
      } else {
        assert Pairs(v, keys) == front + SerializeValue(value);
      }
    }
  }

  // ---------------------------------------------------------------------------
  // Same value, same text
  // ---------------------------------------------------------------------------

  lemma {:induction false} SameText(a: Json, b: Json)
    requires Wf(a) && Wf(b) && Meaning(a) == Meaning(b)
    ensures SerializeValue(a) == SerializeValue(b)
    decreases a, 2, 0
  {
    match a {
      case Arr(_) => SameItems(a, b, 0);
      case Obj(_) => SameObject(a, b);
      case _ =>
    }
  }

  lemma {:induction false} SameObject(a: Json, b: Json)
    requires a.Obj? && Wf(a) && Wf(b) && Meaning(a) == Meaning(b)
    ensures SerializeValue(a) == SerializeValue(b)
    decreases a, 1, 0
  {
    hide SerializeValue;
    hide Sort;
    hide KeysOf;
    hide Pairs;
    MeaningsOfAt(a, KeysOf(a.members));
    MeaningsOfAt(b, KeysOf(b.members));
    assert forall k :: k in KeysOf(a.members) <==> k in MeaningsOf(a, KeysOf(a.members));
    assert forall k :: k in KeysOf(b.members) <==> k in MeaningsOf(b, KeysOf(b.members));
    SortDependsOnSet(KeysOf(a.members), KeysOf(b.members));
    SortedMeanings(a);
    SortedMeanings(b);
    SamePairs(a, b, Sort(KeysOf(a.members)));
  }

  lemma {:induction false} SameItems(a: Json, b: Json, i: nat)
    requires a.Arr? && b.Arr? && Wf(a) && Wf(b) && i <= |a.items| && |a.items| == |b.items|
    requires Meanings(a, i) == Meanings(b, i)
    ensures Items(a, i) == Items(b, i)
    decreases a, 0, |a.items| - i
  {
    hide SerializeValue;
    hide Meaning;
    if i < |a.items| {
      assert Meanings(a, i)[0] == Meaning(a.items[i]) && Meanings(b, i)[0] == Meaning(b.items[i]);
      assert Meanings(a, i)[1..] == Meanings(a, i + 1) && Meanings(b, i)[1..] == Meanings(b, i + 1);
      SameText(a.items[i], b.items[i]);
      SameItems(a, b, i + 1);
    }
  }

  lemma SplitMeanings(a: Json, b: Json, keys: seq<JsString>)
    requires a.Obj? && b.Obj? && keys != []
    requires forall k :: k in keys ==> k in KeysOf(a.members) && k in KeysOf(b.members)
    requires MeaningsOf(a, keys) == MeaningsOf(b, keys)
    ensures Meaning(a.members[IndexOf(a.members, keys[0])].value)
            == Meaning(b.members[IndexOf(b.members, keys[0])].value)
    ensures MeaningsOf(a, keys[1..]) == MeaningsOf(b, keys[1..])
  {
    hide Meaning;
    hide MeaningsOf;
    hide KeysOf;
    hide IndexOf;
    MeaningsOfAt(a, keys);
    MeaningsOfAt(b, keys);
    MeaningsOfAt(a, keys[1..]);
    MeaningsOfAt(b, keys[1..]);
    forall k | k in keys[1..] ensures MeaningsOf(a, keys[1..])[k] == MeaningsOf(b, keys[1..])[k] {
      assert MeaningsOf(a, keys)[k] == MeaningsOf(b, keys)[k];
    }
  }

  lemma {:induction false} SamePairs(a: Json, b: Json, keys: seq<JsString>)
    requires a.Obj? && b.Obj? && Wf(a) && Wf(b)
    requires forall k :: k in keys ==> k in KeysOf(a.members) && k in KeysOf(b.members)
    requires MeaningsOf(a, keys) == MeaningsOf(b, keys)
    ensures Pairs(a, keys) == Pairs(b, keys)
    decreases a, 0, |keys|
  {
    hide SerializeValue;
    hide Meaning;
    hide MeaningsOf;
    hide KeysOf;
    hide Quoted;
    if keys != [] {
      SplitMeanings(a, b, keys);
      SameText(a.members[IndexOf(a.members, keys[0])].value, b.members[IndexOf(b.members, keys[0])].value);
      SamePairs(a, b, keys[1..]);
    }
  }

  // ---------------------------------------------------------------------------
  // The results
  // ---------------------------------------------------------------------------

  lemma TextDeterminesValue(a: Json, b: Json)
    requires SerializeValue(a) == SerializeValue(b)
    ensures Meaning(a) == Meaning(b)
  {
    ReadPrinted(a, []);
    ReadPrinted(b, []);
    assert SerializeValue(a) + [] == SerializeValue(a) && SerializeValue(b) + [] == SerializeValue(b);
  }

  /** Canonical: two values have the same bytes if and only if they are the same value. */
  lemma SameBytesSameValue(a: Json, b: Json)
    requires Wf(a) && Wf(b)
    ensures Canonicalize(a) == Canonicalize(b) <==> Meaning(a) == Meaning(b)
  {
    if Canonicalize(a) == Canonicalize(b) {
      TextWellFormed(a);
      TextWellFormed(b);
      EncodeInjective(SerializeValue(a), SerializeValue(b));
      TextDeterminesValue(a, b);
    }
    if Meaning(a) == Meaning(b) {
      SameText(a, b);
    }
  }

  lemma MemberFound(members: seq<Member>, m: Member)
    requires Unique(KeysOf(members)) && m in members
    ensures m.key in KeysOf(members) && members[IndexOf(members, m.key)] == m
  {
    KeysOfAt(members);
    var i :| 0 <= i < |members| && members[i] == m;
    assert KeysOf(members)[i] == m.key;
    assert KeysOf(members)[IndexOf(members, m.key)] == m.key;
  }

  lemma KeysFromMembers(a: seq<Member>, b: seq<Member>, key: JsString)
    requires (forall m :: m in a ==> m in b) && key in KeysOf(a)
    ensures key in KeysOf(b)
  {
    KeysOfAt(a);
    KeysOfAt(b);
    var m := a[IndexOf(a, key)];
    assert m in b;
    var j :| 0 <= j < |b| && b[j] == m;
    assert KeysOf(b)[j] == key;
  }

  /** The bytes do not depend on the order in which properties were inserted. */
  lemma InsertionOrderFree(a: seq<Member>, b: seq<Member>)
    requires Wf(Obj(a)) && Wf(Obj(b)) && multiset(a) == multiset(b)
    ensures Canonicalize(Obj(a)) == Canonicalize(Obj(b))
  {
    hide IndexOf;
    hide KeysOf;
    hide Canonicalize;
    var x, y := Obj(a), Obj(b);
    assert forall m :: m in a <==> m in b by {
      assert forall m :: m in a <==> m in multiset(a);
      assert forall m :: m in b <==> m in multiset(b);
    }
    MeaningsOfAt(x, KeysOf(a));
    MeaningsOfAt(y, KeysOf(b));
    forall k | k in KeysOf(a)
      ensures k in KeysOf(b) && a[IndexOf(a, k)] == b[IndexOf(b, k)]
    {
      KeysFromMembers(a, b, k);
      MemberFound(b, a[IndexOf(a, k)]);
    }
    forall k | k in KeysOf(b) ensures k in KeysOf(a) {
      KeysFromMembers(b, a, k);
    }
    assert MeaningsOf(x, KeysOf(a)) == MeaningsOf(y, KeysOf(b));
    SameBytesSameValue(x, y);
  }
}
