/** Sorting the keys of an object the way Array.prototype.sort compares strings. */
module KeySort {
  import opened Unicode

  /** Order by UTF-16 code units (section 3.2.3 of RFC 8785). */
  predicate AtMost(a: JsString, b: JsString)
    decreases |a|
  {
    if a == [] then true
    else if b == [] then false
    else if a[0] != b[0] then a[0] < b[0]
    else AtMost(a[1..], b[1..])
  }

  lemma {:induction false} TotalOrder(a: JsString, b: JsString)
    ensures AtMost(a, b) || AtMost(b, a)
    ensures AtMost(a, b) && AtMost(b, a) ==> a == b
    decreases |a|
  {
    if a != [] && b != [] && a[0] == b[0] {
      TotalOrder(a[1..], b[1..]);
      assert a == [a[0]] + a[1..] && b == [b[0]] + b[1..];
    }
  }

  lemma {:induction false} Transitive(a: JsString, b: JsString, c: JsString)
    requires AtMost(a, b) && AtMost(b, c)
    ensures AtMost(a, c)
    decreases |a|
  {
    if a != [] && a[0] == b[0] == c[0] {
      Transitive(a[1..], b[1..], c[1..]);
    }
  }

  ghost predicate Sorted(keys: seq<JsString>) {
    forall i, j :: 0 <= i < j < |keys| ==> AtMost(keys[i], keys[j])
  }

  ghost predicate Unique(keys: seq<JsString>) {
    forall i, j :: 0 <= i < j < |keys| ==> keys[i] != keys[j]
  }

  function Insert(key: JsString, sorted: seq<JsString>): (r: seq<JsString>)
    ensures multiset(r) == multiset(sorted) + multiset{key}
  {
    if sorted == [] || AtMost(key, sorted[0]) then [key] + sorted
    else
      assert sorted == [sorted[0]] + sorted[1..];
      [sorted[0]] + Insert(key, sorted[1..])
  }

  function Sort(keys: seq<JsString>): (r: seq<JsString>)
    ensures multiset(r) == multiset(keys)
  {
    if keys == [] then []
    else
      assert keys == [keys[0]] + keys[1..];
      Insert(keys[0], Sort(keys[1..]))
  }

  lemma {:induction false} InsertSorted(key: JsString, sorted: seq<JsString>)
    requires Sorted(sorted)
    ensures Sorted(Insert(key, sorted))
  {
    var r := Insert(key, sorted);
    if sorted == [] {
    } else if AtMost(key, sorted[0]) {
      forall j | 0 <= j < |sorted| ensures AtMost(key, sorted[j]) {
        if j > 0 {
          Transitive(key, sorted[0], sorted[j]);
        }
      }
    } else {
      InsertSorted(key, sorted[1..]);
      var rest := Insert(key, sorted[1..]);
      TotalOrder(key, sorted[0]);
      forall j | 0 <= j < |rest| ensures AtMost(sorted[0], rest[j]) {
        assert rest[j] in multiset(rest);
        assert rest[j] == key || rest[j] in sorted[1..];
      }
    }
  }

  lemma {:induction false} SortSorts(keys: seq<JsString>)
    ensures Sorted(Sort(keys))
  {
    if keys != [] {
      SortSorts(keys[1..]);
      InsertSorted(keys[0], Sort(keys[1..]));
    }
  }

  lemma FirstIsLeast(keys: seq<JsString>, k: JsString)
    requires Sorted(keys) && k in multiset(keys)
    ensures AtMost(keys[0], k)
  {
    var i :| 0 <= i < |keys| && keys[i] == k;
    TotalOrder(k, k);
  }

  lemma SortedTail(keys: seq<JsString>)
    requires Sorted(keys) && keys != []
    ensures Sorted(keys[1..]) && multiset(keys) == multiset{keys[0]} + multiset(keys[1..])
  {
    assert keys == [keys[0]] + keys[1..];
  }

  /** Two sorted arrangements of the same keys are the same. */
  lemma {:induction false} SortedIsUnique(a: seq<JsString>, b: seq<JsString>)
    requires Sorted(a) && Sorted(b) && multiset(a) == multiset(b)
    ensures a == b
    decreases |a|
  {
    hide AtMost;
    hide Sorted;
    assert |multiset(a)| == |a| && |multiset(b)| == |b|;
    if a != [] {
      assert a[0] in multiset(a) && b[0] in multiset(b);
      FirstIsLeast(b, a[0]);
      FirstIsLeast(a, b[0]);
      TotalOrder(a[0], b[0]);
      SortedTail(a);
      SortedTail(b);
      SameRest(a[0], multiset(a[1..]), multiset(b[1..]));
      SortedIsUnique(a[1..], b[1..]);
    }
  }

  lemma SameRest(k: JsString, a: multiset<JsString>, b: multiset<JsString>)
    requires multiset{k} + a == multiset{k} + b
    ensures a == b
  {
    assert a == (multiset{k} + a) - multiset{k};
    assert b == (multiset{k} + b) - multiset{k};
  }

  /** Keys without repetition are the same multiset as soon as they are the same set. */
  lemma UniqueKeysCount(keys: seq<JsString>)
    requires Unique(keys)
    ensures forall k :: multiset(keys)[k] == if k in keys then 1 else 0
  {
    forall k ensures multiset(keys)[k] == if k in keys then 1 else 0 {
      UniqueKeyCount(keys, k);
    }
  }

  lemma {:induction false} UniqueKeyCount(keys: seq<JsString>, k: JsString)
    requires Unique(keys)
    ensures multiset(keys)[k] == if k in keys then 1 else 0
    decreases |keys|
  {
    if keys != [] {
      UniqueKeyCount(keys[1..], k);
      assert keys == [keys[0]] + keys[1..];
    }
  }

  /** So the sorted keys depend on the set of keys only. */
  lemma SortDependsOnSet(a: seq<JsString>, b: seq<JsString>)
    requires Unique(a) && Unique(b) && forall k :: k in a <==> k in b
    ensures Sort(a) == Sort(b)
  {
    UniqueKeysCount(a);
    UniqueKeysCount(b);
    assert multiset(a) == multiset(b) by {
      forall k ensures multiset(a)[k] == multiset(b)[k] {
      }
    }
    SortSorts(a);
    SortSorts(b);
    SortedIsUnique(Sort(a), Sort(b));
  }

  /** Sorting keeps exactly the keys it was given. */
  lemma SortKeeps(keys: seq<JsString>)
    ensures forall k :: k in Sort(keys) <==> k in keys
    ensures Unique(keys) ==> Unique(Sort(keys))
  {
    forall k ensures k in Sort(keys) <==> k in keys {
      assert k in multiset(Sort(keys)) <==> k in multiset(keys);
    }
    if Unique(keys) {
      UniqueKeysCount(keys);
      CountedUnique(Sort(keys));
    }
  }

  lemma CountedUnique(keys: seq<JsString>)
    requires forall k :: multiset(keys)[k] <= 1
    ensures Unique(keys)
  {
    forall i, j | 0 <= i < j < |keys| ensures keys[i] != keys[j] {
      assert keys == keys[..j] + [keys[j]] + keys[j + 1..];
      assert multiset(keys)[keys[j]] == multiset(keys[..j])[keys[j]] + 1 + multiset(keys[j + 1..])[keys[j]];
      assert keys[..j][i] == keys[i];
      assert keys[i] in multiset(keys[..j]);
    }
  }

  // ---------------------------------------------------------------------------
  // Units and code points
  // ---------------------------------------------------------------------------

  /** The code point at the front; a lone surrogate stands for itself. */
  function FirstPoint(s: JsString): int
    requires s != []
  {
    if Paired(s) then CodePoint(s[0], s[1]) else s[0]
  }

  /** Order by Unicode code points. */
  predicate PointsAtMost(a: JsString, b: JsString)
    decreases |a|
  {
    if a == [] then true
    else if b == [] then false
    else if FirstPoint(a) != FirstPoint(b) then FirstPoint(a) < FirstPoint(b)
    else PointsAtMost(a[Width(a)..], b[Width(b)..])
  }

  /** A front that is no surrogate pair, with units above those of a pair. */
  predicate AbovePair(a: JsString, b: JsString)
    requires a != [] && b != []
  {
    !Paired(a) && Paired(b) && (a[0] > b[0] || (a[0] == b[0] && |a| > 1 && a[1] > b[1]))
  }

  /** At the first code point where the strings differ, one is a pair and the other lies above it in units. */
  predicate Inverted(a: JsString, b: JsString)
    decreases |a|
  {
    if a == [] || b == [] then false
    else if FirstPoint(a) == FirstPoint(b) then Inverted(a[Width(a)..], b[Width(b)..])
    else AbovePair(a, b) || AbovePair(b, a)
  }

  lemma SameFrontUnits(a: JsString, b: JsString)
    requires a != [] && b != [] && FirstPoint(a) == FirstPoint(b)
    ensures Width(a) == Width(b) && AtMost(a, b) == AtMost(a[Width(a)..], b[Width(b)..])
  {
    if Paired(a) {
      assert a[1..][1..] == a[2..] && b[1..][1..] == b[2..];
    }
  }

  /** The two orders agree on two strings exactly when the strings are not inverted. */
  lemma {:induction false} OrdersAgreeExactly(a: JsString, b: JsString)
    ensures AtMost(a, b) == PointsAtMost(a, b) <==> !Inverted(a, b)
    decreases |a|
  {
    if a != [] && b != [] {
      if FirstPoint(a) == FirstPoint(b) {
        SameFrontUnits(a, b);
        OrdersAgreeExactly(a[Width(a)..], b[Width(b)..]);
      } else {
        DifferentFronts(a, b);
      }
    }
  }

  lemma DifferentFronts(a: JsString, b: JsString)
    requires a != [] && b != [] && FirstPoint(a) != FirstPoint(b)
    ensures AtMost(a, b) == (FirstPoint(a) < FirstPoint(b)) <==> !AbovePair(a, b) && !AbovePair(b, a)
  {
    if a[0] == b[0] {
      assert AtMost(a, b) == AtMost(a[1..], b[1..]);
    }
  }

  /** For well-formed strings a front above a pair is a unit above the surrogates. */
  lemma AbovePairWellFormed(a: JsString, b: JsString)
    requires WellFormed(a) && WellFormed(b) && a != [] && b != []
    ensures AbovePair(a, b) <==> Paired(b) && a[0] >= 0xE000
  {
  }

  ghost predicate SortedByPoints(keys: seq<JsString>) {
    forall i, j :: 0 <= i < j < |keys| ==> PointsAtMost(keys[i], keys[j])
  }

  lemma {:induction false} InvertedSymmetric(a: JsString, b: JsString)
    ensures Inverted(a, b) == Inverted(b, a)
    ensures !Inverted(a, a)
    decreases |a|, |b|
  {
    if a != [] && b != [] && FirstPoint(a) == FirstPoint(b) {
      InvertedSymmetric(a[Width(a)..], b[Width(b)..]);
    }
    NotInvertedWithItself(a);
  }

  lemma {:induction false} NotInvertedWithItself(a: JsString)
    ensures !Inverted(a, a)
    decreases |a|
  {
    if a != [] {
      NotInvertedWithItself(a[Width(a)..]);
    }
  }

  /** The keys come out in code-point order exactly when no two of them are inverted. */
  lemma SortedByPointsExactly(keys: seq<JsString>)
    requires Unique(keys)
    ensures SortedByPoints(Sort(keys)) <==> forall a, b :: a in keys && b in keys ==> !Inverted(a, b)
  {
    hide AtMost;
    hide PointsAtMost;
    hide Inverted;
    hide Sort;
    var r := Sort(keys);
    SortSorts(keys);
    SortKeeps(keys);
    forall i, j | 0 <= i < j < |r| ensures PointsAtMost(r[i], r[j]) <==> !Inverted(r[i], r[j]) {
      OrdersAgreeExactly(r[i], r[j]);
    }
    if SortedByPoints(r) {
      forall a, b | a in keys && b in keys ensures !Inverted(a, b) {
        assert a in r && b in r;
        var i :| 0 <= i < |r| && r[i] == a;
        var j :| 0 <= j < |r| && r[j] == b;
        InvertedSymmetric(a, b);
        if i < j {
          assert PointsAtMost(r[i], r[j]);
        } else if j < i {
          assert PointsAtMost(r[j], r[i]);
        }
      }
    } else {
      var i, j :| 0 <= i < j < |r| && !PointsAtMost(r[i], r[j]);
      assert r[i] in r && r[j] in r && Inverted(r[i], r[j]);
    }
  }

  /** U+10000 sorts before U+E000 by units, and after it by code points. */
  lemma UnitOrderIsNotPointOrder()
    ensures WellFormed([0xD800, 0xDC00]) && WellFormed([0xE000])
    ensures AtMost([0xD800, 0xDC00], [0xE000]) && !PointsAtMost([0xD800, 0xDC00], [0xE000])
  {
    assert [0xD800, 0xDC00][2..] == [] && [0xE000][1..] == [];
  }
}
