/**
 * What the field extractor returns, on every payload whatsoever: the first place where the quoted
 * name stands before a colon decides, and the value is read from there.
 */
module FieldScan {
  import opened Wrappers
  import opened ProtocolTypes
  import opened PayloadParser
  import opened Extraction

  /** `"<name>":` stands at `i`, with something behind it. */
  predicate KeyHere(p: Bytes, name: Bytes, i: nat) {
    i + |name| + 3 < |p| && p[i..i + |name| + 3] == [34] + name + [34, 58]
  }

  /** It stands nowhere earlier. */
  ghost predicate FirstKey(p: Bytes, name: Bytes, i: nat) {
    KeyHere(p, name, i) && forall j :: 0 <= j < i ==> !KeyHere(p, name, j)
  }

  /** Spaces, and no more of them. */
  ghost predicate SpacesTo(p: Bytes, start: nat, end: nat) {
    start <= end <= |p| && (forall k :: start <= k < end ==> p[k] == 32) && (end < |p| ==> p[end] != 32)
  }

  /** Escaped text up to a bare quote or to the end of the payload. */
  ghost predicate StringTo(p: Bytes, start: nat, end: nat) {
    start <= end <= |p| && Escaped(p[start..end]) && (end < |p| ==> p[end] == 34)
  }

  /** Anything up to a comma, a closing brace, a space or the end of the payload. */
  ghost predicate BareTo(p: Bytes, start: nat, end: nat) {
    && start <= end <= |p| && (forall k :: start <= k < end ==> p[k] !in {44, 125, 32})
    && (end < |p| ==> p[end] in {44, 125, 32})
  }

  /** A value starts at `v`, the first non-space behind the colon. */
  ghost predicate ValueFrom(p: Bytes, name: Bytes, i: nat, v: nat) {
    FirstKey(p, name, i) && SpacesTo(p, i + |name| + 3, v) && v < |p|
  }

  /** The text of the value that starts at `v`, quoted or bare. */
  ghost predicate TextTo(p: Bytes, v: nat, end: nat, text: Bytes)
    requires v < |p|
  {
    if p[v] == 34 then StringTo(p, v + 1, end) && text == p[v + 1..end] else BareTo(p, v, end) && text == p[v..end]
  }

  ghost predicate Reads(p: Bytes, name: Bytes, text: Bytes) {
    exists i: nat, v: nat, end: nat :: ValueFrom(p, name, i, v) && TextTo(p, v, end, text)
  }

  /** The value is a string that the payload breaks off in the middle of an escape. */
  ghost predicate BreaksOff(p: Bytes, name: Bytes) {
    exists i: nat, v: nat :: ValueFrom(p, name, i, v) && p[v] == 34 && TornFrom(p, v + 1)
  }

  ghost predicate TornFrom(p: Bytes, start: nat) {
    start < |p| && p[|p| - 1] == 92 && Escaped(p[start..|p| - 1])
  }

  // ---------------------------------------------------------------------------
  // The parts of the scan
  // ---------------------------------------------------------------------------

  lemma KeyIsHere(p: Bytes, name: Bytes, i: nat)
    requires i + |name| + 3 < |p|
    ensures KeyAt(p, name, i) <==> KeyHere(p, name, i)
  {
    var here, key := p[i..i + |name| + 3], [34 as byte] + name + [34, 58];
    assert forall k :: 0 <= k < |name| ==> key[k + 1] == name[k] && here[k + 1] == p[i + 1 + k];
    if KeyAt(p, name, i) {
      forall k | 0 <= k < |name| ensures p[i + 1 + k] == name[k] {
        assert p[i + 1..i + 1 + |name|][k] == name[k];
      }
      assert forall k :: 0 <= k < |key| ==> here[k] == key[k];
    }
    if KeyHere(p, name, i) {
      assert here[0] == 34 && here[1 + |name|] == 34 && here[2 + |name|] == 58;
      forall k | 0 <= k < |name| ensures p[i + 1..i + 1 + |name|][k] == name[k] {
        assert here[k + 1] == key[k + 1];
      }
    }
  }

  lemma {:induction false} SpacesEnd(p: Bytes, start: nat)
    requires start <= |p|
    ensures forall end: nat :: SpacesTo(p, start, end) <==> end == SkipSpaces(p, start)
    decreases |p| - start
  {
    if start < |p| && p[start] == SPACE {
      SpacesEnd(p, start + 1);
      forall end: nat ensures SpacesTo(p, start, end) <==> SpacesTo(p, start + 1, end) {
      }
    }
  }

  lemma {:induction false} BareEnds(p: Bytes, start: nat)
    requires start <= |p|
    ensures forall end: nat :: BareTo(p, start, end) <==> end == BareEnd(p, start)
    decreases |p| - start
  {
    if start < |p| && !EndsBareValue(p[start]) {
      BareEnds(p, start + 1);
      forall end: nat ensures BareTo(p, start, end) <==> BareTo(p, start + 1, end) {
      }
    }
  }

  /** A string ends in one place at most, where the scan for its quote stops inside the payload. */
  lemma {:induction false} StringEnds(p: Bytes, start: nat, end: nat)
    requires start <= |p|
    ensures StringTo(p, start, end) <==> end == StringEnd(p, start) <= |p|
    ensures TornFrom(p, start) <==> StringEnd(p, start) > |p|
    decreases |p| - start
  {
    if start < |p| && p[start] != QUOTE {
      var n := if p[start] == BACKSLASH then 2 else 1;
      if start + n <= |p| {
        StringEnds(p, start + n, end);
        if start + n <= end <= |p| {
          assert p[start..end][n..] == p[start + n..end];
        }
        if start + n < |p| {
          assert p[start..|p| - 1][n..] == p[start + n..|p| - 1];
        }
      }
    }
  }

  // ---------------------------------------------------------------------------
  // The scan
  // ---------------------------------------------------------------------------

  /** Where the scan stops: at the first key, or at the end without one. */
  lemma {:induction false} ScanFrom(p: Bytes, name: Bytes, i: nat)
    requires forall j :: 0 <= j < i ==> !KeyHere(p, name, j)
    ensures (exists k: nat :: FirstKey(p, name, k) && k + |name| + 3 <= |p|
                              && FieldFrom(p, name, i) == ValueAt(p, k + |name| + 3))
            || ((forall k: nat :: !KeyHere(p, name, k)) && FieldFrom(p, name, i) == Success(None))
    decreases |p| - i
  {
    hide KeyAt;
    if i + |name| + 3 < |p| {
      KeyIsHere(p, name, i);
      if KeyAt(p, name, i) {
        assert FirstKey(p, name, i);
      } else {
        ScanFrom(p, name, i + 1);
      }
    }
  }

  /** The value of the first key, whichever way it ends. */
  lemma ValueIs(p: Bytes, name: Bytes, i: nat)
    requires FirstKey(p, name, i)
    ensures match ValueAt(p, i + |name| + 3)
            case Success(Some(text)) => Reads(p, name, text)
            case Success(None) => SpacesTo(p, i + |name| + 3, |p|)
            case Failure(err) => err == Panic && BreaksOff(p, name)
  {
    var start := i + |name| + 3;
    SpacesEnd(p, start);
    var v := SkipSpaces(p, start);
    if v < |p| {
      assert ValueFrom(p, name, i, v);
      if p[v] == QUOTE {
        StringEnds(p, v + 1, StringEnd(p, v + 1));
        if StringEnd(p, v + 1) <= |p| {
          assert TextTo(p, v, StringEnd(p, v + 1), p[v + 1..StringEnd(p, v + 1)]);
        }
      } else {
        BareEnds(p, v);
        assert TextTo(p, v, BareEnd(p, v), p[v..BareEnd(p, v)]);
      }
    }
  }

  lemma FirstKeyIsOne(p: Bytes, name: Bytes, i: nat, j: nat)
    requires FirstKey(p, name, i) && FirstKey(p, name, j)
    ensures i == j
  {
    hide KeyHere;
    assert i < j ==> !KeyHere(p, name, i);
  }

  lemma ReadsIs(p: Bytes, name: Bytes, i: nat, v: nat, end: nat, text: Bytes)
    requires ValueFrom(p, name, i, v) && TextTo(p, v, end, text)
    ensures ValueAt(p, i + |name| + 3) == Success(Some(text))
  {
    SpacesEnd(p, i + |name| + 3);
    if p[v] == QUOTE {
      StringEnds(p, v + 1, end);
    } else {
      BareEnds(p, v);
    }
  }

  lemma BreaksIs(p: Bytes, name: Bytes, i: nat, v: nat)
    requires ValueFrom(p, name, i, v) && p[v] == 34 && TornFrom(p, v + 1)
    ensures ValueAt(p, i + |name| + 3) == Failure(Panic)
  {
    SpacesEnd(p, i + |name| + 3);
    StringEnds(p, v + 1, 0);
  }

  /** From the first key on, whatever the scan finds is the value there. */
  lemma ScanStops(p: Bytes, name: Bytes, i: nat)
    requires FirstKey(p, name, i)
    ensures Field(p, name) == ValueAt(p, i + |name| + 3)
  {
    hide KeyHere;
    ScanFrom(p, name, 0);
    var k: nat :| FirstKey(p, name, k) && Field(p, name) == ValueAt(p, k + |name| + 3);
    FirstKeyIsOne(p, name, i, k);
  }

  /**
   * The extractor finds a text exactly when it stands as the value of the first key of that name,
   * and aborts exactly when that value breaks off in an escape; otherwise it finds nothing.
   */
  lemma FieldExactly(p: Bytes, name: Bytes, text: Bytes)
    ensures Field(p, name) == Success(Some(text)) <==> Reads(p, name, text)
    ensures Field(p, name).Failure? <==> BreaksOff(p, name)
  {
    hide KeyHere;
    hide ValueAt;
    ScanFrom(p, name, 0);
    if i: nat :| FirstKey(p, name, i) {
      ScanStops(p, name, i);
      ValueIs(p, name, i);
    }
    if i: nat, v: nat, end: nat :| ValueFrom(p, name, i, v) && TextTo(p, v, end, text) {
      ScanStops(p, name, i);
      ReadsIs(p, name, i, v, end, text);
    }
    if i: nat, v: nat :| ValueFrom(p, name, i, v) && p[v] == 34 && TornFrom(p, v + 1) {
      ScanStops(p, name, i);
      BreaksIs(p, name, i, v);
    }
  }
}
