/**
 * Printed flat objects, read by find_field: every field that is there comes back as printed, no
 * field that is not there is found, and exactly which field names can be misread.
 */
module FlatObjects {
  import opened Wrappers
  import opened ProtocolTypes
  import opened PayloadParser
  import opened Unicode
  import opened JsonText
  import opened Extraction

  /** Integers, strings and arrays of strings; strings as they stand between their quotes. */
  datatype FlatValue = Int(n: int) | Text(body: Bytes) | List(bodies: seq<Bytes>)

  datatype FlatField = FlatField(key: Bytes, value: FlatValue)

  function IntBytes(n: int): Bytes {
    Encode(IntText(n))
  }

  function Quote(body: Bytes): Bytes {
    [QUOTE] + body + [QUOTE]
  }

  function ListText(bodies: seq<Bytes>): Bytes {
    if bodies == [] then []
    else Quote(bodies[0]) + (if |bodies| == 1 then [] else [COMMA] + ListText(bodies[1..]))
  }

  function ValueText(v: FlatValue): Bytes {
    match v
    case Int(n) => IntBytes(n)
    case Text(body) => Quote(body)
    case List(bodies) => [91] + ListText(bodies) + [93]
  }

  function FieldText(f: FlatField): Bytes {
    Quote(f.key) + [COLON] + ValueText(f.value)
  }

  /** Fields, each followed by a comma, and then whatever comes next. */
  function FieldsThen(fields: seq<FlatField>, rest: Bytes): Bytes {
    if fields == [] then rest else FieldText(fields[0]) + [COMMA] + FieldsThen(fields[1..], rest)
  }

  /** The printed object: fields joined by commas, in braces. */
  function FlatText(fields: seq<FlatField>): Bytes {
    if fields == [] then [123, CLOSE_BRACE]
    else
      var last := |fields| - 1;
      [123] + FieldsThen(fields[..last], FieldText(fields[last]) + [CLOSE_BRACE])
  }

  /** Keys need no escaping; strings are escaped. */
  ghost predicate GoodField(f: FlatField) {
    Plain(f.key) &&
    match f.value
    case Int(_) => true
    case Text(body) => Escaped(body)
    case List(bodies) => forall k :: 0 <= k < |bodies| ==> Escaped(bodies[k])
  }

  ghost predicate GoodFields(fields: seq<FlatField>) {
    forall i :: 0 <= i < |fields| ==> GoodField(fields[i])
  }

  ghost predicate UniqueKeys(fields: seq<FlatField>) {
    forall i, j :: 0 <= i < j < |fields| ==> fields[i].key != fields[j].key
  }

  // ---------------------------------------------------------------------------
  // Printed objects as chunks
  // ---------------------------------------------------------------------------

  function ListChunks(bodies: seq<Bytes>, sep: byte): seq<Chunk> {
    if bodies == [] then []
    else if |bodies| == 1 then [Chunk(bodies[0], [93, sep])]
    else [Chunk(bodies[0], [COMMA])] + ListChunks(bodies[1..], sep)
  }

  function FieldChunks(f: FlatField, sep: byte): seq<Chunk> {
    match f.value
    case Int(n) => [Chunk(f.key, [COLON] + IntBytes(n) + [sep])]
    case Text(body) => [Chunk(f.key, [COLON]), Chunk(body, [sep])]
    case List(bodies) =>
      if bodies == [] then [Chunk(f.key, [COLON, 91, 93, sep])]
      else [Chunk(f.key, [COLON, 91])] + ListChunks(bodies, sep)
  }

  /** The chunks of fields that are each followed by a comma. */
  function CommaChunks(fields: seq<FlatField>): seq<Chunk> {
    if fields == [] then [] else FieldChunks(fields[0], COMMA) + CommaChunks(fields[1..])
  }

  lemma {:induction false} ListChunksText(bodies: seq<Bytes>, sep: byte)
    requires bodies != []
    ensures ChunkText(ListChunks(bodies, sep)) == ListText(bodies) + [93, sep]
  {
    if |bodies| == 1 {
      assert ListChunks(bodies, sep)[1..] == [];
    } else {
      ListChunksText(bodies[1..], sep);
      assert ListChunks(bodies, sep)[1..] == ListChunks(bodies[1..], sep);
    }
  }

  lemma FieldChunksText(f: FlatField, sep: byte)
    ensures ChunkText(FieldChunks(f, sep)) == FieldText(f) + [sep]
  {
    var cs := FieldChunks(f, sep);
    match f.value {
      case Int(n) => assert cs[1..] == [];
      case Text(body) =>
        assert cs[1..] == [Chunk(body, [sep])] && cs[1..][1..] == [];
        assert ChunkText(cs[1..]) == Quote(body) + [sep];
        assert FieldText(f) == Quote(f.key) + [COLON] + Quote(body);
      case List(bodies) =>
        if bodies == [] {
          assert cs[1..] == [];
        } else {
          ListChunksText(bodies, sep);
          assert cs[1..] == ListChunks(bodies, sep);
        }
    }
  }

  lemma {:induction false} CommaChunksText(fields: seq<FlatField>, rest: Bytes)
    ensures FieldsThen(fields, rest) == ChunkText(CommaChunks(fields)) + rest
    decreases |fields|
  {
    hide FieldChunks;
    hide FieldText;
    if fields != [] {
      FieldChunksText(fields[0], COMMA);
      CommaChunksText(fields[1..], rest);
      ChunkTextAppend(FieldChunks(fields[0], COMMA), CommaChunks(fields[1..]));
    }
  }

  lemma {:induction false} FieldsThenSplit(fields: seq<FlatField>, n: nat, rest: Bytes)
    requires n <= |fields|
    ensures FieldsThen(fields, rest) == FieldsThen(fields[..n], FieldsThen(fields[n..], rest))
    decreases n
  {
    hide FieldText;
    if n > 0 {
      FieldsThenSplit(fields[1..], n - 1, rest);
      assert fields[..n][1..] == fields[1..][..n - 1] && fields[1..][n - 1..] == fields[n..];
    } else {
      assert fields[n..] == fields;
    }
  }

  // ---------------------------------------------------------------------------
  // Names that can be misread
  // ---------------------------------------------------------------------------

  /**
   * The unquoted stretches between two strings of a printed flat object. A field of such a name
   * is "found" between two strings when the second one starts with a colon.
   */
  ghost predicate GapName(name: Bytes) {
    || name in {[COLON], [COLON, 91], [COMMA], [93, COMMA], [COLON, 91, 93, COMMA]}
    || exists n: int :: name == [COLON] + IntBytes(n) + [COMMA]
  }

  /** What the scan needs to know of the chunks of one field. */
  ghost predicate Readable(cs: seq<Chunk>, key: Bytes, sep: byte) {
    && (forall k :: 0 <= k < |cs| ==> GoodChunk(cs[k]) && (StartsWithColon(cs[k].gap) ==> cs[k].body == key))
    && (forall k :: 0 <= k < |cs| && (k < |cs| - 1 || sep == COMMA) ==> GapName(cs[k].gap))
  }

  lemma IntBytesBare(n: int)
    ensures Bare(IntBytes(n)) && QUOTE !in IntBytes(n)
  {
    IntTextAscii(n);
    EncodeAscii(IntText(n));
    DecimalDigits(if n < 0 then -n else n);
  }

  lemma {:induction false} ListReadable(bodies: seq<Bytes>, key: Bytes, sep: byte)
    requires forall k :: 0 <= k < |bodies| ==> Escaped(bodies[k])
    requires sep == COMMA || sep == CLOSE_BRACE
    ensures Readable(ListChunks(bodies, sep), key, sep)
  {
    hide Escaped;
    if |bodies| > 1 {
      ListReadable(bodies[1..], key, sep);
    }
  }

  lemma FieldReadable(f: FlatField, sep: byte)
    requires GoodField(f) && (sep == COMMA || sep == CLOSE_BRACE)
    ensures Readable(FieldChunks(f, sep), f.key, sep)
  {
    hide IntBytes;
    PlainEscaped(f.key);
    match f.value {
      case Int(n) =>
        IntBytesBare(n);
      case Text(_) =>
      case List(bodies) =>
        ListReadable(bodies, f.key, sep);
    }
  }

  lemma {:induction false} PlainEscaped(b: Bytes)
    requires Plain(b)
    ensures Escaped(b)
    decreases |b|
  {
    if b != [] {
      assert b[0] in b;
      PlainEscaped(b[1..]);
    }
  }

  // ---------------------------------------------------------------------------
  // Reading
  // ---------------------------------------------------------------------------

  /** The chunks of fields of other names do not hold up the scan. */
  ghost predicate Passable(cs: seq<Chunk>, name: Bytes) {
    forall k :: 0 <= k < |cs| ==> GoodChunk(cs[k]) && !Hit(cs[k], name) && cs[k].gap != name
  }

  lemma FieldPassable(f: FlatField, name: Bytes)
    requires GoodField(f) && f.key != name && !GapName(name)
    ensures Passable(FieldChunks(f, COMMA), name)
  {
    hide GapName;
    hide GoodChunk;
    hide FieldChunks;
    hide GoodField;
    FieldReadable(f, COMMA);
    var cs := FieldChunks(f, COMMA);
    forall k | 0 <= k < |cs| ensures cs[k].gap != name {
      assert GapName(cs[k].gap);
    }
  }

  lemma {:induction false} FieldsPassable(fields: seq<FlatField>, name: Bytes)
    requires GoodFields(fields) && !GapName(name) && forall i :: 0 <= i < |fields| ==> fields[i].key != name
    ensures Passable(CommaChunks(fields), name)
    decreases |fields|
  {
    hide GapName;
    hide GoodChunk;
    hide FieldChunks;
    hide GoodField;
    hide Hit;
    if fields != [] {
      var here, later := FieldChunks(fields[0], COMMA), CommaChunks(fields[1..]);
      FieldPassable(fields[0], name);
      FieldsPassable(fields[1..], name);
      forall k | 0 <= k < |here + later|
        ensures var c := (here + later)[k]; GoodChunk(c) && !Hit(c, name) && c.gap != name
      {
        assert (here + later)[k] == if k < |here| then here[k] else later[k - |here|];
      }
    }
  }

  /** The scan passes fields of other names, whatever text follows them. */
  lemma ScanPast(before: seq<FlatField>, rest: Bytes, name: Bytes)
    requires GoodFields(before) && Plain(name) && !GapName(name) && (rest == [] || rest[0] == QUOTE)
    requires forall i :: 0 <= i < |before| ==> before[i].key != name
    ensures var p, pre := [123] + FieldsThen(before, rest), [123] + ChunkText(CommaChunks(before));
            p == pre + rest && Field(p, name) == FieldFrom(p, name, |pre|)
  {
    hide FieldFrom;
    hide FieldsThen;
    hide ChunkText;
    hide CommaChunks;
    hide GapName;
    hide GoodFields;
    hide Plain;
    var p, cs := [123] + FieldsThen(before, rest), CommaChunks(before);
    CommaChunksText(before, rest);
    FieldsPassable(before, name);
    SkipTo(p, name, 0, 1);
    SkipChunks([123], cs, rest, name);
    assert p == [123] + ChunkText(cs) + rest;
  }

  /** A field that is not there is not found. */
  lemma AbsentField(fields: seq<FlatField>, name: Bytes)
    requires GoodFields(fields) && Plain(name) && !GapName(name)
    requires forall i :: 0 <= i < |fields| ==> fields[i].key != name
    ensures Field(FlatText(fields), name) == Success(None)
  {
    hide GapName;
    hide GoodField;
    hide Plain;
    if fields == [] {
      SkipTo(FlatText(fields), name, 0, 2);
    } else {
      var last := |fields| - 1;
      LastFieldMissed(fields[..last], fields[last], name);
    }
  }

  lemma LastFieldMissed(before: seq<FlatField>, f: FlatField, name: Bytes)
    requires GoodFields(before) && GoodField(f) && Plain(name) && !GapName(name) && f.key != name
    requires forall i :: 0 <= i < |before| ==> before[i].key != name
    ensures Field([123] + FieldsThen(before, FieldText(f) + [CLOSE_BRACE]), name) == Success(None)
  {
    hide FieldText;
    hide FieldsThen;
    hide ChunkText;
    hide CommaChunks;
    hide FieldChunks;
    hide GapName;
    hide GoodFields;
    hide GoodField;
    hide GoodChunk;
    hide Plain;
    hide Hit;
    hide KeyAt;
    hide ValueAt;
    var rest, cs := FieldText(f) + [CLOSE_BRACE], FieldChunks(f, CLOSE_BRACE);
    FieldChunksText(f, CLOSE_BRACE);
    FieldReadable(f, CLOSE_BRACE);
    FieldMissed(f, CLOSE_BRACE, name);
    FieldTextFront(f);
    ScanPast(before, rest, name);
    var pre := [123] + ChunkText(CommaChunks(before));
    forall k | 0 <= k < |cs| - 1 ensures cs[k].gap != name {
      assert GapName(cs[k].gap);
    }
    SkipChunks(pre, cs, [], name);
    assert pre + ChunkText(cs) + [] == pre + rest == pre + ChunkText(cs);
  }

  lemma FieldTextFront(f: FlatField)
    ensures FieldText(f) != [] && FieldText(f)[0] == QUOTE
  {
  }

  lemma FieldMissed(f: FlatField, sep: byte, name: Bytes)
    requires GoodField(f) && (sep == COMMA || sep == CLOSE_BRACE) && f.key != name
    ensures forall k :: 0 <= k < |FieldChunks(f, sep)| ==> !Hit(FieldChunks(f, sep)[k], name)
  {
    hide GapName;
    hide GoodField;
    hide FieldChunks;
    FieldReadable(f, sep);
  }

  lemma ReadBareText(pre: Bytes, t: Bytes, sep: byte, rest: Bytes)
    requires Bare(t) && EndsBareValue(sep)
    ensures ValueAt(pre + t + [sep] + rest, |pre|) == Success(Some(t))
  {
    hide ValueAt;
    BareValue(pre + t + [sep] + rest, |pre|, t);
  }

  /** A quoted text is read back as it stands exactly when it is escaped. */
  lemma ReadQuotedText(pre: Bytes, body: Bytes, rest: Bytes)
    ensures ValueAt(pre + Quote(body) + rest, |pre|) == Success(Some(body)) <==> Escaped(body)
  {
    hide ValueAt;
    hide Escaped;
    var p := pre + Quote(body) + rest;
    assert p[|pre| + 1..|pre| + 1 + |body|] == body;
    StringValue(p, |pre|, body);
  }

  /** What find_field gives back for an integer or a string. */
  function Printed(v: FlatValue): Bytes
    requires !v.List?
  {
    match v
    case Int(n) => IntBytes(n)
    case Text(body) => body
  }

  /** The value standing at the end of `pre`, followed by a separator. */
  lemma ReadValueText(pre: Bytes, v: FlatValue, sep: byte, rest: Bytes)
    requires v.Int? || (v.Text? && Escaped(v.body))
    requires sep == COMMA || sep == CLOSE_BRACE
    ensures ValueAt(pre + ValueText(v) + [sep] + rest, |pre|) == Success(Some(Printed(v)))
  {
    hide ValueAt;
    hide Escaped;
    hide IntBytes;
    hide Bare;
    hide Quote;
    match v {
      case Int(n) =>
        IntBytesBare(n);
        ReadBareText(pre, IntBytes(n), sep, rest);
      case Text(body) =>
        ReadQuotedText(pre, body, [sep] + rest);
        assert pre + Quote(body) + [sep] + rest == pre + Quote(body) + ([sep] + rest);
    }
  }

  /** An array is read up to its first comma, brace or space; the scan does not abort on it. */
  lemma ReadListText(pre: Bytes, bodies: seq<Bytes>, rest: Bytes)
    ensures ValueAt(pre + ValueText(List(bodies)) + rest, |pre|).Success?
  {
    assert (pre + ValueText(List(bodies)) + rest)[|pre|] == 91;
  }

  /** The first field of a name is where the scan stops; what it reads there is the value. */
  lemma FirstOfItsName(before: seq<FlatField>, key: Bytes, value: Bytes)
    requires GoodFields(before) && Plain(key) && !GapName(key) && value != []
    requires forall i :: 0 <= i < |before| ==> before[i].key != key
    ensures var front := [123] + ChunkText(CommaChunks(before)) + Quote(key) + [COLON];
            && [123] + FieldsThen(before, Quote(key) + [COLON] + value) == front + value
            && Field(front + value, key) == ValueAt(front + value, |front|)
  {
    hide FieldFrom;
    hide FieldsThen;
    hide ChunkText;
    hide CommaChunks;
    hide GapName;
    hide GoodFields;
    hide Plain;
    hide KeyAt;
    hide ValueAt;
    var pre := [123] + ChunkText(CommaChunks(before));
    ScanPast(before, Quote(key) + [COLON] + value, key);
    KeyStands(pre, key, value);
    assert pre + (Quote(key) + [COLON] + value) == pre + Quote(key) + [COLON] + value;
    FoundHere(pre + Quote(key) + [COLON] + value, key, |pre|);
  }

  /** Its value comes back exactly as printed, whatever text follows. */
  lemma FirstComesBack(before: seq<FlatField>, f: FlatField, sep: byte, tail: Bytes)
    requires GoodFields(before) && GoodField(f) && !f.value.List? && !GapName(f.key)
    requires forall i :: 0 <= i < |before| ==> before[i].key != f.key
    requires sep == COMMA || sep == CLOSE_BRACE
    ensures Field([123] + FieldsThen(before, FieldText(f) + [sep] + tail), f.key) == Success(Some(Printed(f.value)))
  {
    hide Field;
    hide FieldsThen;
    hide ChunkText;
    hide CommaChunks;
    hide GapName;
    hide GoodFields;
    hide Plain;
    hide Escaped;
    hide ValueAt;
    hide ValueText;
    hide Quote;
    hide IntBytes;
    var value := ValueText(f.value) + [sep] + tail;
    var front := [123] + ChunkText(CommaChunks(before)) + Quote(f.key) + [COLON];
    FirstOfItsName(before, f.key, value);
    ReadValueText(front, f.value, sep, tail);
    assert FieldText(f) + [sep] + tail == Quote(f.key) + [COLON] + value;
    assert front + value == front + ValueText(f.value) + [sep] + tail;
  }

  /** A text comes back exactly when it is escaped. */
  lemma TextComesBackExactly(before: seq<FlatField>, key: Bytes, body: Bytes, tail: Bytes)
    requires GoodFields(before) && Plain(key) && !GapName(key)
    requires forall i :: 0 <= i < |before| ==> before[i].key != key
    ensures Field([123] + FieldsThen(before, FieldText(FlatField(key, Text(body))) + tail), key) == Success(Some(body))
            <==> Escaped(body)
  {
    hide Field;
    hide FieldsThen;
    hide ChunkText;
    hide CommaChunks;
    hide GapName;
    hide GoodFields;
    hide Plain;
    hide Escaped;
    hide ValueAt;
    var value := Quote(body) + tail;
    var front := [123] + ChunkText(CommaChunks(before)) + Quote(key) + [COLON];
    FirstOfItsName(before, key, value);
    ReadQuotedText(front, body, tail);
    assert FieldText(FlatField(key, Text(body))) + tail == Quote(key) + [COLON] + value;
    assert front + value == front + Quote(body) + tail;
  }

  /** A printed object, seen from one of its fields. */
  lemma TextAround(fields: seq<FlatField>, n: nat) returns (sep: byte, tail: Bytes)
    requires n < |fields|
    ensures sep == COMMA || sep == CLOSE_BRACE
    ensures FlatText(fields) == [123] + FieldsThen(fields[..n], FieldText(fields[n]) + [sep] + tail)
  {
    hide FieldText;
    var last := |fields| - 1;
    var end := FieldText(fields[last]) + [CLOSE_BRACE];
    FieldsThenSplit(fields[..last], n, end);
    assert fields[..last][..n] == fields[..n];
    if n == last {
      sep, tail := CLOSE_BRACE, [];
      assert fields[..last][n..] == [];
      assert end == FieldText(fields[n]) + [sep] + tail;
    } else {
      sep, tail := COMMA, FieldsThen(fields[..last][n..][1..], end);
      assert fields[..last][n..][0] == fields[n];
    }
  }

  /** The first integer or string field of a name comes back exactly as printed. */
  lemma PresentField(fields: seq<FlatField>, n: nat)
    requires GoodFields(fields) && n < |fields| && !GapName(fields[n].key) && !fields[n].value.List?
    requires forall i :: 0 <= i < n ==> fields[i].key != fields[n].key
    ensures Field(FlatText(fields), fields[n].key) == Success(Some(Printed(fields[n].value)))
  {
    hide Field;
    hide FieldsThen;
    hide FlatText;
    hide FieldText;
    hide GapName;
    hide GoodField;
    hide Printed;
    var sep, tail := TextAround(fields, n);
    FirstComesBack(fields[..n], fields[n], sep, tail);
  }

  /** On an array field the scan does not abort. */
  lemma PresentList(fields: seq<FlatField>, n: nat)
    requires GoodFields(fields) && n < |fields| && !GapName(fields[n].key) && fields[n].value.List?
    requires forall i :: 0 <= i < n ==> fields[i].key != fields[n].key
    ensures Field(FlatText(fields), fields[n].key).Success?
  {
    hide Field;
    hide FieldsThen;
    hide FlatText;
    hide ChunkText;
    hide CommaChunks;
    hide GapName;
    hide Plain;
    hide Escaped;
    hide ValueAt;
    hide ValueText;
    var f := fields[n];
    var sep, tail := TextAround(fields, n);
    var value := ValueText(f.value) + ([sep] + tail);
    var front := [123] + ChunkText(CommaChunks(fields[..n])) + Quote(f.key) + [COLON];
    FirstOfItsName(fields[..n], f.key, value);
    ReadListText(front, f.value.bodies, [sep] + tail);
    assert FieldText(f) + [sep] + tail == Quote(f.key) + [COLON] + value;
    assert front + value == front + ValueText(f.value) + ([sep] + tail);
  }

  lemma KeyStands(pre: Bytes, name: Bytes, rest: Bytes)
    ensures KeyAt(pre + Quote(name) + [COLON] + rest, name, |pre|)
  {
  }

  lemma FoundHere(p: Bytes, name: Bytes, i: nat)
    requires KeyAt(p, name, i) && i + |name| + 3 < |p|
    ensures FieldFrom(p, name, i) == ValueAt(p, i + |name| + 3)
  {
  }

  // ---------------------------------------------------------------------------
  // Exactly which names are safe
  // ---------------------------------------------------------------------------

  /** find_field answers as it should: what is printed under the name, or that nothing is; never an abort. */
  ghost predicate ReadsCorrectly(fields: seq<FlatField>, name: Bytes) {
    && (forall n :: 0 <= n < |fields| && fields[n].key == name && !fields[n].value.List? ==>
          Field(FlatText(fields), name) == Success(Some(Printed(fields[n].value))))
    && ((forall n :: 0 <= n < |fields| ==> fields[n].key != name) ==>
          Field(FlatText(fields), name) == Success(None))
    && Field(FlatText(fields), name).Success?
  }

  ghost predicate SafeName(name: Bytes) {
    forall fields :: GoodFields(fields) && UniqueKeys(fields) ==> ReadsCorrectly(fields, name)
  }

  lemma KeyFirst(p: Bytes, name: Bytes, j: nat)
    requires KeyAt(p, name, j) && name != []
    ensures p[j] == QUOTE && p[j + 1] == name[0]
  {
    assert p[j + 1..j + 1 + |name|][0] == name[0];
  }

  /** Text in which the name stands between two quotes, the second one before a colon. */
  lemma FalseHit(before: Bytes, name: Bytes, rest: Bytes)
    requires Plain(name) && name != []
    requires forall j :: 0 <= j < |before| && before[j] == QUOTE ==> j + 1 < |before| && before[j + 1] != name[0]
    ensures Field(before + Quote(name) + [COLON, 120] + rest, name) != Success(None)
  {
    hide FieldFrom;
    var p := before + Quote(name) + [COLON, 120] + rest;
    forall j | 0 <= j < |before| ensures !KeyAt(p, name, j) {
      assert p[j] == before[j];
      assert j + 1 < |before| ==> p[j + 1] == before[j + 1];
      if KeyAt(p, name, j) {
        KeyFirst(p, name, j);
      }
    }
    SkipTo(p, name, 0, |before|);
    KeyStands(before, name, [120] + rest);
    assert p == before + Quote(name) + [COLON] + ([120] + rest);
    FoundHere(p, name, |before|);
    assert p[|before| + |name| + 3] == 120;
  }

  /** A printed object in which find_field finds a field that is not there. */
  ghost predicate Misread(fields: seq<FlatField>, name: Bytes) {
    && GoodFields(fields) && UniqueKeys(fields)
    && (forall n :: 0 <= n < |fields| ==> fields[n].key != name)
    && Field(FlatText(fields), name) != Success(None)
  }

  /** The key "a" and, where a second field is needed, the key ":x". */
  const KEY_A: Bytes := [97]
  const COLON_X: Bytes := [COLON, 120]

  lemma OneField(f: FlatField)
    ensures FlatText([f]) == [123] + FieldText(f) + [CLOSE_BRACE]
  {
    hide FieldText;
    assert [f][..0] == [];
  }

  lemma TwoFields(f: FlatField, g: FlatField)
    ensures FlatText([f, g]) == [123] + FieldText(f) + [COMMA] + FieldText(g) + [CLOSE_BRACE]
  {
    hide FieldText;
    assert [f, g][..1] == [f] && [f][1..] == [];
    assert FieldsThen([f], FieldText(g) + [CLOSE_BRACE]) == FieldText(f) + [COMMA] + (FieldText(g) + [CLOSE_BRACE]);
  }

  lemma SmallValues()
    ensures ValueText(Text(COLON_X)) == [QUOTE, COLON, 120, QUOTE]
    ensures ValueText(List([COLON_X])) == [91, QUOTE, COLON, 120, QUOTE, 93]
    ensures ValueText(Text([98])) == [QUOTE, 98, QUOTE]
    ensures ValueText(List([[98]])) == [91, QUOTE, 98, QUOTE, 93]
    ensures ValueText(List([])) == [91, 93]
    ensures ValueText(Text([])) == [QUOTE, QUOTE]
  {
  }

  lemma SmallBodies()
    ensures Escaped(COLON_X) && Escaped([98]) && Escaped([]) && Plain(KEY_A) && Plain(COLON_X)
  {
    assert COLON_X[1..] == [120] && [120][1..] == [] && [98][1..] == [];
  }

  /** `{"a":":x"}` and `{"a":[":x"]}` */
  lemma MisreadBeforeValue()
    ensures Misread([FlatField(KEY_A, Text(COLON_X))], [COLON])
    ensures Misread([FlatField(KEY_A, List([COLON_X]))], [COLON, 91])
  {
    hide FieldFrom;
    hide FlatText;
    hide ValueText;
    hide Escaped;
    hide Plain;
    var f, g := FlatField(KEY_A, Text(COLON_X)), FlatField(KEY_A, List([COLON_X]));
    SmallValues();
    SmallBodies();
    OneField(f);
    OneField(g);
    GapsArePlain();
    FalseHit([123, QUOTE, 97], [COLON], [QUOTE, CLOSE_BRACE]);
    FalseHit([123, QUOTE, 97], [COLON, 91], [QUOTE, 93, CLOSE_BRACE]);
    assert FlatText([f]) == [123, QUOTE, 97] + Quote([COLON]) + [COLON, 120] + [QUOTE, CLOSE_BRACE];
    assert FlatText([g]) == [123, QUOTE, 97] + Quote([COLON, 91]) + [COLON, 120] + [QUOTE, 93, CLOSE_BRACE];
  }

  lemma GapsArePlain()
    ensures Plain([COLON]) && Plain([COLON, 91]) && Plain([COMMA]) && Plain([93, COMMA])
    ensures Plain([COLON, 91, 93, COMMA])
  {
  }

  /** An object `{"a":<value>,":x":""}`. */
  function Pair(v: FlatValue): seq<FlatField> {
    [FlatField(KEY_A, v), FlatField(COLON_X, Text([]))]
  }

  const PAIR_TAIL: Bytes := [QUOTE, COLON, QUOTE, QUOTE, CLOSE_BRACE]

  lemma PairText(v: FlatValue)
    ensures FlatText(Pair(v)) == [123, QUOTE, 97, QUOTE, COLON] + ValueText(v) + [COMMA, QUOTE, COLON, 120] + PAIR_TAIL
  {
    hide FlatText;
    hide ValueText;
    SmallValues();
    TwoFields(FlatField(KEY_A, v), FlatField(COLON_X, Text([])));
    assert FieldText(FlatField(COLON_X, Text([]))) + [CLOSE_BRACE] == [QUOTE, COLON, 120] + PAIR_TAIL;
    assert FieldText(FlatField(KEY_A, v)) == [QUOTE, 97, QUOTE, COLON] + ValueText(v);
  }

  lemma MisreadPair(v: FlatValue, before: Bytes, name: Bytes)
    requires GoodField(FlatField(KEY_A, v)) && Plain(name) && |name| > 0 && name != KEY_A && name != COLON_X
    requires [123, QUOTE, 97, QUOTE, COLON] + ValueText(v) + [COMMA, QUOTE] == before + Quote(name)
    requires forall j :: 0 <= j < |before| && before[j] == QUOTE ==> j + 1 < |before| && before[j + 1] != name[0]
    ensures Misread(Pair(v), name)
  {
    hide FieldFrom;
    hide FlatText;
    hide ValueText;
    hide Escaped;
    hide Plain;
    SmallBodies();
    PairText(v);
    FalseHit(before, name, PAIR_TAIL);
    assert FlatText(Pair(v)) == before + Quote(name) + [COLON, 120] + PAIR_TAIL;
  }

  /** `{"a":"b",":x":""}`, `{"a":["b"],":x":""}` and `{"a":[],":x":""}` */
  lemma MisreadBeforeKey()
    ensures Misread(Pair(Text([98])), [COMMA])
    ensures Misread(Pair(List([[98]])), [93, COMMA])
    ensures Misread(Pair(List([])), [COLON, 91, 93, COMMA])
  {
    hide Misread;
    hide ValueText;
    hide Escaped;
    hide Plain;
    SmallValues();
    SmallBodies();
    GapsArePlain();
    MisreadPair(Text([98]), [123, QUOTE, 97, QUOTE, COLON, QUOTE, 98], [COMMA]);
    MisreadPair(List([[98]]), [123, QUOTE, 97, QUOTE, COLON, 91, QUOTE, 98], [93, COMMA]);
    MisreadPair(List([]), [123, QUOTE, 97], [COLON, 91, 93, COMMA]);
  }

  /** `{"a":5,":x":""}` and the like */
  lemma MisreadAfterInt(n: int)
    ensures Misread(Pair(Int(n)), [COLON] + IntBytes(n) + [COMMA])
  {
    hide IntBytes;
    hide Misread;
    var name := [COLON] + IntBytes(n) + [COMMA];
    IntBytesBare(n);
    IntBytesPlain(n);
    SmallBodies();
    assert name[0] == COLON && |name| >= 3;
    MisreadPair(Int(n), [123, QUOTE, 97], name);
  }

  lemma IntBytesPlain(n: int)
    ensures Plain(IntBytes(n))
  {
    IntTextAscii(n);
    EncodeAscii(IntText(n));
    DecimalDigits(if n < 0 then -n else n);
  }

  /**
   * find_field reads a field name correctly in every printed flat object exactly when the name is
   * none of the stretches that can stand between two strings of one.
   */
  lemma ExactlyTheGapNames(name: Bytes)
    requires Plain(name)
    ensures SafeName(name) <==> !GapName(name)
  {
    hide FlatText;
    hide GoodField;
    hide IntBytes;
    hide Plain;
    hide Printed;
    hide Field;
    if !GapName(name) {
      forall fields | GoodFields(fields) && UniqueKeys(fields) ensures ReadsCorrectly(fields, name) {
        CorrectWhereSafe(fields, name);
      }
    } else {
      var fields := MisreadWitness(name);
      assert !ReadsCorrectly(fields, name);
    }
  }

  lemma CorrectWhereSafe(fields: seq<FlatField>, name: Bytes)
    requires GoodFields(fields) && UniqueKeys(fields) && Plain(name) && !GapName(name)
    ensures ReadsCorrectly(fields, name)
  {
    hide GapName;
    hide Field;
    hide FlatText;
    hide Plain;
    hide Printed;
    hide GoodField;
    if forall n :: 0 <= n < |fields| ==> fields[n].key != name {
      AbsentField(fields, name);
    } else {
      var n :| 0 <= n < |fields| && fields[n].key == name;
      if fields[n].value.List? {
        PresentList(fields, n);
      } else {
        PresentField(fields, n);
      }
    }
  }

  lemma MisreadWitness(name: Bytes) returns (fields: seq<FlatField>)
    requires GapName(name)
    ensures Misread(fields, name)
  {
    hide Misread;
    hide IntBytes;
    MisreadBeforeValue();
    MisreadBeforeKey();
    if name == [COLON] {
      fields := [FlatField(KEY_A, Text(COLON_X))];
    } else if name == [COLON, 91] {
      fields := [FlatField(KEY_A, List([COLON_X]))];
    } else if name == [COMMA] {
      fields := Pair(Text([98]));
    } else if name == [93, COMMA] {
      fields := Pair(List([[98]]));
    } else if name == [COLON, 91, 93, COMMA] {
      fields := Pair(List([]));
    } else {
      var n: int :| name == [COLON] + IntBytes(n) + [COMMA];
      MisreadAfterInt(n);
      fields := Pair(Int(n));
    }
  }
}
