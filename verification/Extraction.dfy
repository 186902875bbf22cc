/**
 * What find_field does on a text in which quoted strings alternate with unquoted stretches, as in
 * every printed JSON object.
 */
module Extraction {
  import opened Wrappers
  import opened ProtocolTypes
  import opened PayloadParser

  /** A quoted string and the unquoted stretch that follows it. */
  datatype Chunk = Chunk(body: Bytes, gap: Bytes)

  function Front(c: Chunk): Bytes {
    [QUOTE] + c.body + [QUOTE] + c.gap
  }

  function ChunkText(cs: seq<Chunk>): Bytes {
    if cs == [] then [] else Front(cs[0]) + ChunkText(cs[1..])
  }

  predicate Plain(b: Bytes) {
    QUOTE !in b && BACKSLASH !in b
  }

  /** Every quote in it is escaped, and so is whatever follows it. */
  predicate Escaped(b: Bytes)
    decreases |b|
  {
    if b == [] then true
    else if b[0] == QUOTE then false
    else if b[0] == BACKSLASH then |b| >= 2 && Escaped(b[2..])
    else Escaped(b[1..])
  }

  predicate StartsWithColon(b: Bytes) {
    b != [] && b[0] == COLON
  }

  /** A string is either a plain key before a colon, or not before a colon. */
  predicate GoodChunk(c: Chunk) {
    && Escaped(c.body)
    && QUOTE !in c.gap
    && (StartsWithColon(c.gap) ==> Plain(c.body))
  }

  ghost predicate Good(cs: seq<Chunk>) {
    forall k :: 0 <= k < |cs| ==> GoodChunk(cs[k])
  }

  /** The chunk is the key looked for. */
  predicate Hit(c: Chunk, name: Bytes) {
    c.body == name && StartsWithColon(c.gap)
  }

  // ---------------------------------------------------------------------------
  // Quotes in escaped text
  // ---------------------------------------------------------------------------

  lemma {:induction false} QuoteIsEscaped(b: Bytes, n: nat)
    requires Escaped(b) && n < |b| && b[n] == QUOTE
    ensures n >= 1 && b[n - 1] == BACKSLASH
    decreases |b|
  {
    if b[0] == BACKSLASH {
      if n >= 2 {
        QuoteIsEscaped(b[2..], n - 2);
      }
    } else {
      QuoteIsEscaped(b[1..], n - 1);
    }
  }

  /** The first quote at or after a position; the end of the text when there is none. */
  function NextQuote(p: Bytes, i: nat): (q: nat)
    requires i <= |p|
    ensures i <= q <= |p| && (q == |p| || p[q] == QUOTE)
    ensures forall k :: i <= k < q ==> p[k] != QUOTE
    decreases |p| - i
  {
    if i < |p| && p[i] != QUOTE then NextQuote(p, i + 1) else i
  }

  /** There is only one such position. */
  lemma {:induction false} NextQuoteIs(p: Bytes, i: nat, q: nat)
    requires i <= q <= |p| && (q == |p| || p[q] == QUOTE) && forall k :: i <= k < q ==> p[k] != QUOTE
    ensures NextQuote(p, i) == q
    decreases q - i
  {
    if i < q {
      NextQuoteIs(p, i + 1, q);
    }
  }

  /** A quote-free name matches where it fills the space up to the next quote, before a colon. */
  lemma KeyAtExactly(p: Bytes, name: Bytes, j: nat)
    requires QUOTE !in name
    ensures KeyAt(p, name, j) <==>
              && j < |p| && p[j] == QUOTE
              && var q := NextQuote(p, j + 1);
                 q + 1 < |p| && p[q + 1] == COLON && p[j + 1..q] == name
  {
    if KeyAt(p, name, j) {
      forall k | j + 1 <= k < j + 1 + |name| ensures p[k] != QUOTE {
        assert name[k - j - 1] == p[j + 1..j + 1 + |name|][k - j - 1];
      }
      NextQuoteIs(p, j + 1, j + 1 + |name|);
    }
  }

  // ---------------------------------------------------------------------------
  // Where the key pattern matches
  // ---------------------------------------------------------------------------

  /** A chunk stands at position `i`, followed by the next one or the end of the text. */
  predicate Laid(p: Bytes, i: nat, c: Chunk) {
    var close, next := i + 1 + |c.body|, i + 2 + |c.body| + |c.gap|;
    && next <= |p| && p[i] == p[close] == QUOTE
    && p[i + 1..close] == c.body && p[close + 1..next] == c.gap
    && (next < |p| ==> p[next] == QUOTE)
  }

  lemma FrontLaid(pre: Bytes, c: Chunk, rest: Bytes)
    requires rest == [] || rest[0] == QUOTE
    ensures Laid(pre + Front(c) + rest, |pre|, c)
  {
    var p, i := pre + Front(c) + rest, |pre|;
    var close, next := i + 1 + |c.body|, i + 2 + |c.body| + |c.gap|;
    assert p[i + 1..close] == c.body;
    assert p[close + 1..next] == c.gap;
    assert p[next..] == rest;
  }

  /** From inside a string the next quote is the closing one, or an escaped one. */
  lemma QuoteFromBody(p: Bytes, i: nat, c: Chunk, m: nat)
    requires Laid(p, i, c) && Escaped(c.body) && m <= |c.body|
    ensures var close := i + 1 + |c.body|;
            var q := NextQuote(p, i + 1 + m);
            q == close || (i + 2 <= q < close && p[q - 1] == BACKSLASH && QUOTE in c.body)
  {
    var q := NextQuote(p, i + 1 + m);
    if q < i + 1 + |c.body| {
      var n := q - i - 1;
      assert c.body[n] == p[q] == QUOTE;
      QuoteIsEscaped(c.body, n);
      assert c.body[n - 1] == p[q - 1];
    }
  }

  /** From the end of a string the next quote opens the next one. */
  lemma QuoteFromGap(p: Bytes, i: nat, c: Chunk)
    requires Laid(p, i, c) && QUOTE !in c.gap
    ensures NextQuote(p, i + 2 + |c.body|) == i + 2 + |c.body| + |c.gap|
  {
    var from, to := i + 2 + |c.body|, i + 2 + |c.body| + |c.gap|;
    forall k | from <= k < to ensures p[k] != QUOTE {
      assert p[k] == c.gap[k - from];
      assert c.gap[k - from] in c.gap;
    }
    NextQuoteIs(p, from, to);
  }

  /** Whether a colon follows the closing quote of a string. */
  lemma ColonAfter(p: Bytes, i: nat, c: Chunk)
    requires Laid(p, i, c)
    ensures var close := i + 1 + |c.body|;
            close + 1 < |p| && p[close + 1] == COLON <==> StartsWithColon(c.gap)
  {
    var close := i + 1 + |c.body|;
    if c.gap != [] {
      assert p[close + 1] == p[close + 1..close + 1 + |c.gap|][0];
    }
  }

  /** At the opening quote of a string the pattern matches exactly the keys of that name. */
  lemma AtOpeningQuote(p: Bytes, i: nat, c: Chunk, name: Bytes)
    requires Laid(p, i, c) && Escaped(c.body) && Plain(name)
    ensures KeyAt(p, name, i) <==> Hit(c, name)
  {
    hide Escaped;
    hide KeyAt;
    hide NextQuote;
    var q := NextQuote(p, i + 1);
    QuoteFromBody(p, i, c, 0);
    ColonAfter(p, i, c);
    KeyAtExactly(p, name, i);
    if q < i + 1 + |c.body| {
      assert p[i + 1..q][q - i - 2] == BACKSLASH;
    }
  }

  /** Inside a string the pattern does not match. */
  lemma InsideBody(p: Bytes, i: nat, c: Chunk, name: Bytes, m: nat)
    requires Laid(p, i, c) && GoodChunk(c) && Plain(name) && m < |c.body|
    ensures !KeyAt(p, name, i + 1 + m)
  {
    hide Escaped;
    hide KeyAt;
    hide NextQuote;
    var j := i + 1 + m;
    var q := NextQuote(p, j + 1);
    QuoteFromBody(p, i, c, m + 1);
    ColonAfter(p, i, c);
    KeyAtExactly(p, name, j);
    assert p[j] == c.body[m];
    assert c.body[m] in c.body;
    if p[j] == QUOTE && q < i + 1 + |c.body| {
      assert p[j + 1..q][q - j - 2] == BACKSLASH;
    }
  }

  /** At the closing quote it matches where the stretch reads as the name and a colon comes next. */
  lemma AtClosingQuote(p: Bytes, i: nat, c: Chunk, name: Bytes)
    requires Laid(p, i, c) && QUOTE !in c.gap && Plain(name)
    ensures var next := i + 2 + |c.body| + |c.gap|;
            KeyAt(p, name, i + 1 + |c.body|) <==> c.gap == name && next + 1 < |p| && p[next + 1] == COLON
  {
    hide KeyAt;
    hide NextQuote;
    QuoteFromGap(p, i, c);
    KeyAtExactly(p, name, i + 1 + |c.body|);
  }

  /** In the stretch between two strings there is no quote to match. */
  lemma InsideGap(p: Bytes, i: nat, c: Chunk, name: Bytes, m: nat)
    requires Laid(p, i, c) && QUOTE !in c.gap && m < |c.gap|
    ensures !KeyAt(p, name, i + 2 + |c.body| + m)
  {
    assert p[i + 2 + |c.body| + m] == c.gap[m];
    assert c.gap[m] in c.gap;
  }

  // ---------------------------------------------------------------------------
  // The scan
  // ---------------------------------------------------------------------------

  lemma {:induction false} SkipTo(p: Bytes, name: Bytes, i: nat, k: nat)
    requires i <= k && forall j :: i <= j < k ==> !KeyAt(p, name, j)
    ensures FieldFrom(p, name, i) == FieldFrom(p, name, k)
    decreases k - i
  {
    hide KeyAt;
    if i < k {
      SkipTo(p, name, i + 1, k);
    }
  }

  /** The scan passes over a chunk that is neither the key nor followed by a clash. */
  lemma SkipChunk(p: Bytes, i: nat, c: Chunk, name: Bytes)
    requires Laid(p, i, c) && GoodChunk(c) && Plain(name) && !Hit(c, name)
    requires var next := i + 2 + |c.body| + |c.gap|;
             c.gap == name && next + 1 < |p| ==> p[next + 1] != COLON
    ensures FieldFrom(p, name, i) == FieldFrom(p, name, i + 2 + |c.body| + |c.gap|)
  {
    hide KeyAt;
    hide Laid;
    AtOpeningQuote(p, i, c, name);
    AtClosingQuote(p, i, c, name);
    forall j | i <= j < i + 2 + |c.body| + |c.gap| ensures !KeyAt(p, name, j) {
      if j == i || j == i + 1 + |c.body| {
      } else if j < i + 1 + |c.body| {
        InsideBody(p, i, c, name, j - i - 1);
      } else {
        InsideGap(p, i, c, name, j - i - 2 - |c.body|);
      }
    }
    SkipTo(p, name, i, i + 2 + |c.body| + |c.gap|);
  }

  lemma StartsWithQuote(cs: seq<Chunk>, rest: Bytes)
    requires rest == [] || rest[0] == QUOTE
    ensures ChunkText(cs) + rest == [] || (ChunkText(cs) + rest)[0] == QUOTE
    ensures cs != [] ==> ChunkText(cs) + rest != []
  {
  }

  lemma {:induction false} ChunkTextAppend(a: seq<Chunk>, b: seq<Chunk>)
    ensures ChunkText(a + b) == ChunkText(a) + ChunkText(b)
    decreases |a|
  {
    hide Front;
    if a == [] {
      assert a + b == b;
    } else {
      assert (a + b)[1..] == a[1..] + b;
      ChunkTextAppend(a[1..], b);
    }
  }

  /**
   * The scan passes over any number of strings that are not the key, when no stretch between two
   * strings reads as the name. Nothing is asked of the text that follows them.
   */
  lemma {:induction false} SkipChunks(pre: Bytes, cs: seq<Chunk>, rest: Bytes, name: Bytes)
    requires Good(cs) && Plain(name) && (rest == [] || rest[0] == QUOTE)
    requires forall k :: 0 <= k < |cs| ==> !Hit(cs[k], name)
    requires forall k :: 0 <= k < |cs| && (k < |cs| - 1 || rest != []) ==> cs[k].gap != name
    ensures var p := pre + ChunkText(cs) + rest;
            FieldFrom(p, name, |pre|) == FieldFrom(p, name, |pre + ChunkText(cs)|)
    decreases |cs|
  {
    hide FieldFrom;
    hide Front;
    hide GoodChunk;
    hide Hit;
    hide Laid;
    if cs != [] {
      var c, others := cs[0], cs[1..];
      var tail := ChunkText(others) + rest;
      StartsWithQuote(others, rest);
      assert tail != [] ==> c.gap != name;
      SkipOne(pre, c, tail, name);
      SkipChunks(pre + Front(c), others, rest, name);
      assert pre + ChunkText(cs) + rest == pre + Front(c) + tail;
      assert pre + Front(c) + ChunkText(others) + rest == pre + Front(c) + tail;
      assert pre + ChunkText(cs) == pre + Front(c) + ChunkText(others);
    }
  }

  lemma SkipOne(pre: Bytes, c: Chunk, tail: Bytes, name: Bytes)
    requires GoodChunk(c) && Plain(name) && !Hit(c, name)
    requires tail == [] || (tail[0] == QUOTE && c.gap != name)
    ensures FieldFrom(pre + Front(c) + tail, name, |pre|) == FieldFrom(pre + Front(c) + tail, name, |pre + Front(c)|)
  {
    hide FieldFrom;
    hide GoodChunk;
    hide Hit;
    hide Laid;
    FrontLaid(pre, c, tail);
    SkipChunk(pre + Front(c) + tail, |pre|, c, name);
  }

  // ---------------------------------------------------------------------------
  // The values
  // ---------------------------------------------------------------------------

  /** The closing quote is found exactly when the text before it is escaped. */
  lemma {:induction false} EndOfString(p: Bytes, i: nat, body: Bytes)
    requires i + |body| < |p| && p[i..i + |body|] == body && p[i + |body|] == QUOTE
    ensures StringEnd(p, i) == i + |body| <==> Escaped(body)
    decreases |body|
  {
    if body != [] {
      var n := if body[0] == BACKSLASH then 2 else 1;
      assert p[i] == body[0];
      if n <= |body| {
        assert p[i + n..i + |body|] == body[n..];
        EndOfString(p, i + n, body[n..]);
      }
    }
  }

  lemma QuotedValue(p: Bytes, v: nat)
    requires v < |p| && p[v] == QUOTE
    ensures var e := StringEnd(p, v + 1);
            ValueAt(p, v) == if e <= |p| then Success(Some(p[v + 1..e])) else Failure(Panic)
  {
    hide StringEnd;
  }

  /** A quoted value is read as it stands exactly when it is escaped. */
  lemma StringValue(p: Bytes, v: nat, body: Bytes)
    requires v + 1 + |body| < |p|
    requires p[v] == QUOTE && p[v + 1..v + 1 + |body|] == body && p[v + 1 + |body|] == QUOTE
    ensures ValueAt(p, v) == Success(Some(body)) <==> Escaped(body)
  {
    hide Escaped;
    hide ValueAt;
    EndOfString(p, v + 1, body);
    QuotedValue(p, v);
  }

  predicate Bare(t: Bytes) {
    t != [] && t[0] != QUOTE && forall k :: 0 <= k < |t| ==> !EndsBareValue(t[k])
  }

  lemma {:induction false} EndOfBare(p: Bytes, i: nat, k: nat)
    requires i <= k < |p| && EndsBareValue(p[k]) && forall j :: i <= j < k ==> !EndsBareValue(p[j])
    ensures BareEnd(p, i) == k
    decreases k - i
  {
    if i < k {
      EndOfBare(p, i + 1, k);
    }
  }

  lemma BareValue(p: Bytes, v: nat, t: Bytes)
    requires Bare(t) && v + |t| < |p| && p[v..v + |t|] == t && EndsBareValue(p[v + |t|])
    ensures ValueAt(p, v) == Success(Some(t))
  {
    forall j | v <= j < v + |t| ensures p[j] == t[j - v] {
    }
    EndOfBare(p, v, v + |t|);
  }
}
