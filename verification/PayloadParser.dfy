/**
 * The allocation-free JSON field extractor that both authorization gates read
 * (contracts/protocol-types/src/lib.rs, mod payload_parser).
 */
module PayloadParser {
  import opened Wrappers
  import opened ProtocolTypes

  const QUOTE: byte := 34
  const BACKSLASH: byte := 92
  const COLON: byte := 58
  const COMMA: byte := 44
  const SPACE: byte := 32
  const CLOSE_BRACE: byte := 125
  const DIGIT_0: byte := 48
  const DIGIT_9: byte := 57

  /** A byte-string literal; every literal in use is ASCII. */
  function Ascii(s: string): Bytes {
    seq(|s|, i requires 0 <= i < |s| => if s[i] < 128 as char then s[i] as int else 63)
  }

  // ---------------------------------------------------------------------------
  // Specification of the scan
  // ---------------------------------------------------------------------------

  /** `"<name>":` stands at position `i`. */
  predicate KeyAt(p: Bytes, name: Bytes, i: nat) {
    && i + |name| + 3 <= |p|
    && p[i] == QUOTE
    && p[i + 1..i + 1 + |name|] == name
    && p[i + 1 + |name|] == QUOTE
    && p[i + 2 + |name|] == COLON
  }

  /** The first non-space position at or after `i`. */
  function SkipSpaces(p: Bytes, i: nat): (k: nat)
    requires i <= |p|
    ensures i <= k <= |p|
    decreases |p| - i
  {
    if i < |p| && p[i] == SPACE then SkipSpaces(p, i + 1) else i
  }

  /** Where the quote closing the string that starts at `i` stands; may overshoot the end by one. */
  function StringEnd(p: Bytes, i: nat): (k: nat)
    requires i <= |p|
    ensures i <= k <= |p| + 1
    decreases |p| - i
  {
    if i < |p| && p[i] != QUOTE then
      if p[i] == BACKSLASH then
        if i + 2 <= |p| then StringEnd(p, i + 2) else i + 2
      else StringEnd(p, i + 1)
    else i
  }

  predicate EndsBareValue(b: byte) {
    b == COMMA || b == CLOSE_BRACE || b == SPACE
  }

  function BareEnd(p: Bytes, i: nat): (k: nat)
    requires i <= |p|
    ensures i <= k <= |p|
    decreases |p| - i
  {
    if i < |p| && !EndsBareValue(p[i]) then BareEnd(p, i + 1) else i
  }

  /** The value that starts at `start`, after the colon; slicing past the end aborts. */
  function ValueAt(p: Bytes, start: nat): Result<Option<Bytes>, Error>
    requires start <= |p|
  {
    var v := SkipSpaces(p, start);
    if v >= |p| then Success(None)
    else if p[v] == QUOTE then
      var e := StringEnd(p, v + 1);
      if e <= |p| then Success(Some(p[v + 1..e])) else Failure(Panic)
    else Success(Some(p[v..BareEnd(p, v)]))
  }

  function FieldFrom(p: Bytes, name: Bytes, i: nat): Result<Option<Bytes>, Error>
    decreases |p| - i
  {
    if i + |name| + 3 >= |p| then Success(None)
    else if KeyAt(p, name, i) then ValueAt(p, i + |name| + 3)
    else FieldFrom(p, name, i + 1)
  }

  /** What find_field returns, or that it aborts. */
  function Field(p: Bytes, name: Bytes): Result<Option<Bytes>, Error> {
    FieldFrom(p, name, 0)
  }

  /** The value of a digit string, most significant digit first. */
  function DigitsValue(s: Bytes): int
    decreases |s|
  {
    if s == [] then 0 else DigitsValue(s[..|s| - 1]) * 10 + (s[|s| - 1] - DIGIT_0)
  }

  predicate AllDigits(s: Bytes) {
    forall i :: 0 <= i < |s| ==> DIGIT_0 <= s[i] <= DIGIT_9
  }

  /** The decimal u64 in `s`, if there is one. */
  function U64Of(s: Bytes): Option<nat> {
    if s != [] && AllDigits(s) && 0 <= DigitsValue(s) < U64_RANGE then Some(DigitsValue(s)) else None
  }

  // ---------------------------------------------------------------------------
  // The loops
  // ---------------------------------------------------------------------------

  /** The value scan inside find_field, from just past the colon. */
  method ReadValue(payload: Bytes, start: nat) returns (r: Result<Option<Bytes>, Error>)
    requires start <= |payload|
    ensures r == ValueAt(payload, start)
  {
    var valStart := start;
    while valStart < |payload| && payload[valStart] == SPACE
      invariant start <= valStart <= |payload|
      invariant SkipSpaces(payload, start) == SkipSpaces(payload, valStart)
    {
      valStart := valStart + 1;
    }
    if valStart >= |payload| {
      return Success(None);
    }
    if payload[valStart] == QUOTE {
      valStart := valStart + 1;
      var valEnd := valStart;
      while valEnd < |payload| && payload[valEnd] != QUOTE
        invariant valStart <= valEnd <= |payload| + 1
        invariant StringEnd(payload, valStart) == if valEnd <= |payload| then StringEnd(payload, valEnd) else valEnd
        decreases |payload| + 1 - valEnd
      {
        if payload[valEnd] == BACKSLASH {
          valEnd := valEnd + 1;
        }
        valEnd := valEnd + 1;
      }
      if valEnd > |payload| {
        return Failure(Panic);
      }
      return Success(Some(payload[valStart..valEnd]));
    }
    var valEnd := valStart;
    while valEnd < |payload| && !EndsBareValue(payload[valEnd])
      invariant valStart <= valEnd <= |payload|
      invariant BareEnd(payload, valStart) == BareEnd(payload, valEnd)
    {
      valEnd := valEnd + 1;
    }
    return Success(Some(payload[valStart..valEnd]));
  }

  method FindField(payload: Bytes, fieldName: Bytes) returns (r: Result<Option<Bytes>, Error>)
    ensures r == Field(payload, fieldName)
  {
    var i := 0;
    while i + |fieldName| + 3 < |payload|
      invariant Field(payload, fieldName) == FieldFrom(payload, fieldName, i)
    {
      if payload[i] == QUOTE {
        var end := i + 1 + |fieldName|;
        if end + 2 <= |payload|
           && payload[i + 1..end] == fieldName
           && payload[end] == QUOTE
           && payload[end + 1] == COLON
        {
          r := ReadValue(payload, end + 2);
          return;
        }
      }
      i := i + 1;
    }
    return Success(None);
  }

  /** Every digit string only grows as digits are appended. */
  lemma {:induction false} DigitsValueMonotone(s: Bytes, k: nat)
    requires AllDigits(s) && k <= |s|
    ensures 0 <= DigitsValue(s[..k]) <= DigitsValue(s)
    decreases |s| - k
  {
    if k < |s| {
      assert s[..k + 1][..k] == s[..k];
      DigitsValueNonNegative(s[..k]);
      DigitsValueMonotone(s, k + 1);
    } else {
      assert s[..k] == s;
      DigitsValueNonNegative(s);
    }
  }

  lemma {:induction false} DigitsValueNonNegative(s: Bytes)
    requires AllDigits(s)
    ensures 0 <= DigitsValue(s)
    decreases |s|
  {
    if s != [] {
      DigitsValueNonNegative(s[..|s| - 1]);
    }
  }

  method ParseU64(bytes: Bytes) returns (r: Option<nat>)
    ensures r == U64Of(bytes)
  {
    if |bytes| == 0 {
      return None;
    }
    var val := 0;
    for i := 0 to |bytes|
      invariant AllDigits(bytes[..i])
      invariant 0 <= val < U64_RANGE && val == DigitsValue(bytes[..i])
    {
      var b := bytes[i];
      assert bytes[..i + 1][..i] == bytes[..i];
      if b < DIGIT_0 || b > DIGIT_9 {
        assert !AllDigits(bytes);
        return None;
      }
      if val * 10 >= U64_RANGE || val * 10 + (b - DIGIT_0) >= U64_RANGE {
        if AllDigits(bytes) {
          DigitsValueMonotone(bytes, i + 1);
        }
        return None;
      }
      val := val * 10 + (b - DIGIT_0);
    }
    assert bytes[..|bytes|] == bytes;
    return Some(val);
  }

  // ---------------------------------------------------------------------------
  // The fields the gates read
  // ---------------------------------------------------------------------------

  const FIELD_OP := Ascii("op")
  const FIELD_SEQUENCE := Ascii("sequence")
  const FIELD_GOVERNANCE_VERSION := Ascii("governance_version")
  const FIELD_NONCE := Ascii("nonce")
  const FIELD_DEADLINE_BLOCK := Ascii("deadline_block")
  const FIELD_SUB_CARD_ADDRESS := Ascii("sub_card_address")
  const FIELD_SUB_CARD_DOC_CID := Ascii("sub_card_doc_cid")

  function Number(p: Bytes, name: Bytes): Result<Option<nat>, Error> {
    var f :- Field(p, name);
    Success(if f.Some? then U64Of(f.value) else None)
  }

  function ExtractSequence(p: Bytes): Result<Option<nat>, Error> {
    Number(p, FIELD_SEQUENCE)
  }

  function ExtractDeadlineBlock(p: Bytes): Result<Option<nat>, Error> {
    Number(p, FIELD_DEADLINE_BLOCK)
  }

  /** The version is cut to 32 bits. */
  function ExtractGovernanceVersion(p: Bytes): Result<Option<nat>, Error> {
    var v :- Number(p, FIELD_GOVERNANCE_VERSION);
    Success(if v.Some? then Some(v.value % U32_RANGE) else None)
  }

  /** The raw text between the quotes, not decoded. */
  function ExtractNonceBytes(p: Bytes): Result<Option<Bytes>, Error> {
    Field(p, FIELD_NONCE)
  }

  function VerifyOp(p: Bytes, expectedOp: Bytes): Result<bool, Error> {
    var op :- Field(p, FIELD_OP);
    Success(op == Some(expectedOp))
  }
}
