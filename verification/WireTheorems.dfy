/**
 * What the wire format is for: parsing undoes serializing exactly when every
 * text field is valid UTF-8 and fits, the announced size is the written size, and
 * concatenated messages merge.
 */
module WireTheorems {
  import opened Basics
  import opened WireFormat

  // ---------------------------------------------------------------- reading is stable under more input

  lemma {:induction false} VarintStable(b: Bytes, more: Bytes, limit: nat)
    requires ReadVarint(b, limit).Some?
    ensures ReadVarint(b + more, limit) == ReadVarint(b, limit)
  {
    if b[0] >= 128 {
      VarintStable(b[1..], more, limit - 1);
      assert (b + more)[1..] == b[1..] + more;
    }
  }

  lemma SpanStable(b: Bytes, more: Bytes)
    requires ReadSpan(b).Some?
    ensures ReadSpan(b + more) == ReadSpan(b)
  {
    VarintStable(b, more, 5);
    var size := ReadVarint(b, 5).value;
    assert (b + more)[size.consumed..size.consumed + size.value] == b[size.consumed..size.consumed + size.value];
  }

  lemma {:induction false} SkipFieldStable(tag: nat, b: Bytes, more: Bytes, depth: nat)
    requires SkipField(tag, b, depth).Some?
    ensures SkipField(tag, b + more, depth) == SkipField(tag, b, depth)
    decreases |b|, depth, 0
  {
    match tag % 8 {
      case 0 => VarintStable(b, more, 10);
      case 2 => SpanStable(b, more);
      case 3 => SkipGroupStable(tag / 8, b, more, depth - 1);
      case _ =>
    }
  }

  lemma {:induction false} SkipGroupStable(number: nat, b: Bytes, more: Bytes, depth: nat)
    requires SkipGroup(number, b, depth).Some?
    ensures SkipGroup(number, b + more, depth) == SkipGroup(number, b, depth)
    decreases |b|, depth, 1
  {
    hide ReadVarint, SkipField, TagOf, EndsGroup, EndTag;
    VarintStable(b, more, 5);
    var t := ReadVarint(b, 5).value;
    var tag := TagOf(t.value);
    assert (b + more)[t.consumed..] == b[t.consumed..] + more;
    if !EndsGroup(tag) {
      var payload := b[t.consumed..];
      SkipFieldStable(tag, payload, more, depth);
      var k := SkipField(tag, payload, depth).value;
      var after := b[t.consumed + k..];
      assert (b + more)[t.consumed + k..] == after + more;
      SkipGroupStable(number, after, more, depth);
    }
  }

  lemma ValueStable(k: Kind, utf8: Utf8, b: Bytes, more: Bytes)
    requires ReadValue(k, utf8, b).Some?
    ensures ReadValue(k, utf8, b + more) == ReadValue(k, utf8, b)
  {
    if k == Int32Number {
      VarintStable(b, more, 10);
    } else {
      SpanStable(b, more);
    }
  }

  lemma KnownIndex(schema: Schema, tag: nat)
    requires Known(schema, tag)
    ensures 0 <= tag / 8 - 1 < |schema|
  {
  }

  lemma FieldStable(schema: Schema, utf8: Utf8, m: Fields, b: Bytes, more: Bytes)
    requires Typed(schema, m) && ParseField(schema, utf8, m, b).Some?
    ensures ParseField(schema, utf8, m, b + more) == ParseField(schema, utf8, m, b)
  {
    hide ReadVarint, SkipField, ReadValue, Known;
    VarintStable(b, more, 5);
    var t := ReadVarint(b, 5).value;
    var tag := TagOf(t.value);
    assert (b + more)[t.consumed..] == b[t.consumed..] + more;
    if Known(schema, tag) {
      KnownIndex(schema, tag);
      ValueStable(schema[tag / 8 - 1], utf8, b[t.consumed..], more);
    } else {
      SkipFieldStable(tag, b[t.consumed..], more, GROUP_DEPTH);
    }
  }

  /** Parsing a concatenation is parsing the second part into the result of the first. */
  lemma {:induction false} ParseAppend(schema: Schema, utf8: Utf8, m: Fields, b: Bytes, more: Bytes)
    requires Typed(schema, m) && ParseInto(schema, utf8, m, b).Some?
    ensures ParseInto(schema, utf8, m, b + more) == ParseInto(schema, utf8, ParseInto(schema, utf8, m, b).value, more)
    decreases |b|
  {
    if b == [] {
      assert b + more == more;
    } else {
      hide ParseField;
      FieldStable(schema, utf8, m, b, more);
      var step := ParseField(schema, utf8, m, b).value;
      assert (b + more)[step.consumed..] == b[step.consumed..] + more;
      ParseAppend(schema, utf8, step.fields, b[step.consumed..], more);
    }
  }

  // ---------------------------------------------------------------- varints and fields come back

  lemma {:induction false} VarintRoundTrip(n: nat, rest: Bytes, limit: nat)
    requires |Varint(n)| <= limit
    ensures ReadVarint(Varint(n) + rest, limit) == Some(Reading(n, |Varint(n)|))
  {
    if n >= 128 {
      VarintRoundTrip(n / 128, rest, limit - 1);
      assert (Varint(n) + rest)[1..] == Varint(n / 128) + rest;
    }
  }

  /** The size table of `ByteSizeLong` is the length of the encoding. */
  lemma {:induction false} VarintLength(n: nat)
    requires n < 0x1_0000_0000_0000_0000
    ensures |Varint(n)| == VarintSize(n)
  {
    if n >= 128 {
      VarintLength(n / 128);
    }
  }

  lemma SignExtensionRoundTrip(n: int32)
    ensures ToInt32(SignExtended(n)) == n
    ensures SignExtended(n) < 0x1_0000_0000_0000_0000
    ensures n < 0 ==> SignExtended(n) >= 0x8000_0000_0000_0000
  {
  }

  /** Exactly the values that survive the wire: lengths within the limit, and UTF-8 where text is expected. */
  predicate Transmissible(k: Kind, utf8: Utf8, v: Value) {
    v.Octets? ==> |v.bytes| <= MAX_LENGTH && (k == Text && v.bytes != [] ==> utf8(v.bytes))
  }

  lemma SpanRoundTrip(b: Bytes, rest: Bytes)
    requires |b| < 0x8_0000_0000
    ensures ReadSpan(Varint(|b|) + b + rest)
         == if |b| <= MAX_LENGTH then Some(Span(b, |Varint(|b|)| + |b|)) else None
  {
    VarintLength(|b|);
    VarintRoundTrip(|b|, b + rest, 5);
    var all := Varint(|b|) + b + rest;
    assert all == Varint(|b|) + (b + rest);
    var c := |Varint(|b|)|;
    assert all[c..c + |b|] == b;
  }

  lemma ValueRoundTrip(i: nat, k: Kind, utf8: Utf8, v: Value, rest: Bytes)
    requires i < 15 && v != Default(k) && (v.Number? <==> k == Int32Number)
    requires v.Octets? ==> |v.bytes| < 0x8_0000_0000
    ensures var payload := FieldBytes(i, k, v)[1..];
      ReadValue(k, utf8, payload + rest)
        == if Transmissible(k, utf8, v) then Some(Field(v, |payload|)) else None
  {
    var payload := FieldBytes(i, k, v)[1..];
    match v {
      case Octets(b) =>
        assert payload == Varint(|b|) + b;
        SpanRoundTrip(b, rest);
      case Number(n) =>
        assert payload == Varint(SignExtended(n));
        SignExtensionRoundTrip(n);
        VarintLength(SignExtended(n));
        VarintRoundTrip(SignExtended(n), rest, 10);
    }
  }

  /** A small tag is one byte, and names the field and its wire type. */
  lemma TagRead(schema: Schema, i: nat, all: Bytes)
    requires i < |schema| && all != [] && all[0] == Tag(i, schema[i])
    ensures ReadVarint(all, 5) == Some(Reading(Tag(i, schema[i]), 1))
    ensures var tag := Tag(i, schema[i]);
      tag % 0x1_0000_0000 == tag && tag / 8 == i + 1 && Known(schema, tag)
  {
  }

  lemma FieldStep(schema: Schema, utf8: Utf8, m0: Fields, i: nat, v: Value, rest: Bytes)
    requires Typed(schema, m0) && i < |schema| && (v.Number? <==> schema[i] == Int32Number)
    requires (v.Octets? ==> |v.bytes| < 0x8_0000_0000) && v != Default(schema[i])
    ensures var written := FieldBytes(i, schema[i], v);
      ParseField(schema, utf8, m0, written + rest)
        == if Transmissible(schema[i], utf8, v) then Some(Step(m0[i := v], |written|)) else None
  {
    hide ReadValue, ReadVarint, Known, Transmissible, Varint;
    var k := schema[i];
    var written := FieldBytes(i, k, v);
    var all := written + rest;
    assert all[0] == Tag(i, k) && all[1..] == written[1..] + rest;
    TagRead(schema, i, all);
    ValueRoundTrip(i, k, utf8, v, rest);
  }

  /** Parsing a written field stores it, or fails exactly when it is not transmissible. */
  lemma FieldRoundTrip(schema: Schema, utf8: Utf8, m0: Fields, i: nat, v: Value, rest: Bytes)
    requires Typed(schema, m0) && i < |schema| && (v.Number? <==> schema[i] == Int32Number)
    requires v.Octets? ==> |v.bytes| < 0x8_0000_0000
    ensures ParseInto(schema, utf8, m0, FieldBytes(i, schema[i], v) + rest)
         == if !Transmissible(schema[i], utf8, v) then None
            else ParseInto(schema, utf8, if v == Default(schema[i]) then m0 else m0[i := v], rest)
  {
    hide ParseField, Varint;
    var written := FieldBytes(i, schema[i], v);
    if v == Default(schema[i]) {
      assert written + rest == rest;
    } else {
      FieldStep(schema, utf8, m0, i, v, rest);
      assert (written + rest)[|written|..] == rest;
    }
  }

  // ---------------------------------------------------------------- messages

  predicate AllTransmissible(schema: Schema, utf8: Utf8, m: Fields, i: nat)
    requires |m| == |schema|
  {
    forall j | i <= j < |m| :: Transmissible(schema[j], utf8, m[j])
  }

  function MergeFromField(schema: Schema, m0: Fields, m: Fields, i: nat): Fields
    requires |m0| == |m| == |schema|
  {
    seq(|m|, j requires 0 <= j < |m| => if j < i || m[j] == Default(schema[j]) then m0[j] else m[j])
  }

  predicate Small(m: Fields) {
    forall v | v in m :: v.Octets? ==> |v.bytes| < 0x8_0000_0000
  }

  lemma FieldAt(schema: Schema, utf8: Utf8, m: Fields, i: nat)
    requires Typed(schema, m) && Small(m) && i < |m|
    ensures m[i].Octets? ==> |m[i].bytes| < 0x8_0000_0000
    ensures m[i].Number? <==> schema[i] == Int32Number
    ensures AllTransmissible(schema, utf8, m, i) <==>
      Transmissible(schema[i], utf8, m[i]) && AllTransmissible(schema, utf8, m, i + 1)
  {
    hide Transmissible;
  }

  lemma MergeStep(schema: Schema, m0: Fields, m: Fields, i: nat)
    requires Typed(schema, m0) && Typed(schema, m) && i < |m|
    ensures var m1 := if m[i] == Default(schema[i]) then m0 else m0[i := m[i]];
      Typed(schema, m1) && MergeFromField(schema, m1, m, i + 1) == MergeFromField(schema, m0, m, i)
  {
  }

  lemma {:induction false} SerializeThenParse(schema: Schema, utf8: Utf8, m0: Fields, m: Fields, i: nat)
    requires Typed(schema, m0) && Typed(schema, m) && Small(m) && i <= |m|
    ensures ParseInto(schema, utf8, m0, SerializeFrom(schema, m, i))
         == if AllTransmissible(schema, utf8, m, i) then Some(MergeFromField(schema, m0, m, i)) else None
    decreases |m| - i
  {
    if i == |m| {
      assert MergeFromField(schema, m0, m, i) == m0;
    } else {
      hide ParseInto, FieldBytes, Transmissible, AllTransmissible, Small, MergeFromField;
      FieldAt(schema, utf8, m, i);
      MergeStep(schema, m0, m, i);
      var m1 := if m[i] == Default(schema[i]) then m0 else m0[i := m[i]];
      FieldRoundTrip(schema, utf8, m0, i, m[i], SerializeFrom(schema, m, i + 1));
      SerializeThenParse(schema, utf8, m1, m, i + 1);
    }
  }

  /** A message that serializes has no field too long to frame. */
  lemma {:induction false} SerializedIsSmall(schema: Schema, m: Fields, i: nat)
    requires |m| == |schema| && i <= |m|
    ensures forall j | i <= j < |m| :: m[j].Octets? ==> |m[j].bytes| <= |SerializeFrom(schema, m, i)|
    decreases |m| - i
  {
    if i < |m| {
      SerializedIsSmall(schema, m, i + 1);
    }
  }

  /**
   * The round trip: what serializes parses back to itself if and only if every text field is
   * valid UTF-8 and every field is within the length limit; otherwise parsing fails.
   * In no case does a message come back as another one.
   */
  lemma RoundTrip(schema: Schema, utf8: Utf8, m: Fields)
    requires Typed(schema, m) && SerializeToString(schema, m).Some?
    ensures Parse(schema, utf8, Serialize(schema, m))
         == if AllTransmissible(schema, utf8, m, 0) then Some(m) else None
  {
    SerializedIsSmall(schema, m, 0);
    SerializeThenParse(schema, utf8, Defaults(schema), m, 0);
    assert MergeFromField(schema, Defaults(schema), m, 0) == m;
  }

  /** Parsing two concatenated messages is merging the second into the first. */
  lemma ConcatenationMerges(schema: Schema, utf8: Utf8, a: Fields, b: Fields)
    requires Typed(schema, a) && Typed(schema, b)
    requires SerializeToString(schema, a).Some? && SerializeToString(schema, b).Some?
    requires AllTransmissible(schema, utf8, a, 0) && AllTransmissible(schema, utf8, b, 0)
    ensures Parse(schema, utf8, Serialize(schema, a) + Serialize(schema, b)) == Some(Merge(schema, a, b))
  {
    RoundTrip(schema, utf8, a);
    ParseAppend(schema, utf8, Defaults(schema), Serialize(schema, a), Serialize(schema, b));
    SerializedIsSmall(schema, b, 0);
    SerializeThenParse(schema, utf8, a, b, 0);
    assert MergeFromField(schema, a, b, 0) == Merge(schema, a, b);
  }

  function TotalSize(schema: Schema, m: Fields, i: nat): nat
    requires |m| == |schema| && i <= |m|
    decreases |m| - i
  {
    if i == |m| then 0 else FieldSize(schema[i], m[i]) + TotalSize(schema, m, i + 1)
  }

  lemma {:induction false} SizeIsLength(schema: Schema, m: Fields, i: nat)
    requires Typed(schema, m) && i <= |m|
    requires forall j | 0 <= j < |m| :: m[j].Octets? ==> |m[j].bytes| < 0x1_0000_0000_0000_0000
    ensures TotalSize(schema, m, i) == |SerializeFrom(schema, m, i)|
    decreases |m| - i
  {
    if i < |m| {
      SizeIsLength(schema, m, i + 1);
      FieldSizeIsLength(i, schema[i], m[i]);
      hide FieldBytes, FieldSize;
    }
  }

  lemma FieldSizeIsLength(i: nat, k: Kind, v: Value)
    requires i < 15 && (v.Number? <==> k == Int32Number)
    requires v.Octets? ==> |v.bytes| < 0x1_0000_0000_0000_0000
    ensures |FieldBytes(i, k, v)| == FieldSize(k, v)
  {
    match v {
      case Octets(b) => VarintLength(|b|);
      case Number(n) =>
        SignExtensionRoundTrip(n);
        VarintLength(SignExtended(n));
    }
    hide Varint;
  }
}
