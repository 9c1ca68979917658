/**
 * The protobuf wire format as the generated envelope code uses it (Protocol
 * Buffers Encoding guide, "Base 128 Varints", "Length-Delimited Records", "Last
 * One Wins"), for any schema of at most fifteen string, bytes and int32 fields.
 *
 * The readers stand for the protobuf runtime, which is not part of the repository:
 * a tag or a length takes at most 5 bytes, a number at most 10, a length is at
 * most INT_MAX - 16, groups nest at most 100 deep, and a message that ends on an
 * end-group or zero tag does not parse.
 */
module WireFormat {
  import opened Basics

  const MAX_LENGTH: nat := 0x7fff_ffff - 16
  const GROUP_DEPTH: nat := 100

  type Utf8 = Bytes -> bool

  datatype Kind = Text | Blob | Int32Number

  datatype Value = Octets(bytes: Bytes) | Number(n: int32)

  type Schema = s: seq<Kind> | |s| < 16 witness []

  type Fields = seq<Value>

  // ---------------------------------------------------------------- varints

  function Varint(n: nat): (b: Bytes)
    ensures 0 < |b|
  {
    if n < 128 then [n] else [n % 128 + 128] + Varint(n / 128)
  }

  datatype Reading = Reading(value: nat, consumed: nat)

  /** Reads a varint of at most `limit` bytes. */
  function ReadVarint(b: Bytes, limit: nat): (r: Option<Reading>)
    ensures r.Some? ==> 0 < r.value.consumed <= |b|
  {
    if b == [] || limit == 0 then None
    else if b[0] < 128 then Some(Reading(b[0], 1))
    else match ReadVarint(b[1..], limit - 1)
      case None => None
      case Some(r) => Some(Reading((b[0] - 128) + 128 * r.value, r.consumed + 1))
  }

  /** An int32 travels as its 64-bit sign extension. */
  function SignExtended(n: int32): nat {
    if n < 0 then (n as int) + 0x1_0000_0000_0000_0000 else n
  }

  /** A length-delimited payload: its bytes and what was consumed. */
  datatype Span = Span(bytes: Bytes, consumed: nat)

  function ReadSpan(b: Bytes): (r: Option<Span>)
    ensures r.Some? ==> 0 < r.value.consumed <= |b|
  {
    match ReadVarint(b, 5)
    case None => None
    case Some(size) =>
      if size.value > MAX_LENGTH || size.value > |b| - size.consumed then None
      else Some(Span(b[size.consumed..size.consumed + size.value], size.consumed + size.value))
  }

  // ---------------------------------------------------------------- unknown fields

  /** A tag is 32 bits wide. */
  function TagOf(v: nat): nat { v % 0x1_0000_0000 }

  /** The tag of the end of a group, or the zero tag. */
  predicate EndsGroup(tag: nat) { tag == 0 || tag % 8 == 4 }

  function EndTag(number: nat): nat { number * 8 + 4 }

  /** How many bytes the field with tag `tag`, of which `b` is what follows the tag, takes. */
  function SkipField(tag: nat, b: Bytes, depth: nat): (r: Option<nat>)
    ensures r.Some? ==> r.value <= |b|
    decreases |b|, depth, 0
  {
    if tag / 8 == 0 then None
    else match tag % 8
      case 0 => (match ReadVarint(b, 10) case None => None case Some(v) => Some(v.consumed))
      case 1 => if |b| < 8 then None else Some(8)
      case 2 => (match ReadSpan(b) case None => None case Some(s) => Some(s.consumed))
      case 3 => if depth == 0 then None else SkipGroup(tag / 8, b, depth - 1)
      case 5 => if |b| < 4 then None else Some(4)
      case _ => None
  }

  /** The rest of group `number`, up to and including its end tag. */
  function SkipGroup(number: nat, b: Bytes, depth: nat): (r: Option<nat>)
    ensures r.Some? ==> r.value <= |b|
    decreases |b|, depth, 1
  {
    match ReadVarint(b, 5)
    case None => None
    case Some(t) =>
      var tag := TagOf(t.value);
      if EndsGroup(tag) then
        if tag == EndTag(number) then Some(t.consumed) else None
      else match SkipField(tag, b[t.consumed..], depth)
        case None => None
        case Some(k) =>
          match SkipGroup(number, b[t.consumed + k..], depth)
          case None => None
          case Some(rest) => Some(t.consumed + k + rest)
  }

  // ---------------------------------------------------------------- messages

  function WireType(k: Kind): nat { if k == Int32Number then 0 else 2 }

  /** The tag of the field with index `i` (number `i + 1`). */
  function Tag(i: nat, k: Kind): nat { (i + 1) * 8 + WireType(k) }

  function Default(k: Kind): Value { if k == Int32Number then Number(0) else Octets([]) }

  function Defaults(schema: Schema): Fields {
    seq(|schema|, i requires 0 <= i < |schema| => Default(schema[i]))
  }

  predicate Typed(schema: Schema, m: Fields) {
    |m| == |schema| && forall i | 0 <= i < |m| :: m[i].Number? <==> schema[i] == Int32Number
  }

  datatype Field = Field(value: Value, consumed: nat)

  /** The payload of a known field. Text must be valid UTF-8. */
  function ReadValue(k: Kind, utf8: Utf8, b: Bytes): (r: Option<Field>)
    ensures r.Some? ==> r.value.consumed <= |b| && (r.value.value.Number? <==> k == Int32Number)
  {
    if k == Int32Number then
      match ReadVarint(b, 10)
      case None => None
      case Some(v) => Some(Field(Number(ToInt32(v.value)), v.consumed))
    else
      match ReadSpan(b)
      case None => None
      case Some(s) => if k == Text && !utf8(s.bytes) then None else Some(Field(Octets(s.bytes), s.consumed))
  }

  predicate Known(schema: Schema, tag: nat) {
    1 <= tag / 8 <= |schema| && tag % 8 == WireType(schema[tag / 8 - 1])
  }

  /** The message after one field, and the bytes that field took. */
  datatype Step = Step(fields: Fields, consumed: nat)

  /** One turn of the loop in `_InternalParse`: a known field overwrites, an unknown one is skipped. */
  function ParseField(schema: Schema, utf8: Utf8, m: Fields, b: Bytes): (r: Option<Step>)
    requires Typed(schema, m)
    ensures r.Some? ==> Typed(schema, r.value.fields) && 0 < r.value.consumed <= |b|
  {
    match ReadVarint(b, 5)
    case None => None
    case Some(t) =>
      var tag := TagOf(t.value);
      if Known(schema, tag) then
        match ReadValue(schema[tag / 8 - 1], utf8, b[t.consumed..])
        case None => None
        case Some(f) => Some(Step(m[tag / 8 - 1 := f.value], t.consumed + f.consumed))
      else if EndsGroup(tag) then None
      else
        match SkipField(tag, b[t.consumed..], GROUP_DEPTH)
        case None => None
        case Some(k) => Some(Step(m, t.consumed + k))
  }

  /** `_InternalParse` to the end of the input. */
  function ParseInto(schema: Schema, utf8: Utf8, m: Fields, b: Bytes): (r: Option<Fields>)
    requires Typed(schema, m)
    ensures r.Some? ==> Typed(schema, r.value)
    decreases |b|
  {
    if b == [] then Some(m) else
      match ParseField(schema, utf8, m, b)
      case None => None
      case Some(step) => ParseInto(schema, utf8, step.fields, b[step.consumed..])
  }

  function Parse(schema: Schema, utf8: Utf8, b: Bytes): Option<Fields> {
    ParseInto(schema, utf8, Defaults(schema), b)
  }

  function FieldBytes(i: nat, k: Kind, v: Value): Bytes
    requires i < 15
  {
    if v == Default(k) then []
    else [Tag(i, k)] + (match v case Octets(b) => Varint(|b|) + b case Number(n) => Varint(SignExtended(n)))
  }

  /** `_InternalSerialize`: the fields that differ from their default, in number order, from field `i` on. */
  function SerializeFrom(schema: Schema, m: Fields, i: nat): Bytes
    requires |m| == |schema| && i <= |m|
    decreases |m| - i
  {
    if i == |m| then [] else FieldBytes(i, schema[i], m[i]) + SerializeFrom(schema, m, i + 1)
  }

  function Serialize(schema: Schema, m: Fields): Bytes
    requires |m| == |schema|
  {
    SerializeFrom(schema, m, 0)
  }

  /** `SerializeToString` refuses messages over INT_MAX bytes. */
  function SerializeToString(schema: Schema, m: Fields): Option<Bytes>
    requires |m| == |schema|
  {
    if |Serialize(schema, m)| > INT32_MAX then None else Some(Serialize(schema, m))
  }

  /** `MergeFrom`: a field of `from` replaces ours unless it has its default value. */
  function Merge(schema: Schema, m: Fields, from: Fields): Fields
    requires |m| == |from| == |schema|
  {
    seq(|m|, i requires 0 <= i < |m| => if from[i] == Default(schema[i]) then m[i] else from[i])
  }

  function VarintSize(n: nat): nat {
    if n < 0x80 then 1
    else if n < 0x4000 then 2
    else if n < 0x20_0000 then 3
    else if n < 0x1000_0000 then 4
    else if n < 0x8_0000_0000 then 5
    else if n < 0x400_0000_0000 then 6
    else if n < 0x2_0000_0000_0000 then 7
    else if n < 0x100_0000_0000_0000 then 8
    else if n < 0x8000_0000_0000_0000 then 9
    else 10
  }

  /** `StringSize` and `Int32SizePlusOne` with the tag. */
  function FieldSize(k: Kind, v: Value): nat {
    if v == Default(k) then 0
    else match v
      case Octets(b) => 1 + VarintSize(|b|) + |b|
      case Number(n) => 1 + (if n < 0 then 10 else VarintSize(n))
  }
}
