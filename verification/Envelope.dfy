/**
 * The RPC envelope (code/protocol/rpc.pb.cc): RpcRequest and RpcResponse as
 * message objects whose generated code parses, serializes, sizes and merges, each
 * shown to do what the wire format says.
 */
module Envelope {
  import opened Basics
  import opened WireFormat
  import opened WireTheorems

  datatype RpcRequest = RpcRequest(serviceName: Bytes, methodName: Bytes, requestId: Bytes, body: Bytes)
  {
    function ToFields(): (m: Fields)
      ensures Typed(REQUEST, m)
    {
      [Octets(serviceName), Octets(methodName), Octets(requestId), Octets(body)]
    }

    /** Field lengths fit `size_t`. */
    predicate Addressable() {
      |serviceName| < SIZE_MAX && |methodName| < SIZE_MAX && |requestId| < SIZE_MAX && |body| < SIZE_MAX
    }
  }

  datatype RpcResponse = RpcResponse(requestId: Bytes, code: int32, msg: Bytes, body: Bytes)
  {
    function ToFields(): (m: Fields)
      ensures Typed(RESPONSE, m)
    {
      [Octets(requestId), Number(code), Octets(msg), Octets(body)]
    }

    predicate Addressable() {
      |requestId| < SIZE_MAX && |msg| < SIZE_MAX && |body| < SIZE_MAX
    }
  }

  const SIZE_MAX: nat := 0x1_0000_0000_0000_0000

  const REQUEST: Schema := [Text, Text, Text, Blob]
  const RESPONSE: Schema := [Text, Int32Number, Text, Blob]

  function RequestOf(m: Fields): (r: RpcRequest)
    requires Typed(REQUEST, m)
    ensures r.ToFields() == m
  {
    RpcRequest(m[0].bytes, m[1].bytes, m[2].bytes, m[3].bytes)
  }

  function ResponseOf(m: Fields): (r: RpcResponse)
    requires Typed(RESPONSE, m)
    ensures r.ToFields() == m
  {
    RpcResponse(m[0].bytes, m[1].n, m[2].bytes, m[3].bytes)
  }

  // ---------------------------------------------------------------- as functions, for the codec

  function SerializeRequest(r: RpcRequest): Option<Bytes> { SerializeToString(REQUEST, r.ToFields()) }

  function SerializeResponse(r: RpcResponse): Option<Bytes> { SerializeToString(RESPONSE, r.ToFields()) }

  function ParseRequest(utf8: Utf8, b: Bytes): Option<RpcRequest> {
    match Parse(REQUEST, utf8, b) case None => None case Some(m) => Some(RequestOf(m))
  }

  function ParseResponse(utf8: Utf8, b: Bytes): Option<RpcResponse> {
    match Parse(RESPONSE, utf8, b) case None => None case Some(m) => Some(ResponseOf(m))
  }

  /** A text field the peer will accept: empty fields are not sent at all. */
  predicate GoodText(utf8: Utf8, b: Bytes) { |b| <= MAX_LENGTH && (b != [] ==> utf8(b)) }

  lemma RequestRoundTrip(utf8: Utf8, r: RpcRequest)
    requires SerializeRequest(r).Some?
    ensures ParseRequest(utf8, SerializeRequest(r).value) ==
      if GoodText(utf8, r.serviceName) && GoodText(utf8, r.methodName) && GoodText(utf8, r.requestId)
         && |r.body| <= MAX_LENGTH
      then Some(r) else None
  {
    var m := r.ToFields();
    RoundTrip(REQUEST, utf8, m);
    assert AllTransmissible(REQUEST, utf8, m, 0) <==>
      Transmissible(Text, utf8, m[0]) && Transmissible(Text, utf8, m[1])
      && Transmissible(Text, utf8, m[2]) && Transmissible(Blob, utf8, m[3]);
  }

  lemma ResponseRoundTrip(utf8: Utf8, r: RpcResponse)
    requires SerializeResponse(r).Some?
    ensures ParseResponse(utf8, SerializeResponse(r).value) ==
      if GoodText(utf8, r.requestId) && GoodText(utf8, r.msg) && |r.body| <= MAX_LENGTH then Some(r) else None
  {
    var m := r.ToFields();
    RoundTrip(RESPONSE, utf8, m);
    assert AllTransmissible(RESPONSE, utf8, m, 0) <==>
      Transmissible(Text, utf8, m[0]) && Transmissible(Int32Number, utf8, m[1])
      && Transmissible(Text, utf8, m[2]) && Transmissible(Blob, utf8, m[3]);
  }

  // ---------------------------------------------------------------- the generated classes

  class RequestMessage {
    var serviceName: Bytes
    var methodName: Bytes
    var requestId: Bytes
    var body: Bytes

    function Value(): RpcRequest
      reads this
    {
      RpcRequest(serviceName, methodName, requestId, body)
    }

    constructor ()
      ensures Value() == RpcRequest([], [], [], [])
    {
      serviceName, methodName, requestId, body := [], [], [], [];
    }

    method Clear()
      modifies this
      ensures Value().ToFields() == Defaults(REQUEST)
    {
      serviceName, methodName, requestId, body := [], [], [], [];
    }

    /** One turn of the parse loop: the tag, then the field it announces. Returns the bytes taken. */
    method ParseField(utf8: Utf8, rest: Bytes) returns (taken: Option<nat>)
      requires rest != []
      modifies this
      ensures match WireFormat.ParseField(REQUEST, utf8, old(Value()).ToFields(), rest)
        case None => taken.None?
        case Some(step) => taken == Some(step.consumed) && Value().ToFields() == step.fields
    {
      RequestField(utf8, Value(), rest);
      hide *;
      var t := ReadVarint(rest, 5);
      if t.None? {
        return None;
      }
      var tag := t.value.value % 0x1_0000_0000;
      var payload := rest[t.value.consumed..];
      if tag == 10 || tag == 18 || tag == 26 || tag == 34 {
        var field := ReadValue(if tag == 34 then Blob else Text, utf8, payload);
        if field.None? {
          return None;
        }
        if tag == 10 {
          serviceName := field.value.value.bytes;
        } else if tag == 18 {
          methodName := field.value.value.bytes;
        } else if tag == 26 {
          requestId := field.value.value.bytes;
        } else {
          body := field.value.value.bytes;
        }
        return Some(t.value.consumed + field.value.consumed);
      } else if tag == 0 || tag % 8 == 4 {
        return None;
      } else {
        var skipped := SkipField(tag, payload, GROUP_DEPTH);
        if skipped.None? {
          return None;
        }
        return Some(t.value.consumed + skipped.value);
      }
    }

    /** Parses `b` over the present contents; on failure the contents are unspecified. */
    method InternalParse(utf8: Utf8, b: Bytes) returns (ok: bool)
      modifies this
      ensures var parsed := ParseInto(REQUEST, utf8, old(Value()).ToFields(), b);
        ok == parsed.Some? && (ok ==> Value() == RequestOf(parsed.value))
    {
      hide WireFormat.ParseField;
      var ptr := 0;
      assert b[0..] == b;
      while ptr < |b|
        invariant 0 <= ptr <= |b|
        invariant ParseInto(REQUEST, utf8, old(Value()).ToFields(), b)
               == ParseInto(REQUEST, utf8, Value().ToFields(), b[ptr..])
      {
        var taken := ParseField(utf8, b[ptr..]);
        if taken.None? {
          return false;
        }
        assert b[ptr..][taken.value..] == b[ptr + taken.value..];
        ptr := ptr + taken.value;
      }
      return true;
    }

    method ParseFromString(utf8: Utf8, b: Bytes) returns (ok: bool)
      modifies this
      ensures ok == ParseRequest(utf8, b).Some? && (ok ==> Value() == ParseRequest(utf8, b).value)
    {
      Clear();
      ok := InternalParse(utf8, b);
    }

    method InternalSerialize() returns (target: Bytes)
      ensures target == Serialize(REQUEST, Value().ToFields())
    {
      RequestBytes(Value());
      hide WriteOctets, Serialize;
      target := [];
      if serviceName != [] {
        target := WriteOctets(1, serviceName, target);
      }
      if methodName != [] {
        target := WriteOctets(2, methodName, target);
      }
      if requestId != [] {
        target := WriteOctets(3, requestId, target);
      }
      if body != [] {
        target := WriteOctets(4, body, target);
      }
    }

    /** The size announced before serializing is the size written. */
    method ByteSizeLong() returns (total: nat)
      requires Value().Addressable()
      ensures total == |Serialize(REQUEST, Value().ToFields())|
    {
      RequestSize(Value());
      hide *;
      total := 0;
      if serviceName != [] {
        total := total + 1 + StringSize(serviceName);
      }
      if methodName != [] {
        total := total + 1 + StringSize(methodName);
      }
      if requestId != [] {
        total := total + 1 + StringSize(requestId);
      }
      if body != [] {
        total := total + 1 + StringSize(body);
      }
    }

    method MergeFrom(from: RequestMessage)
      requires from != this
      modifies this
      ensures Value() == RequestOf(Merge(REQUEST, old(Value()).ToFields(), from.Value().ToFields()))
    {
      if from.serviceName != [] {
        serviceName := from.serviceName;
      }
      if from.methodName != [] {
        methodName := from.methodName;
      }
      if from.requestId != [] {
        requestId := from.requestId;
      }
      if from.body != [] {
        body := from.body;
      }
    }
  }

  class ResponseMessage {
    var requestId: Bytes
    var code: int32
    var msg: Bytes
    var body: Bytes

    function Value(): RpcResponse
      reads this
    {
      RpcResponse(requestId, code, msg, body)
    }

    constructor ()
      ensures Value() == RpcResponse([], 0, [], [])
    {
      requestId, code, msg, body := [], 0, [], [];
    }

    method Clear()
      modifies this
      ensures Value().ToFields() == Defaults(RESPONSE)
    {
      requestId, msg, body := [], [], [];
      code := 0;
    }

    /** One turn of the parse loop: the tag, then the field it announces. Returns the bytes taken. */
    method ParseField(utf8: Utf8, rest: Bytes) returns (taken: Option<nat>)
      requires rest != []
      modifies this
      ensures match WireFormat.ParseField(RESPONSE, utf8, old(Value()).ToFields(), rest)
        case None => taken.None?
        case Some(step) => taken == Some(step.consumed) && Value().ToFields() == step.fields
    {
      ResponseField(utf8, Value(), rest);
      hide *;
      var t := ReadVarint(rest, 5);
      if t.None? {
        return None;
      }
      var tag := t.value.value % 0x1_0000_0000;
      var payload := rest[t.value.consumed..];
      if tag == 10 || tag == 16 || tag == 26 || tag == 34 {
        var field := ReadValue(if tag == 34 then Blob else if tag == 16 then Int32Number else Text, utf8, payload);
        if field.None? {
          return None;
        }
        if tag == 10 {
          requestId := field.value.value.bytes;
        } else if tag == 16 {
          code := field.value.value.n;
        } else if tag == 26 {
          msg := field.value.value.bytes;
        } else {
          body := field.value.value.bytes;
        }
        return Some(t.value.consumed + field.value.consumed);
      } else if tag == 0 || tag % 8 == 4 {
        return None;
      } else {
        var skipped := SkipField(tag, payload, GROUP_DEPTH);
        if skipped.None? {
          return None;
        }
        return Some(t.value.consumed + skipped.value);
      }
    }

    /** Parses `b` over the present contents; on failure the contents are unspecified. */
    method InternalParse(utf8: Utf8, b: Bytes) returns (ok: bool)
      modifies this
      ensures var parsed := ParseInto(RESPONSE, utf8, old(Value()).ToFields(), b);
        ok == parsed.Some? && (ok ==> Value() == ResponseOf(parsed.value))
    {
      hide WireFormat.ParseField;
      var ptr := 0;
      assert b[0..] == b;
      while ptr < |b|
        invariant 0 <= ptr <= |b|
        invariant ParseInto(RESPONSE, utf8, old(Value()).ToFields(), b)
               == ParseInto(RESPONSE, utf8, Value().ToFields(), b[ptr..])
      {
        var taken := ParseField(utf8, b[ptr..]);
        if taken.None? {
          return false;
        }
        assert b[ptr..][taken.value..] == b[ptr + taken.value..];
        ptr := ptr + taken.value;
      }
      return true;
    }

    method ParseFromString(utf8: Utf8, b: Bytes) returns (ok: bool)
      modifies this
      ensures ok == ParseResponse(utf8, b).Some? && (ok ==> Value() == ParseResponse(utf8, b).value)
    {
      Clear();
      ok := InternalParse(utf8, b);
    }

    method InternalSerialize() returns (target: Bytes)
      ensures target == Serialize(RESPONSE, Value().ToFields())
    {
      ResponseBytes(Value());
      hide WriteOctets, WriteInt32, Serialize;
      target := [];
      if requestId != [] {
        target := WriteOctets(1, requestId, target);
      }
      if code != 0 {
        target := WriteInt32(2, code, target);
      }
      if msg != [] {
        target := WriteOctets(3, msg, target);
      }
      if body != [] {
        target := WriteOctets(4, body, target);
      }
    }

    method ByteSizeLong() returns (total: nat)
      requires Value().Addressable()
      ensures total == |Serialize(RESPONSE, Value().ToFields())|
    {
      ResponseSize(Value());
      hide *;
      total := 0;
      if requestId != [] {
        total := total + 1 + StringSize(requestId);
      }
      if msg != [] {
        total := total + 1 + StringSize(msg);
      }
      if body != [] {
        total := total + 1 + StringSize(body);
      }
      if code != 0 {
        total := total + Int32SizePlusOne(code);
      }
    }

    method MergeFrom(from: ResponseMessage)
      requires from != this
      modifies this
      ensures Value() == ResponseOf(Merge(RESPONSE, old(Value()).ToFields(), from.Value().ToFields()))
    {
      if from.requestId != [] {
        requestId := from.requestId;
      }
      if from.msg != [] {
        msg := from.msg;
      }
      if from.body != [] {
        body := from.body;
      }
      if from.code != 0 {
        code := from.code;
      }
    }
  }

  // ---------------------------------------------------------------- unrolling the four fields

  /** `WriteString` and `WriteBytes`: tag, length, bytes. */
  function WriteOctets(number: nat, b: Bytes, target: Bytes): Bytes
    requires 1 <= number <= 15
  {
    target + ([number * 8 + 2] + (Varint(|b|) + b))
  }

  function WriteInt32(number: nat, n: int32, target: Bytes): Bytes
    requires 1 <= number <= 15
  {
    target + ([number * 8] + Varint(SignExtended(n)))
  }

  function StringSize(b: Bytes): nat { VarintSize(|b|) + |b| }

  function Int32SizePlusOne(n: int32): nat { if n < 0 then 11 else 1 + VarintSize(n) }

  function OctetsField(number: nat, b: Bytes, target: Bytes): Bytes
    requires 1 <= number <= 15
  {
    if b != [] then WriteOctets(number, b, target) else target
  }

  function Int32Field(number: nat, n: int32, target: Bytes): Bytes
    requires 1 <= number <= 15
  {
    if n != 0 then WriteInt32(number, n, target) else target
  }

  lemma OctetsFieldBytes(number: nat, k: Kind, b: Bytes, target: Bytes)
    requires 1 <= number <= 15 && k != Int32Number
    ensures OctetsField(number, b, target) == target + FieldBytes(number - 1, k, Octets(b))
  {
    hide Varint;
    var payload := Varint(|b|) + b;
    assert b != [] ==> FieldBytes(number - 1, k, Octets(b)) == [number * 8 + 2] + payload;
  }

  lemma FourFields(schema: Schema, m: Fields)
    requires |schema| == |m| == 4
    ensures Serialize(schema, m) == FieldBytes(0, schema[0], m[0]) + FieldBytes(1, schema[1], m[1])
      + FieldBytes(2, schema[2], m[2]) + FieldBytes(3, schema[3], m[3])
  {
    hide FieldBytes;
    assert SerializeFrom(schema, m, 4) == [];
    assert SerializeFrom(schema, m, 3) == FieldBytes(3, schema[3], m[3]) + SerializeFrom(schema, m, 4);
    assert SerializeFrom(schema, m, 2) == FieldBytes(2, schema[2], m[2]) + SerializeFrom(schema, m, 3);
    assert SerializeFrom(schema, m, 1) == FieldBytes(1, schema[1], m[1]) + SerializeFrom(schema, m, 2);
  }

  lemma Int32FieldBytes(number: nat, n: int32, target: Bytes)
    requires 1 <= number <= 15
    ensures Int32Field(number, n, target) == target + FieldBytes(number - 1, Int32Number, Number(n))
  {
    hide Varint;
  }

  lemma RequestBytes(r: RpcRequest)
    ensures Serialize(REQUEST, r.ToFields()) ==
      OctetsField(4, r.body, OctetsField(3, r.requestId, OctetsField(2, r.methodName, OctetsField(1, r.serviceName, []))))
  {
    hide FieldBytes, WriteOctets, Serialize, OctetsField;
    FourFields(REQUEST, r.ToFields());
    OctetsFieldBytes(1, Text, r.serviceName, []);
    var t1 := OctetsField(1, r.serviceName, []);
    OctetsFieldBytes(2, Text, r.methodName, t1);
    var t2 := OctetsField(2, r.methodName, t1);
    OctetsFieldBytes(3, Text, r.requestId, t2);
    OctetsFieldBytes(4, Blob, r.body, OctetsField(3, r.requestId, t2));
    assert t1 == FieldBytes(0, Text, Octets(r.serviceName));
  }

  lemma ResponseBytes(r: RpcResponse)
    ensures Serialize(RESPONSE, r.ToFields()) ==
      OctetsField(4, r.body, OctetsField(3, r.msg, Int32Field(2, r.code, OctetsField(1, r.requestId, []))))
  {
    hide FieldBytes, WriteOctets, WriteInt32, Serialize, OctetsField, Int32Field;
    FourFields(RESPONSE, r.ToFields());
    OctetsFieldBytes(1, Text, r.requestId, []);
    var t1 := OctetsField(1, r.requestId, []);
    Int32FieldBytes(2, r.code, t1);
    var t2 := Int32Field(2, r.code, t1);
    OctetsFieldBytes(3, Text, r.msg, t2);
    OctetsFieldBytes(4, Blob, r.body, OctetsField(3, r.msg, t2));
    assert t1 == FieldBytes(0, Text, Octets(r.requestId));
  }

  lemma FourSizes(schema: Schema, m: Fields)
    requires |schema| == |m| == 4
    ensures TotalSize(schema, m, 0) == FieldSize(schema[0], m[0]) + FieldSize(schema[1], m[1])
      + FieldSize(schema[2], m[2]) + FieldSize(schema[3], m[3])
  {
    hide FieldSize;
    assert TotalSize(schema, m, 4) == 0;
    assert TotalSize(schema, m, 3) == FieldSize(schema[3], m[3]) + TotalSize(schema, m, 4);
    assert TotalSize(schema, m, 2) == FieldSize(schema[2], m[2]) + TotalSize(schema, m, 3);
  }

  lemma RequestSize(r: RpcRequest)
    requires r.Addressable()
    ensures |Serialize(REQUEST, r.ToFields())|
         == (if r.serviceName != [] then 1 + StringSize(r.serviceName) else 0)
          + (if r.methodName != [] then 1 + StringSize(r.methodName) else 0)
          + (if r.requestId != [] then 1 + StringSize(r.requestId) else 0)
          + (if r.body != [] then 1 + StringSize(r.body) else 0)
  {
    hide VarintSize, SerializeFrom, TotalSize;
    SizeIsLength(REQUEST, r.ToFields(), 0);
    FourSizes(REQUEST, r.ToFields());
  }

  lemma ResponseSize(r: RpcResponse)
    requires r.Addressable()
    ensures |Serialize(RESPONSE, r.ToFields())|
         == (if r.requestId != [] then 1 + StringSize(r.requestId) else 0)
          + (if r.msg != [] then 1 + StringSize(r.msg) else 0)
          + (if r.body != [] then 1 + StringSize(r.body) else 0)
          + (if r.code != 0 then Int32SizePlusOne(r.code) else 0)
  {
    hide VarintSize, SerializeFrom, TotalSize;
    SizeIsLength(RESPONSE, r.ToFields(), 0);
    FourSizes(RESPONSE, r.ToFields());
  }

  lemma RequestTags(tag: nat)
    ensures Known(REQUEST, tag) <==> tag == 10 || tag == 18 || tag == 26 || tag == 34
  {
  }

  lemma RequestUpdates(r: RpcRequest, s: Bytes)
    ensures r.ToFields()[0 := Octets(s)] == r.(serviceName := s).ToFields()
    ensures r.ToFields()[1 := Octets(s)] == r.(methodName := s).ToFields()
    ensures r.ToFields()[2 := Octets(s)] == r.(requestId := s).ToFields()
    ensures r.ToFields()[3 := Octets(s)] == r.(body := s).ToFields()
  {
  }

  /** The generated `switch` on the tag is one turn of the wire format's loop. */
  lemma RequestField(utf8: Utf8, r: RpcRequest, rest: Bytes)
    requires rest != []
    ensures var step := WireFormat.ParseField(REQUEST, utf8, r.ToFields(), rest);
      match ReadVarint(rest, 5)
      case None => step.None?
      case Some(t) =>
        var tag, payload := t.value % 0x1_0000_0000, rest[t.consumed..];
        if tag == 10 || tag == 18 || tag == 26 || tag == 34 then
          match ReadValue(if tag == 34 then Blob else Text, utf8, payload)
          case None => step.None?
          case Some(f) =>
            var s := f.value.bytes;
            var r' := if tag == 10 then r.(serviceName := s) else if tag == 18 then r.(methodName := s)
              else if tag == 26 then r.(requestId := s) else r.(body := s);
            step == Some(Step(r'.ToFields(), t.consumed + f.consumed))
        else if tag == 0 || tag % 8 == 4 then step.None?
        else match SkipField(tag, payload, GROUP_DEPTH)
          case None => step.None?
          case Some(k) => step == Some(Step(r.ToFields(), t.consumed + k))
  {
    hide ReadVarint, ReadValue, SkipField, Known;
    if ReadVarint(rest, 5).Some? {
      var t := ReadVarint(rest, 5).value;
      var tag, payload := t.value % 0x1_0000_0000, rest[t.consumed..];
      RequestTags(tag);
      var field := ReadValue(if tag == 34 then Blob else Text, utf8, payload);
      if field.Some? && field.value.value.Octets? {
        RequestUpdates(r, field.value.value.bytes);
      }
    }
  }

  lemma ResponseField(utf8: Utf8, r: RpcResponse, rest: Bytes)
    requires rest != []
    ensures var step := WireFormat.ParseField(RESPONSE, utf8, r.ToFields(), rest);
      match ReadVarint(rest, 5)
      case None => step.None?
      case Some(t) =>
        var tag, payload := t.value % 0x1_0000_0000, rest[t.consumed..];
        if tag == 10 || tag == 16 || tag == 26 || tag == 34 then
          match ReadValue(if tag == 34 then Blob else if tag == 16 then Int32Number else Text, utf8, payload)
          case None => step.None?
          case Some(f) =>
            var r' := if tag == 16 then r.(code := f.value.n)
              else var s := f.value.bytes;
                if tag == 10 then r.(requestId := s) else if tag == 26 then r.(msg := s) else r.(body := s);
            step == Some(Step(r'.ToFields(), t.consumed + f.consumed))
        else if tag == 0 || tag % 8 == 4 then step.None?
        else match SkipField(tag, payload, GROUP_DEPTH)
          case None => step.None?
          case Some(k) => step == Some(Step(r.ToFields(), t.consumed + k))
  {
    hide ReadVarint, ReadValue, SkipField;
    var m := r.ToFields();
    if ReadVarint(rest, 5).Some? {
      var t := ReadVarint(rest, 5).value;
      var tag, payload := t.value % 0x1_0000_0000, rest[t.consumed..];
      assert Known(RESPONSE, tag) <==> tag == 10 || tag == 16 || tag == 26 || tag == 34;
      forall s: Bytes, n: int32
        ensures m[0 := Octets(s)] == r.(requestId := s).ToFields() && m[1 := Number(n)] == r.(code := n).ToFields()
        ensures m[2 := Octets(s)] == r.(msg := s).ToFields() && m[3 := Octets(s)] == r.(body := s).ToFields()
      {
      }
    }
  }
}
