/** The frame codec at the two RPC message types. */
module RpcCodec {
  import opened Basics
  import opened WireFormat
  import opened WireTheorems
  import opened Envelope
  import opened Codec

  function RequestPrinter(): Printer<RpcRequest> { (r: RpcRequest) => SerializeRequest(r) }

  function ResponsePrinter(): Printer<RpcResponse> { (r: RpcResponse) => SerializeResponse(r) }

  function RequestParser(utf8: Utf8): Parser<RpcRequest> { (b: Bytes) => ParseRequest(utf8, b) }

  function ResponseParser(utf8: Utf8): Parser<RpcResponse> { (b: Bytes) => ParseResponse(utf8, b) }

  /** No request comes back from the wire as a different one. */
  lemma RequestsFaithful(utf8: Utf8)
    ensures Faithful(RequestPrinter(), RequestParser(utf8))
  {
    hide SerializeRequest, ParseRequest, GoodText;
    forall r: RpcRequest | SerializeRequest(r).Some?
      ensures var back := ParseRequest(utf8, SerializeRequest(r).value); back == Some(r) || back == None
    {
      RequestRoundTrip(utf8, r);
    }
  }

  lemma ResponsesFaithful(utf8: Utf8)
    ensures Faithful(ResponsePrinter(), ResponseParser(utf8))
  {
    hide SerializeResponse, ParseResponse, GoodText;
    forall r: RpcResponse | SerializeResponse(r).Some?
      ensures var back := ParseResponse(utf8, SerializeResponse(r).value); back == Some(r) || back == None
    {
      ResponseRoundTrip(utf8, r);
    }
  }

  // ---------------------------------------------------------------- which messages are encoded, and which arrive

  /** A length-delimited field takes its tag, the varint of its length and its bytes; an empty one is left out. */
  function OctetsSize(s: Bytes): nat { if s == [] then 0 else 1 + VarintSize(|s|) + |s| }

  function RequestLength(r: RpcRequest): nat {
    OctetsSize(r.serviceName) + OctetsSize(r.methodName) + OctetsSize(r.requestId) + OctetsSize(r.body)
  }

  /** A negative code takes ten bytes. */
  function CodeSize(code: int32): nat {
    if code == 0 then 0 else if code < 0 then 11 else 1 + VarintSize(code as int)
  }

  function ResponseLength(r: RpcResponse): nat {
    OctetsSize(r.requestId) + CodeSize(r.code) + OctetsSize(r.msg) + OctetsSize(r.body)
  }

  lemma RequestLengthIsSize(r: RpcRequest)
    requires r.Addressable()
    ensures |Serialize(REQUEST, r.ToFields())| == RequestLength(r)
  {
    hide SerializeFrom, VarintSize;
    RequestSize(r);
  }

  lemma ResponseLengthIsSize(r: RpcResponse)
    requires r.Addressable()
    ensures |Serialize(RESPONSE, r.ToFields())| == ResponseLength(r)
  {
    hide SerializeFrom;
    ResponseSize(r);
  }

  /** Any field at all is shorter than the message. */
  lemma FieldsFit(schema: Schema, m: Fields)
    requires |m| == |schema|
    ensures forall j | 0 <= j < |m| && m[j].Octets? :: |m[j].bytes| <= |Serialize(schema, m)|
  {
    SerializedIsSmall(schema, m, 0);
  }

  lemma UnaddressableRequest(r: RpcRequest)
    requires !r.Addressable()
    ensures |Serialize(REQUEST, r.ToFields())| > INT32_MAX && RequestLength(r) > INT32_MAX
  {
    hide SerializeFrom, VarintSize;
    var m := r.ToFields();
    FieldsFit(REQUEST, m);
    assert m[0].bytes == r.serviceName && m[1].bytes == r.methodName && m[2].bytes == r.requestId && m[3].bytes == r.body;
  }

  lemma UnaddressableResponse(r: RpcResponse)
    requires !r.Addressable()
    ensures |Serialize(RESPONSE, r.ToFields())| > INT32_MAX && ResponseLength(r) > INT32_MAX
  {
    hide SerializeFrom, VarintSize;
    var m := r.ToFields();
    FieldsFit(RESPONSE, m);
    assert m[0].bytes == r.requestId && m[2].bytes == r.msg && m[3].bytes == r.body;
  }

  /** A request is encoded if and only if its fields take at most INT_MAX bytes, into a frame of that length and four. */
  lemma RequestEncodes(r: RpcRequest)
    ensures Encode(RequestPrinter(), r).Some? <==> RequestLength(r) <= INT32_MAX
    ensures Encode(RequestPrinter(), r).Some? ==> |Encode(RequestPrinter(), r).value| == 4 + RequestLength(r)
  {
    hide SerializeFrom, OctetsSize;
    if r.Addressable() { RequestLengthIsSize(r); } else { UnaddressableRequest(r); }
  }

  lemma ResponseEncodes(r: RpcResponse)
    ensures Encode(ResponsePrinter(), r).Some? <==> ResponseLength(r) <= INT32_MAX
    ensures Encode(ResponsePrinter(), r).Some? ==> |Encode(ResponsePrinter(), r).value| == 4 + ResponseLength(r)
  {
    hide SerializeFrom, OctetsSize, CodeSize;
    if r.Addressable() { ResponseLengthIsSize(r); } else { UnaddressableResponse(r); }
  }

  /** A request reaches the other end exactly when it fits a frame and its texts are valid; it is encoded then. */
  lemma RequestDeliverable(utf8: Utf8, r: RpcRequest)
    ensures Deliverable(RequestPrinter(), RequestParser(utf8), r) <==>
      && RequestLength(r) <= MAX_FRAME_SIZE
      && GoodText(utf8, r.serviceName) && GoodText(utf8, r.methodName) && GoodText(utf8, r.requestId)
    ensures Deliverable(RequestPrinter(), RequestParser(utf8), r) ==> Encode(RequestPrinter(), r).Some?
  {
    RequestEncodes(r);
    assert RequestLength(r) <= MAX_FRAME_SIZE ==> |r.body| <= MAX_LENGTH;
    hide SerializeRequest, ParseRequest, RequestLength, GoodText;
    if SerializeRequest(r).Some? { RequestRoundTrip(utf8, r); }
  }

  lemma ResponseDeliverable(utf8: Utf8, r: RpcResponse)
    ensures Deliverable(ResponsePrinter(), ResponseParser(utf8), r) <==>
      && ResponseLength(r) <= MAX_FRAME_SIZE
      && GoodText(utf8, r.requestId) && GoodText(utf8, r.msg)
    ensures Deliverable(ResponsePrinter(), ResponseParser(utf8), r) ==> Encode(ResponsePrinter(), r).Some?
  {
    ResponseEncodes(r);
    assert ResponseLength(r) <= MAX_FRAME_SIZE ==> |r.body| <= MAX_LENGTH;
    hide SerializeResponse, ParseResponse, ResponseLength, GoodText;
    if SerializeResponse(r).Some? { ResponseRoundTrip(utf8, r); }
  }

  /** A body one byte over the limit: `encode` accepts the request, and the other end finds a corrupt frame. */
  lemma OversizedFrame(utf8: Utf8, rest: Bytes)
    ensures var request := RpcRequest([], [], [65], seq(MAX_FRAME_SIZE + 1, _ => 0));
      && Encode(RequestPrinter(), request).Some?
      && Decode(RequestParser(utf8), Encode(RequestPrinter(), request).value + rest) == Corrupted
  {
    var request := RpcRequest([], [], [65], seq(MAX_FRAME_SIZE + 1, _ => 0));
    RequestEncodes(request);
    RequestDeliverable(utf8, request);
    assert MAX_FRAME_SIZE < RequestLength(request) < INT32_MAX;
    hide RequestLength, SerializeRequest, ParseRequest, Decode, GoodText;
    RequestsFaithful(utf8);
    FrameRoundTrip(RequestPrinter(), RequestParser(utf8), request, rest);
  }
}
