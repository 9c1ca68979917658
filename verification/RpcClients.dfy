/**
 * RpcClient as the object it is (code/rpc/rpc_client.cc), one thread at a time: what a
 * whole CallRaw, a whole batch of responses or a whole drop does to the pending calls.
 * ClientProtocol interleaves the same steps; here they run to their end.
 */
module RpcClients {
  import opened Basics
  import opened WireFormat
  import opened Envelope
  import opened ErrorCodes
  import opened ByteBuffer
  import opened Codec
  import opened TcpConnections
  import opened RpcCodec
  import opened CallLedger

  /** What the client asks of its event loop and connection, in order. */
  datatype Posted = AddTimer(timer: int, id: Id, delayMs: int) | RemoveTimer(timer: int) | Send(frame: Bytes)
    | Disconnect | QuitLoop | JoinLoop | StopTcp

  datatype Invocation<C> = Invocation(id: Id, callback: C, response: RpcResponse)

  datatype Core<C> = Core(
    pending: map<Id, C>,
    stopped: bool,
    connected: bool,
    posted: seq<Posted>,
    invocations: seq<Invocation<C>>)

  /** Find, move out and erase the callback of `id`, and invoke it if there was one. */
  function Answered<C>(c: Core<C>, id: Id, resp: RpcResponse): Core<C> {
    if id in c.pending then
      c.(pending := c.pending - {id}, invocations := c.invocations + [Invocation(id, c.pending[id], resp)])
    else c
  }

  /** One turn of the response loop. */
  function Responded<C>(tid: TimerIds, c: Core<C>, resp: RpcResponse): Core<C> {
    Answered(c.(posted := c.posted + [RemoveTimer(tid(resp.requestId))]), resp.requestId, resp)
  }

  function RespondedAll<C>(tid: TimerIds, c: Core<C>, msgs: seq<RpcResponse>): Core<C> {
    if msgs == [] then c
    else Responded(tid, RespondedAll(tid, c, msgs[..|msgs| - 1]), msgs[|msgs| - 1])
  }

  lemma RespondedNone<C>(tid: TimerIds, c: Core<C>)
    ensures RespondedAll(tid, c, []) == c
  {
  }

  lemma RespondedNext<C>(tid: TimerIds, c: Core<C>, msgs: seq<RpcResponse>, resp: RpcResponse)
    ensures RespondedAll(tid, c, msgs + [resp]) == Responded(tid, RespondedAll(tid, c, msgs), resp)
  {
    assert (msgs + [resp])[..|msgs|] == msgs;
  }

  /** The calls of `m`, each once, in some order. */
  ghost predicate Lists<C>(order: seq<Id>, m: map<Id, C>) {
    && (forall i, j | 0 <= i < j < |order| :: order[i] != order[j])
    && (forall id: Id :: id in order <==> id in m)
  }

  /** The loop of DropAllPending over the map it swapped out. */
  function DroppedFrom<C>(tid: TimerIds, c: Core<C>, tmp: map<Id, C>, order: seq<Id>, code: int32, msg: Bytes): Core<C>
    requires forall id | id in order :: id in tmp
  {
    if order == [] then c else
      var before := DroppedFrom(tid, c, tmp, order[..|order| - 1], code, msg);
      var id := order[|order| - 1];
      before.(posted := before.posted + [RemoveTimer(tid(id))],
              invocations := before.invocations + [Invocation(id, tmp[id], RpcResponse(id, code, msg, []))])
  }

  function Dropped<C>(tid: TimerIds, c: Core<C>, order: seq<Id>, code: int32, msg: Bytes): Core<C>
    requires forall id | id in order :: id in c.pending
  {
    DroppedFrom(tid, c.(pending := map[]), c.pending, order, code, msg)
  }

  /** All of CallRaw with the request id it generated. */
  function Called<C>(tid: TimerIds, c: Core<C>, request: RpcRequest, callback: C, timeoutMs: int): Core<C> {
    var id := request.requestId;
    if c.stopped || !c.connected then
      c.(invocations := c.invocations
           + [Invocation(id, callback, RpcResponse(id, CLIENT_NOT_RUNNING, Ascii("client stopped/disconnected"), []))])
    else
      var armed := c.(pending := c.pending[id := callback], posted := c.posted + [AddTimer(tid(id), id, timeoutMs)]);
      match Encode(RequestPrinter(), request)
      case Some(frame) => armed.(posted := armed.posted + [Send(frame)])
      case None =>
        Answered(armed.(posted := armed.posted + [RemoveTimer(tid(id))]), id,
                 RpcResponse(id, CLIENT_ENCODE_FAILED, Ascii("encode request failed"), []))
  }

  // ---------------------------------------------------------------- the object

  class RpcClient<C(==)> {
    const timerIds: TimerIds
    const utf8: Utf8
    var pendingCalls: map<Id, C>
    var stopped: bool
    var connected: bool
    ghost var posted: seq<Posted>
    ghost var invocations: seq<Invocation<C>>

    ghost function State(): Core<C>
      reads this
    {
      Core(pendingCalls, stopped, connected, posted, invocations)
    }

    constructor (timerIds: TimerIds, utf8: Utf8)
      ensures State() == Core(map[], false, false, [], [])
      ensures this.timerIds == timerIds && this.utf8 == utf8
    {
      this.timerIds, this.utf8 := timerIds, utf8;
      pendingCalls, stopped, connected, posted, invocations := map[], false, false, [], [];
    }

    /** The critical section that moves a callback out, and its invocation. */
    method Answer(id: Id, resp: RpcResponse)
      modifies this`pendingCalls, this`invocations
      ensures State() == Answered(old(State()), id, resp)
    {
      if id in pendingCalls {
        var callback := pendingCalls[id];
        pendingCalls := pendingCalls - {id};
        invocations := invocations + [Invocation(id, callback, resp)];
      }
    }

    method CallRaw(id: Id, serviceName: Bytes, methodName: Bytes, body: Bytes, callback: C, timeoutMs: int)
      modifies this`pendingCalls, this`posted, this`invocations
      ensures State() ==
        Called(timerIds, old(State()), RpcRequest(serviceName, methodName, id, body), callback, timeoutMs)
    {
      if stopped || !connected {
        var resp := RpcResponse(id, CLIENT_NOT_RUNNING, Ascii("client stopped/disconnected"), []);
        invocations := invocations + [Invocation(id, callback, resp)];
        return;
      }
      pendingCalls := pendingCalls[id := callback];
      var timer := timerIds(id);
      posted := posted + [AddTimer(timer, id, timeoutMs)];
      var encoded := Encode(RequestPrinter(), RpcRequest(serviceName, methodName, id, body));
      if encoded.None? {
        posted := posted + [RemoveTimer(timer)];
        Answer(id, RpcResponse(id, CLIENT_ENCODE_FAILED, Ascii("encode request failed"), []));
        return;
      }
      posted := posted + [Send(encoded.value)];
    }

    method HandleResponse(response: RpcResponse)
      modifies this`pendingCalls, this`posted, this`invocations
      ensures State() == Responded(timerIds, old(State()), response)
    {
      posted := posted + [RemoveTimer(timerIds(response.requestId))];
      Answer(response.requestId, response);
    }

    /** `corrupt`: the loop met a corrupt frame, and the connection is closed. */
    method OnMessage(buffer: Buffer) returns (corrupt: bool)
      requires buffer.Valid()
      modifies this`pendingCalls, this`posted, this`invocations, buffer`readPos, buffer`writePos
      ensures buffer.Valid()
      ensures var whole := DecodeAll(ResponseParser(utf8), old(buffer.Contents()));
        && State() == RespondedAll(timerIds, old(State()), whole.msgs)
        && buffer.Contents() == whole.rest
        && corrupt == whole.corrupt
    {
      hide Responded, RespondedAll, Decode, DecodeAll;
      ghost var done: seq<RpcResponse> := [];
      RespondedNone(timerIds, State());
      var parse := ResponseParser(utf8);
      while buffer.ReadableBytes() >= 4
        invariant buffer.Valid()
        invariant State() == RespondedAll(timerIds, old(State()), done)
        invariant var later := DecodeAll(parse, buffer.Contents());
          DecodeAll(parse, old(buffer.Contents())) == Stream(done + later.msgs, later.rest, later.corrupt)
        decreases |buffer.Contents()|
      {
        StreamStep(parse, done, buffer.Contents());
        var d := TakeFrame(buffer, parse);
        assert done + [] == done;
        if !d.Ok? {
          return d.Corrupted?;
        }
        HandleResponse(d.msg);
        RespondedNext(timerIds, old(State()), done, d.msg);
        done := done + [d.msg];
      }
      StreamStep(parse, done, buffer.Contents());
      assert done + [] == done;
      return false;
    }

    /** `order` is the order in which the swapped-out map is walked. */
    method DropAllPending(code: int32, msg: Bytes) returns (ghost order: seq<Id>)
      modifies this`pendingCalls, this`posted, this`invocations
      ensures Lists(order, old(pendingCalls))
      ensures State() == Dropped(timerIds, old(State()), order, code, msg)
    {
      var tmp := pendingCalls;
      pendingCalls := map[];
      order := [];
      var left := tmp.Keys;
      ghost var c := State();
      while left != {}
        invariant left <= tmp.Keys
        invariant forall i, j | 0 <= i < j < |order| :: order[i] != order[j]
        invariant forall id: Id :: id in order <==> id in tmp && id !in left
        invariant State() == DroppedFrom(timerIds, c, tmp, order, code, msg)
        decreases |left|
      {
        var id :| id in left;
        left := left - {id};
        posted := posted + [RemoveTimer(timerIds(id))];
        invocations := invocations + [Invocation(id, tmp[id], RpcResponse(id, code, msg, []))];
        assert (order + [id])[..|order|] == order;
        order := order + [id];
      }
    }

    /** The connection is gone: `onConnection` and `onError` drop the pending calls unless the client is stopped. */
    method OnLoss(code: int32, msg: Bytes) returns (ghost order: seq<Id>)
      modifies this`pendingCalls, this`posted, this`invocations
      ensures if stopped then order == [] && State() == old(State())
        else Lists(order, old(pendingCalls)) && State() == Dropped(timerIds, old(State()), order, code, msg)
    {
      order := [];
      if !stopped {
        order := DropAllPending(code, msg);
      }
    }

    /** The first call stops the client; later ones do nothing. */
    method Stop() returns (ghost order: seq<Id>)
      modifies this`stopped, this`pendingCalls, this`posted, this`invocations
      ensures stopped
      ensures if old(stopped) then order == [] && State() == old(State())
        else
          && Lists(order, old(pendingCalls))
          && var dropped :=
              Dropped(timerIds, old(State()).(stopped := true), order, CLIENT_NOT_RUNNING, Ascii("rpc client stopped"));
            State() == dropped.(posted := dropped.posted + [Disconnect, QuitLoop, JoinLoop, StopTcp])
    {
      order := [];
      if !stopped {
        stopped := true;
        order := DropAllPending(CLIENT_NOT_RUNNING, Ascii("rpc client stopped"));
        posted := posted + [Disconnect, QuitLoop, JoinLoop, StopTcp];
      }
    }
  }

  // ---------------------------------------------------------------- what these do, said without state

  predicate Names(msgs: seq<RpcResponse>, id: Id) { exists i :: 0 <= i < |msgs| && msgs[i].requestId == id }

  /** Each pending call gets the first response that names it; nothing else is invoked. */
  function Answers<C>(pending: map<Id, C>, msgs: seq<RpcResponse>): seq<Invocation<C>> {
    if msgs == [] then [] else
      var earlier, last := msgs[..|msgs| - 1], msgs[|msgs| - 1];
      var id := last.requestId;
      Answers(pending, earlier) + (if id in pending && !Names(earlier, id) then [Invocation(id, pending[id], last)] else [])
  }

  lemma {:induction false} NamedAreAnswered<C>(tid: TimerIds, c: Core<C>, msgs: seq<RpcResponse>)
    ensures var after := RespondedAll(tid, c, msgs);
      && (forall id: Id :: id in after.pending <==> id in c.pending && !Names(msgs, id))
      && (forall id: Id | id in after.pending :: after.pending[id] == c.pending[id])
      && after.invocations == c.invocations + Answers(c.pending, msgs)
      && after.stopped == c.stopped && after.connected == c.connected
  {
    if msgs == [] {
      assert c.invocations + [] == c.invocations;
    } else {
      var earlier, last := msgs[..|msgs| - 1], msgs[|msgs| - 1];
      NamedAreAnswered(tid, c, earlier);
      NamesSplit(msgs);
      var before := RespondedAll(tid, c, earlier);
      var id := last.requestId;
      var more := if id in before.pending then [Invocation(id, c.pending[id], last)] else [];
      assert c.invocations + Answers(c.pending, earlier) + more == c.invocations + (Answers(c.pending, earlier) + more);
    }
  }

  lemma {:induction false} TimersRemoved<C>(tid: TimerIds, c: Core<C>, msgs: seq<RpcResponse>)
    ensures var after := RespondedAll(tid, c, msgs);
      && |after.posted| == |c.posted| + |msgs| && c.posted <= after.posted
      && forall i | 0 <= i < |msgs| :: after.posted[|c.posted| + i] == RemoveTimer(tid(msgs[i].requestId))
  {
    if msgs != [] { TimersRemoved(tid, c, msgs[..|msgs| - 1]); }
  }

  /**
   * A batch of responses: pending calls it names leave, with the first response that names them; the
   * others stay. Duplicates, ids never issued and the empty id of a shutdown notice invoke nothing. For every
   * response, in order, the timer of its id is removed.
   */
  lemma FirstResponseWins<C>(tid: TimerIds, c: Core<C>, msgs: seq<RpcResponse>)
    ensures var after := RespondedAll(tid, c, msgs);
      && (forall id: Id :: id in after.pending <==> id in c.pending && !Names(msgs, id))
      && (forall id: Id | id in after.pending :: after.pending[id] == c.pending[id])
      && after.invocations == c.invocations + Answers(c.pending, msgs)
      && after.stopped == c.stopped && after.connected == c.connected
      && |after.posted| == |c.posted| + |msgs| && c.posted <= after.posted
      && forall i | 0 <= i < |msgs| :: after.posted[|c.posted| + i] == RemoveTimer(tid(msgs[i].requestId))
  {
    hide RespondedAll, Names, Answers;
    NamedAreAnswered(tid, c, msgs);
    TimersRemoved(tid, c, msgs);
  }

  lemma NamesSplit(msgs: seq<RpcResponse>)
    requires msgs != []
    ensures forall id: Id :: Names(msgs, id) <==> Names(msgs[..|msgs| - 1], id) || msgs[|msgs| - 1].requestId == id
  {
    forall id: Id
      ensures Names(msgs, id) <==> Names(msgs[..|msgs| - 1], id) || msgs[|msgs| - 1].requestId == id
    {
      if i :| 0 <= i < |msgs| && msgs[i].requestId == id {
        assert i < |msgs| - 1 ==> msgs[..|msgs| - 1][i].requestId == id;
      }
      var earlier := msgs[..|msgs| - 1];
      if i :| 0 <= i < |earlier| && earlier[i].requestId == id {
        assert msgs[i].requestId == id;
      }
    }
  }

  /** Dropping invokes each pending callback exactly once, with the given error, and leaves none pending. */
  lemma {:induction false} DropInvokesEach<C>(tid: TimerIds, c: Core<C>, tmp: map<Id, C>, order: seq<Id>, code: int32,
                                              msg: Bytes)
    requires forall id | id in order :: id in tmp
    ensures var after := DroppedFrom(tid, c, tmp, order, code, msg);
      && after.pending == c.pending
      && |after.invocations| == |c.invocations| + |order| && c.invocations <= after.invocations
      && |after.posted| == |c.posted| + |order| && c.posted <= after.posted
      && forall i | 0 <= i < |order| ::
          && after.invocations[|c.invocations| + i] == Invocation(order[i], tmp[order[i]], RpcResponse(order[i], code, msg, []))
          && after.posted[|c.posted| + i] == RemoveTimer(tid(order[i]))
  {
    if order != [] {
      DropInvokesEach(tid, c, tmp, order[..|order| - 1], code, msg);
    }
  }

  /** A call that ends at once: one callback, its own, with the right error, and nothing left pending. */
  predicate EndsWith<C(==)>(c: Core<C>, after: Core<C>, id: Id, callback: C, code: int32) {
    && after.pending == c.pending
    && |after.invocations| == |c.invocations| + 1 && c.invocations <= after.invocations
    && var last := after.invocations[|c.invocations|];
      && last.id == last.response.requestId == id && last.callback == callback
      && last.response.code == code
  }

  /**
   * What CallRaw leaves behind: refused with one callback at once and nothing posted; or, if the request is
   * too large to encode, called back at once with its timer armed and removed again; or pending, with its
   * timer asked for before a frame that the server decodes to exactly this request if it is deliverable at all.
   */
  lemma CallOutcome<C>(tid: TimerIds, utf8: Utf8, c: Core<C>, request: RpcRequest, callback: C, timeoutMs: int,
                       rest: Bytes)
    requires request.requestId !in c.pending
    ensures var id, encoded := request.requestId, Encode(RequestPrinter(), request);
      var after := Called(tid, c, request, callback, timeoutMs);
      if c.stopped || !c.connected then
        EndsWith(c, after, id, callback, CLIENT_NOT_RUNNING) && after.posted == c.posted
      else if RequestLength(request) > INT32_MAX then
        && EndsWith(c, after, id, callback, CLIENT_ENCODE_FAILED)
        && after.posted == c.posted + [AddTimer(tid(id), id, timeoutMs), RemoveTimer(tid(id))]
      else
        && encoded.Some?
        && after.invocations == c.invocations && after.pending == c.pending[id := callback]
        && after.posted == c.posted + [AddTimer(tid(id), id, timeoutMs), Send(encoded.value)]
        && Decode(RequestParser(utf8), encoded.value + rest) ==
            (if Deliverable(RequestPrinter(), RequestParser(utf8), request) then Ok(request, |encoded.value|) else Corrupted)
  {
    RequestEncodes(request);
    hide SerializeRequest, ParseRequest, Ascii, RequestLength;
    var id := request.requestId;
    var timer := AddTimer(tid(id), id, timeoutMs);
    assert c.posted + [timer] + [RemoveTimer(tid(id))] == c.posted + [timer, RemoveTimer(tid(id))];
    assert c.pending[id := callback] - {id} == c.pending;
    if !c.stopped && c.connected && Encode(RequestPrinter(), request).Some? {
      var frame := Encode(RequestPrinter(), request).value;
      RequestsFaithful(utf8);
      FrameRoundTrip(RequestPrinter(), RequestParser(utf8), request, rest);
      assert c.posted + [timer] + [Send(frame)] == c.posted + [timer, Send(frame)];
    }
  }
}
