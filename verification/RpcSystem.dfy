/**
 * One client and one server over one connection, composed from the client's protocol, the two
 * directions of the message channel and the server's protocol. Other clients of the server are
 * its environment: they may send it anything.
 */
module RpcSystem {
  import opened Basics
  import WireFormat
  import opened Envelope
  import opened Codec
  import opened RpcCodec
  import opened MessageChannel
  import opened CallLedger
  import C = ClientProtocol
  import S = ServerProtocol

  /** The client's connection, as the server numbers them. */
  const OURS: S.Conn := 0

  /**
   * `requests`: what each call asks. `handled`, `taken`: how many of the messages dispatched by each
   * end of the connection the server's and the client's loop have dealt with.
   */
  datatype System = System(
    client: C.ClientState,
    requests: map<Id, RpcRequest>,
    up: Channel<RpcRequest>,
    handled: nat,
    server: S.ServerState,
    down: Channel<RpcResponse>,
    taken: nat)

  /** The integers are what `write` returns, if it is called. */
  datatype Action =
    | Call(request: RpcRequest, timeoutMs: int)
    | Client(step: C.Action)
    | TransmitNext(n: int)             // the loop runs a functor that sends a request
    | Up(req: Event<RpcRequest>)
    | Serve(n: int)                    // the server's loop handles the next request of this connection
    | Server(act: S.Action, n: int)
    | Down(resp: Event<RpcResponse>)
    | TakeNext                         // the client's loop handles the next response

  /** What surrounds the two ends: the timer ids, the text validity test and the size of the pool. */
  datatype World = World(tid: TimerIds, utf8: WireFormat.Utf8, threads: nat, maxQueue: nat)

  predicate RunsTransmit(s: C.ClientState, a: C.Action) {
    C.Enabled(s, a) && a.RunFunctor? && s.queue.batch[0].Transmit?
  }

  predicate Enabled(s: System, a: Action) {
    match a
    case Call(r, timeoutMs) => r.requestId != [] && C.Enabled(s.client, C.Issue(r.requestId, timeoutMs))
    case Client(step) =>
      && C.Enabled(s.client, step) && !step.Issue? && !step.TakeResponse? && !RunsTransmit(s.client, step)
      && (step.EncodeCall? && step.id in s.requests ==> step.ok == Encode(RequestPrinter(), s.requests[step.id]).Some?)
    case TransmitNext(_) => RunsTransmit(s.client, C.RunFunctor(0)) && s.client.queue.batch[0].id in s.requests
    case Up(e) => !e.SendMessage?
    case Serve(_) => s.handled < |s.up.rx.dispatched| && S.Enabled(s.server, S.Receive(NextJob(s)))
    case Server(step, _) => S.Enabled(s.server, step) && (step.Receive? ==> step.job.conn != OURS)
    case Down(e) => !e.SendMessage?
    case TakeNext => s.taken < |s.down.rx.dispatched| && C.Enabled(s.client, C.TakeResponse(s.down.rx.dispatched[s.taken]))
  }

  function NextJob(s: System): S.Job
    requires s.handled < |s.up.rx.dispatched|
  {
    S.Job(OURS, s.up.rx.dispatched[s.handled])
  }

  /** The step the client takes, if it takes part. */
  function ClientStep(s: System, a: Action): (r: Option<C.Action>)
    requires Enabled(s, a)
    ensures r.Some? ==> C.Enabled(s.client, r.value)
  {
    match a
    case Call(r, timeoutMs) => Some(C.Issue(r.requestId, timeoutMs))
    case Client(step) => Some(step)
    case TransmitNext(_) => Some(C.RunFunctor(0))
    case TakeNext => Some(C.TakeResponse(s.down.rx.dispatched[s.taken]))
    case _ => None
  }

  function ServerStep(s: System, a: Action): (r: Option<S.Action>)
    requires Enabled(s, a)
    ensures r.Some? ==> S.Enabled(s.server, r.value)
  {
    match a
    case Serve(_) => Some(S.Receive(NextJob(s)))
    case Server(step, _) => Some(step)
    case _ => None
  }

  /** The response a server step sends on this connection. */
  function SentHere(e: S.Emission): Option<RpcResponse> {
    match e
    case To(conn, response) => if conn == OURS then Some(response) else None
    case ToEveryone(response) => Some(response)
    case Silence => None
  }

  function ClientAfter(w: World, s: System, a: Action): C.ClientState
    requires Enabled(s, a)
  {
    if ClientStep(s, a).Some? then C.Next(w.tid, s.client, ClientStep(s, a).value) else s.client
  }

  function ServerAfter(s: System, a: Action): S.ServerState
    requires Enabled(s, a)
  {
    if ServerStep(s, a).Some? then S.Next(s.server, ServerStep(s, a).value) else s.server
  }

  /** What happens on the way up. */
  function UpEvent(s: System, a: Action): Option<Event<RpcRequest>>
    requires Enabled(s, a)
  {
    match a
    case Up(e) => Some(e)
    case TransmitNext(n) => Some(SendMessage(s.requests[s.client.queue.batch[0].id], n))
    case _ => None
  }

  function DownEvent(s: System, a: Action): Option<Event<RpcResponse>>
    requires Enabled(s, a)
  {
    if a.Down? then Some(a.resp)
    else if ServerStep(s, a).Some? then
      (match SentHere(S.Emitted(s.server, ServerStep(s, a).value))
       case None => None
       case Some(r) => Some(SendMessage(r, a.n)))
    else None
  }

  function UpAfter(w: World, s: System, a: Action): Channel<RpcRequest>
    requires Enabled(s, a)
  {
    if UpEvent(s, a).Some? then Step(RequestPrinter(), RequestParser(w.utf8), s.up, UpEvent(s, a).value) else s.up
  }

  function DownAfter(w: World, s: System, a: Action): Channel<RpcResponse>
    requires Enabled(s, a)
  {
    if DownEvent(s, a).Some? then Step(ResponsePrinter(), ResponseParser(w.utf8), s.down, DownEvent(s, a).value) else s.down
  }

  function Next(w: World, s: System, a: Action): System
    requires Enabled(s, a)
  {
    System(
      ClientAfter(w, s, a),
      if a.Call? then s.requests[a.request.requestId := a.request] else s.requests,
      UpAfter(w, s, a),
      if a.Serve? then s.handled + 1 else s.handled,
      ServerAfter(s, a),
      DownAfter(w, s, a),
      if a.TakeNext? then s.taken + 1 else s.taken)
  }

  function Start(w: World): System {
    System(C.Initial(), map[], MessageChannel.Initial(), 0, S.Initial(w.threads, w.maxQueue), MessageChannel.Initial(), 0)
  }

  function Run(w: World, actions: seq<Action>): System {
    if actions == [] then Start(w) else
      var s := Run(w, actions[..|actions| - 1]);
      var a := actions[|actions| - 1];
      if Enabled(s, a) then Next(w, s, a) else s
  }
}
