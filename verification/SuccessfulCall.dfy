/**
 * What the whole system is for: any request that fits a frame can be answered, with anything a handler may return that
 * fits a frame. The run is built action by action, through both protocols and both directions of the channel.
 */
module SuccessfulCall {
  import opened Basics
  import WireFormat
  import opened Envelope
  import opened EventLoops
  import opened Codec
  import opened RpcCodec
  import opened RpcServices
  import opened ThreadPools
  import MC = MessageChannel
  import opened CallLedger
  import C = ClientProtocol
  import CT = ClientTheorems
  import S = ServerProtocol
  import Pool = PoolProtocol
  import opened RpcSystem
  import opened EndToEnd

  // ---------------------------------------------------------------- the client's side

  /** A call from the start of the client to its callback. */
  function Calling(id: Id, timeoutMs: int, resp: RpcResponse): seq<C.Action> {
    [C.Start, C.EnterLoop, C.Connect, C.Issue(id, timeoutMs), C.ArmCall(id), C.EncodeCall(id, true),
     C.SendCall(id, false), C.SwapFunctors, C.RunFunctor(0), C.RunFunctor(0),
     C.TakeResponse(resp), C.DisarmResponse, C.InvokeResponse]
  }

  predicate LoopAt(c: C.ClientState, resp: RpcResponse, k: nat) {
    && c.loopStage == (if k == 0 then C.NotStarted else if k == 1 then C.NotEntered
                       else if k == 11 then C.Responding(resp) else if k == 12 then C.Disarmed(resp) else C.Idle)
    && !c.stopped && c.connected == (k >= 3) && (k < 4 ==> c.seen == {})
  }

  predicate LedgerAt(l: Ledger, id: Id, resp: RpcResponse, k: nat) {
    && l.issued == (if k < 4 then {} else {id})
    && l.pending == (if 4 <= k < 11 then {id} else {})
    && l.Held(Loop) == (if k == 11 || k == 12 then {id} else {})
    && (k >= 13 ==> id in l.delivered && l.delivered[id] == resp)
  }

  predicate CallAt(calls: map<Id, C.Call>, id: Id, k: nat) {
    if k < 4 then calls == map[] else (id in calls && calls[id].stage == CallStage(k))
  }

  function CallStage(k: nat): C.Stage {
    if k == 4 then C.BeforeTimer else if k == 5 then C.BeforeEncode else if k == 6 then C.BeforeSend else C.Returned
  }

  predicate QueueAt(q: LoopQueue<C.Functor>, id: Id, k: nat) {
    && q.pending == (if k < 5 then [] else if k < 7 then [C.Arm(id)] else if k == 7 then [C.Arm(id), C.Transmit(id)] else [])
    && q.batch == (if k < 8 then [] else if k == 8 then [C.Arm(id), C.Transmit(id)] else if k == 9 then [C.Transmit(id)] else [])
  }

  predicate ClientAt(c: C.ClientState, id: Id, resp: RpcResponse, k: nat) {
    LoopAt(c, resp, k) && LedgerAt(c.ledger, id, resp, k) && CallAt(c.calls, id, k) && QueueAt(c.queue, id, k)
  }

  lemma CallingEnabled(c: C.ClientState, id: Id, timeoutMs: int, resp: RpcResponse, k: nat)
    requires k < 13 && ClientAt(c, id, resp, k)
    ensures C.Enabled(c, Calling(id, timeoutMs, resp)[k])
  {
  }

  lemma CallingLoop(tid: TimerIds, c: C.ClientState, id: Id, timeoutMs: int, resp: RpcResponse, k: nat)
    requires k < 13 && ClientAt(c, id, resp, k) && C.Enabled(c, Calling(id, timeoutMs, resp)[k])
    ensures LoopAt(C.Next(tid, c, Calling(id, timeoutMs, resp)[k]), resp, k + 1)
  {
    hide C.Enabled, C.LedgerAfter, C.CallsAfter, C.QueueAfter, C.WheelAfter, C.TimerOfAfter, C.StopAfter, LedgerAt, CallAt;
  }

  lemma CallingLedger(c: C.ClientState, id: Id, timeoutMs: int, resp: RpcResponse, k: nat)
    requires k < 13 && ClientAt(c, id, resp, k) && C.Enabled(c, Calling(id, timeoutMs, resp)[k]) && resp.requestId == id
    ensures LedgerAt(C.LedgerAfter(c, Calling(id, timeoutMs, resp)[k]), id, resp, k + 1)
  {
    hide C.Enabled, CallAt, QueueAt, Ascii, Refuse, TakeAll;
  }

  lemma CallingCalls(c: C.ClientState, id: Id, timeoutMs: int, resp: RpcResponse, k: nat)
    requires k < 13 && ClientAt(c, id, resp, k) && C.Enabled(c, Calling(id, timeoutMs, resp)[k])
    ensures CallAt(C.CallsAfter(c, Calling(id, timeoutMs, resp)[k]), id, k + 1)
  {
    hide C.Enabled, LedgerAt, QueueAt;
  }

  lemma CallingQueue(c: C.ClientState, id: Id, timeoutMs: int, resp: RpcResponse, k: nat)
    requires k < 13 && ClientAt(c, id, resp, k) && C.Enabled(c, Calling(id, timeoutMs, resp)[k])
    ensures QueueAt(C.QueueAfter(c, Calling(id, timeoutMs, resp)[k]), id, k + 1)
  {
    hide C.Enabled, LedgerAt, CallAt, LoopAt;
  }

  lemma CallingStep(tid: TimerIds, c: C.ClientState, id: Id, timeoutMs: int, resp: RpcResponse, k: nat)
    requires k < 13 && ClientAt(c, id, resp, k) && resp.requestId == id
    ensures C.Enabled(c, Calling(id, timeoutMs, resp)[k]) && ClientAt(C.Next(tid, c, Calling(id, timeoutMs, resp)[k]), id, resp, k + 1)
  {
    CallingEnabled(c, id, timeoutMs, resp, k);
    CallingLoop(tid, c, id, timeoutMs, resp, k);
    CallingLedger(c, id, timeoutMs, resp, k);
    CallingCalls(c, id, timeoutMs, resp, k);
    CallingQueue(c, id, timeoutMs, resp, k);
    hide C.Enabled, C.LedgerAfter, C.CallsAfter, C.QueueAfter, C.WheelAfter, C.TimerOfAfter, C.StopAfter, C.LoopAfter,
         C.ConnectedAfter, LoopAt, LedgerAt, CallAt, QueueAt, Calling;
  }

  // ---------------------------------------------------------------- the server's side

  function Serving(job: S.Job, result: RpcResponse): seq<S.Action> {
    [S.Start, S.EnterLoop, S.Receive(job), S.Submit, S.InPool(Pool.Acquire(0)),
     S.RunTask(0, S.Executed(Returned(result)), true), S.SwapFunctors, S.RunFunctor]
  }

  predicate PoolAt(p: Pool.PoolState, k: nat) {
    && !p.core.closed && p.maxQueue > 0 && |p.workers| > 0
    && p.core.tasks == (if k == 4 then [0] else [])
    && |p.accepted| == (if k < 4 then 0 else 1)
    && p.workers[0] == (if k < 5 then Pool.Ready else if k == 5 then Pool.Running(0) else Pool.Ran(0))
  }

  predicate ServerAt(s: S.ServerState, job: S.Job, result: RpcResponse, k: nat) {
    && s.loop == (if k == 0 then S.NotStarted else if k == 1 then S.NotEntered else if k == 3 then S.PastGate(job) else S.Idle)
    && !s.stopped && PoolAt(s.pool, k)
    && s.jobs == (if k < 4 then [] else [job])
    && ReplyAt(s.queue, S.Reply(0, result.(requestId := job.request.requestId)), k)
  }

  predicate ReplyAt(q: LoopQueue<S.Functor>, reply: S.Functor, k: nat) {
    q.pending == (if k == 6 then [reply] else []) && q.batch == (if k == 7 then [reply] else [])
  }

  lemma ServingPool(s: S.ServerState, job: S.Job, result: RpcResponse, k: nat)
    requires k < 8 && ServerAt(s, job, result, k)
    ensures S.Enabled(s, Serving(job, result)[k]) && PoolAt(S.PoolAfter(s, Serving(job, result)[k]), k + 1)
  {
  }

  lemma ServingQueue(s: S.ServerState, job: S.Job, result: RpcResponse, k: nat)
    requires k < 8 && ServerAt(s, job, result, k) && S.Enabled(s, Serving(job, result)[k])
    ensures ReplyAt(S.QueueAfter(s, Serving(job, result)[k]), S.Reply(0, result.(requestId := job.request.requestId)), k + 1)
  {
    hide S.Enabled;
  }

  lemma ServingStep(s: S.ServerState, job: S.Job, result: RpcResponse, k: nat)
    requires k < 8 && ServerAt(s, job, result, k)
    ensures S.Enabled(s, Serving(job, result)[k]) && ServerAt(S.Next(s, Serving(job, result)[k]), job, result, k + 1)
    ensures S.Emitted(s, Serving(job, result)[k]) ==
      if k == 7 then S.To(job.conn, result.(requestId := job.request.requestId)) else S.Silence
  {
    ServingPool(s, job, result, k);
    ServingQueue(s, job, result, k);
    hide S.Enabled, S.PoolAfter, S.QueueAfter, S.MainAfter, S.PoolStep, Ascii;
  }

  // ---------------------------------------------------------------- the channel

  /** A message written whole and read whole. */
  function Written<M>(printer: Printer<M>, parse: Parser<M>, m: M): MC.Channel<M>
    requires Encode(printer, m).Some?
  {
    MC.Step(printer, parse, MC.Initial(), MC.SendMessage(m, |Encode(printer, m).value|))
  }

  function Crossed<M>(printer: Printer<M>, parse: Parser<M>, m: M): MC.Channel<M>
    requires Encode(printer, m).Some?
  {
    MC.Step(printer, parse, Written(printer, parse, m), MC.ReadEvent(|Encode(printer, m).value|))
  }

  lemma WrittenWhole<M>(printer: Printer<M>, parse: Parser<M>, m: M)
    requires Encode(printer, m).Some?
    ensures var c := Written(printer, parse, m);
      && c.sent == [m] && c.wire == Encode(printer, m).value && c.tx.output == [] && c.open && !c.rx.closed
  {
    hide Encode;
  }

  lemma CrossedWhole<M>(printer: Printer<M>, parse: Parser<M>, m: M)
    requires Encode(printer, m).Some? && |Encode(printer, m).value| > 0
    ensures var c := Crossed(printer, parse, m); c.sent == [m] && c.wire == [] && c.tx.output == []
  {
    WrittenWhole(printer, parse, m);
    hide Encode, Written, Feed;
  }

  /** Writing and reading it is a run of the channel. */
  function Crossing<M>(printer: Printer<M>, m: M): seq<MC.Event<M>>
    requires Encode(printer, m).Some?
  {
    var n := |Encode(printer, m).value|;
    [MC.SendMessage(m, n), MC.ReadEvent(n)]
  }

  lemma CrossedRun<M>(printer: Printer<M>, parse: Parser<M>, m: M)
    requires Encode(printer, m).Some?
    ensures MC.Run(printer, parse, Crossing(printer, m)) == Crossed(printer, parse, m)
  {
    var n := |Encode(printer, m).value|;
    var begin: seq<MC.Event<M>> := [];
    var send, read := MC.SendMessage(m, n), MC.ReadEvent(n);
    assert MC.Run(printer, parse, begin) == MC.Initial();
    hide MC.Run, MC.Step, Encode;
    MC.RunNext(printer, parse, begin, send);
    MC.RunNext(printer, parse, begin + [send], read);
    assert begin + [send] + [read] == Crossing(printer, m);
  }

  lemma FrameNotEmpty<M>(printer: Printer<M>, m: M)
    requires Encode(printer, m).Some?
    ensures |Encode(printer, m).value| > 0
  {
  }

  lemma CrossedArrives<M(!new)>(printer: Printer<M>, parse: Parser<M>, m: M)
    requires Faithful(printer, parse) && Deliverable(printer, parse, m) && Encode(printer, m).Some?
    ensures Crossed(printer, parse, m).rx.dispatched == [m]
  {
    hide MC.Run, Crossed, Deliverable, Faithful, Encode;
    FrameNotEmpty(printer, m);
    CrossedWhole(printer, parse, m);
    CrossedRun(printer, parse, m);
    MC.DrainedIsComplete(printer, parse, Crossing(printer, m));
  }

  // ---------------------------------------------------------------- both together

  /** A call and what its handler will return. */
  datatype Plan = Plan(request: RpcRequest, timeoutMs: int, result: RpcResponse)
  {
    function Id(): Id { request.requestId }
    function Response(): RpcResponse { result.(requestId := request.requestId) }
    function Job(): S.Job { S.Job(OURS, request) }

    ghost predicate Possible(utf8: WireFormat.Utf8) {
      && request.requestId != []
      && Deliverable(RequestPrinter(), RequestParser(utf8), request)
      && Deliverable(ResponsePrinter(), ResponseParser(utf8), Response())
      && Encode(RequestPrinter(), request).Some? && Encode(ResponsePrinter(), Response()).Some?
    }
  }

  /** How far client, server, the way up and the way down have come. */
  datatype Progress = Progress(client: nat, server: nat, up: MC.Channel<RpcRequest>, handled: nat,
                               down: MC.Channel<RpcResponse>, taken: nat)

  predicate At(p: Plan, s: System, g: Progress) {
    && ClientAt(s.client, p.Id(), p.Response(), g.client)
    && ServerAt(s.server, p.Job(), p.result, g.server)
    && s.requests == (if g.client < 4 then map[] else map[p.Id() := p.request])
    && s.up == g.up && s.handled == g.handled && s.down == g.down && s.taken == g.taken
  }

  function ClientAct(p: Plan, k: nat): C.Action
    requires k < 13
  {
    Calling(p.Id(), p.timeoutMs, p.Response())[k]
  }

  function ServerAct(p: Plan, k: nat): S.Action
    requires k < 8
  {
    Serving(p.Job(), p.result)[k]
  }

  lemma NextIs(w: World, s: System, a: Action)
    requires Enabled(s, a)
    ensures var r := Next(w, s, a);
      && r.client == ClientAfter(w, s, a) && r.server == ServerAfter(s, a)
      && r.up == UpAfter(w, s, a) && r.down == DownAfter(w, s, a)
      && r.requests == (if a.Call? then s.requests[a.request.requestId := a.request] else s.requests)
      && r.handled == (if a.Serve? then s.handled + 1 else s.handled)
      && r.taken == (if a.TakeNext? then s.taken + 1 else s.taken)
  {
    hide Enabled, ClientAfter, ServerAfter, UpAfter, DownAfter;
  }

  /** A step that only the client takes part in. */
  lemma ClientAlone(w: World, s: System, a: Action, step: C.Action)
    requires Enabled(s, a) && ClientStep(s, a) == Some(step) && !a.TransmitNext?
    ensures C.Enabled(s.client, step) && ClientAfter(w, s, a) == C.Next(w.tid, s.client, step)
    ensures ServerAfter(s, a) == s.server && UpAfter(w, s, a) == s.up && DownAfter(w, s, a) == s.down
  {
    hide C.Enabled, C.Next;
  }

  /** A step that only the server takes part in, with what it sends. */
  lemma ServerAlone(w: World, s: System, a: Action, act: S.Action)
    requires Enabled(s, a) && ServerStep(s, a) == Some(act)
    ensures S.Enabled(s.server, act) && ServerAfter(s, a) == S.Next(s.server, act)
    ensures ClientAfter(w, s, a) == s.client && UpAfter(w, s, a) == s.up
    ensures SentHere(S.Emitted(s.server, act)).None? ==> DownAfter(w, s, a) == s.down
  {
    hide S.Enabled, S.Next, S.Emitted, MC.Step;
  }

  lemma ClientEnabled(w: World, p: Plan, s: System, g: Progress)
    requires p.Possible(w.utf8) && At(p, s, g) && g.client < 13 && g.client != 3 && g.client != 9 && g.client != 10
    ensures Enabled(s, Client(ClientAct(p, g.client)))
  {
    CallingEnabled(s.client, p.Id(), p.timeoutMs, p.Response(), g.client);
    assert g.client == 8 ==> s.client.queue.batch[0].Arm?;
    hide ClientAt, ServerAt, C.Enabled, Encode;
  }

  /** The steps the client takes by itself. */
  lemma ClientMoves(w: World, p: Plan, s: System, g: Progress)
    requires p.Possible(w.utf8) && At(p, s, g) && g.client < 13 && g.client != 3 && g.client != 9 && g.client != 10
    ensures var a := Client(ClientAct(p, g.client));
      Enabled(s, a) && At(p, Next(w, s, a), g.(client := g.client + 1))
  {
    var a := Client(ClientAct(p, g.client));
    ClientEnabled(w, p, s, g);
    hide ClientAt, ServerAt, C.Next, C.Enabled, S.Next, S.Enabled, S.Emitted, Encode, Enabled, Next, ClientAfter, ServerAfter,
         UpAfter, DownAfter, MC.Step, Crossed, Written, Plan.Possible, Calling, Serving, ServerStep;
    CallingStep(w.tid, s.client, p.Id(), p.timeoutMs, p.Response(), g.client);
    NextIs(w, s, a);
    ClientAlone(w, s, a, a.step);
  }

  lemma CallEnabled(w: World, p: Plan, s: System, g: Progress)
    requires p.Possible(w.utf8) && At(p, s, g) && g.client == 3
    ensures Enabled(s, Call(p.request, p.timeoutMs))
    ensures ClientStep(s, Call(p.request, p.timeoutMs)) == Some(C.Issue(p.Id(), p.timeoutMs))
  {
    CallingEnabled(s.client, p.Id(), p.timeoutMs, p.Response(), 3);
    hide ClientAt, ServerAt, C.Enabled, Encode;
  }

  lemma IsIssue(p: Plan)
    ensures Calling(p.Id(), p.timeoutMs, p.Response())[3] == C.Issue(p.Id(), p.timeoutMs)
    ensures Calling(p.Id(), p.timeoutMs, p.Response())[9] == C.RunFunctor(0)
    ensures Calling(p.Id(), p.timeoutMs, p.Response())[10] == C.TakeResponse(p.Response())
    ensures Serving(p.Job(), p.result)[2] == S.Receive(p.Job())
  {
  }

  lemma CallMoves(w: World, p: Plan, s: System, g: Progress)
    requires p.Possible(w.utf8) && At(p, s, g) && g.client == 3
    ensures var a := Call(p.request, p.timeoutMs);
      Enabled(s, a) && At(p, Next(w, s, a), g.(client := 4))
  {
    var a := Call(p.request, p.timeoutMs);
    CallEnabled(w, p, s, g);
    hide ClientAt, ServerAt, C.Next, C.Enabled, S.Next, S.Enabled, S.Emitted, Encode, Enabled, Next, ClientAfter, ServerAfter,
         UpAfter, DownAfter, MC.Step, Crossed, Written, Plan.Possible, Calling, Serving, ClientStep, ServerStep;
    CallingStep(w.tid, s.client, p.Id(), p.timeoutMs, p.Response(), 3);
    IsIssue(p);
    NextIs(w, s, a);
    ClientAlone(w, s, a, C.Issue(p.Id(), p.timeoutMs));
  }

  lemma Transmits(w: World, s: System, n: int)
    requires Enabled(s, TransmitNext(n))
    ensures var a := TransmitNext(n);
      && C.Enabled(s.client, C.RunFunctor(0)) && ClientAfter(w, s, a) == C.Next(w.tid, s.client, C.RunFunctor(0))
      && ServerAfter(s, a) == s.server && DownAfter(w, s, a) == s.down
      && UpAfter(w, s, a) == MC.Step(RequestPrinter(), RequestParser(w.utf8), s.up,
                                     MC.SendMessage(s.requests[s.client.queue.batch[0].id], n))
  {
    hide C.Next, MC.Step;
  }

  lemma TransmitEnabled(w: World, p: Plan, s: System, g: Progress, n: int)
    requires p.Possible(w.utf8) && At(p, s, g) && g.client == 9
    ensures Enabled(s, TransmitNext(n)) && s.client.queue.batch == [C.Transmit(p.Id())]
  {
    CallingEnabled(s.client, p.Id(), p.timeoutMs, p.Response(), 9);
    assert s.client.queue.batch == [C.Transmit(p.Id())];
    hide ClientAt, ServerAt, C.Enabled, Encode;
  }

  lemma TransmitMoves(w: World, p: Plan, s: System, g: Progress)
    requires p.Possible(w.utf8) && At(p, s, g) && g.client == 9 && g.up == MC.Initial()
    ensures var a := TransmitNext(|Encode(RequestPrinter(), p.request).value|);
      Enabled(s, a) && At(p, Next(w, s, a), g.(client := 10, up := Written(RequestPrinter(), RequestParser(w.utf8), p.request)))
  {
    var a := TransmitNext(|Encode(RequestPrinter(), p.request).value|);
    TransmitEnabled(w, p, s, g, a.n);
    hide ClientAt, ServerAt, C.Next, C.Enabled, S.Next, S.Enabled, S.Emitted, Encode, Enabled, Next, ClientAfter, ServerAfter,
         UpAfter, DownAfter, MC.Step, Crossed, Written, Plan.Possible, Calling, Serving, ClientStep, ServerStep;
    CallingStep(w.tid, s.client, p.Id(), p.timeoutMs, p.Response(), 9);
    IsIssue(p);
    NextIs(w, s, a);
    Transmits(w, s, a.n);
  }

  lemma UpMoves(w: World, p: Plan, s: System, g: Progress)
    requires p.Possible(w.utf8) && At(p, s, g) && g.up == Written(RequestPrinter(), RequestParser(w.utf8), p.request)
    ensures var a := Up(MC.ReadEvent(|Encode(RequestPrinter(), p.request).value|));
      Enabled(s, a) && At(p, Next(w, s, a), g.(up := Crossed(RequestPrinter(), RequestParser(w.utf8), p.request)))
  {
    hide ClientAt, ServerAt, Encode, MC.Step, Written;
  }

  lemma ServeEnabled(w: World, p: Plan, s: System, g: Progress)
    requires p.Possible(w.utf8) && At(p, s, g) && g.server == 2 && g.handled == 0
    requires g.up.rx.dispatched == [p.request]
    ensures Enabled(s, Serve(0)) && ServerStep(s, Serve(0)) == Some(S.Receive(p.Job()))
  {
    hide ClientAt, ServerAt, S.Enabled, Crossed, Plan.Possible, Serving;
    IsIssue(p);
    ServingPool(s.server, p.Job(), p.result, 2);
  }

  lemma ServeIs(w: World, p: Plan, s: System, g: Progress)
    requires p.Possible(w.utf8) && At(p, s, g) && g.server == 2 && g.handled == 0 && g.up.rx.dispatched == [p.request]
    requires S.Enabled(s.server, S.Receive(p.Job())) && S.Emitted(s.server, S.Receive(p.Job())) == S.Silence
    ensures Enabled(s, Serve(0))
    ensures var r := Next(w, s, Serve(0));
      && r.server == S.Next(s.server, S.Receive(p.Job())) && r.client == s.client
      && r.up == s.up && r.down == s.down && r.requests == s.requests && r.handled == 1 && r.taken == s.taken
  {
    ServeEnabled(w, p, s, g);
    assert s.handled == 0;
    hide At, S.Next, S.Enabled, S.Emitted, Enabled, Next, ClientAfter, ServerAfter, UpAfter, DownAfter, Plan.Possible, ServerStep;
    NextIs(w, s, Serve(0));
    ServerAlone(w, s, Serve(0), S.Receive(p.Job()));
  }

  lemma ServeMoves(w: World, p: Plan, s: System, g: Progress)
    requires p.Possible(w.utf8) && At(p, s, g) && g.server == 2 && g.handled == 0 && g.up.rx.dispatched == [p.request]
    ensures Enabled(s, Serve(0)) && At(p, Next(w, s, Serve(0)), g.(server := 3, handled := 1))
  {
    hide Next, Enabled, S.Next, S.Enabled, S.Emitted, ClientAt, ServerAt, Plan.Possible, Serving;
    ServingStep(s.server, p.Job(), p.result, 2);
    IsIssue(p);
    ServeIs(w, p, s, g);
  }

  lemma ServerEnabled(p: Plan, s: System, g: Progress, n: int)
    requires At(p, s, g) && g.server < 8 && g.server != 2
    ensures var a := Server(ServerAct(p, g.server), n); Enabled(s, a) && ServerStep(s, a) == Some(ServerAct(p, g.server))
  {
    ServingPool(s.server, p.Job(), p.result, g.server);
    assert !ServerAct(p, g.server).Receive?;
    hide ClientAt, ServerAt, S.Enabled;
  }

  /** The steps the server takes by itself, up to the response. */
  lemma ServerMoves(w: World, p: Plan, s: System, g: Progress)
    requires p.Possible(w.utf8) && At(p, s, g) && g.server < 7 && g.server != 2
    ensures var a := Server(ServerAct(p, g.server), 0);
      Enabled(s, a) && At(p, Next(w, s, a), g.(server := g.server + 1))
  {
    var a := Server(ServerAct(p, g.server), 0);
    ServerEnabled(p, s, g, 0);
    hide ClientAt, ServerAt, C.Next, C.Enabled, S.Next, S.Enabled, S.Emitted, Encode, Enabled, Next, ClientAfter, ServerAfter,
         UpAfter, DownAfter, MC.Step, Crossed, Written, Plan.Possible, Calling, Serving, ClientStep, ServerStep;
    ServingStep(s.server, p.Job(), p.result, g.server);
    NextIs(w, s, a);
    ServerAlone(w, s, a, a.act);
  }

  lemma Replies(w: World, s: System, a: Action, act: S.Action, resp: RpcResponse)
    requires Enabled(s, a) && a.Server? && a.act == act && SentHere(S.Emitted(s.server, act)) == Some(resp)
    ensures DownAfter(w, s, a) == MC.Step(ResponsePrinter(), ResponseParser(w.utf8), s.down, MC.SendMessage(resp, a.n))
  {
    hide S.Enabled, S.Next, S.Emitted, MC.Step;
  }

  lemma ReplyMoves(w: World, p: Plan, s: System, g: Progress)
    requires p.Possible(w.utf8) && At(p, s, g) && g.server == 7 && g.down == MC.Initial()
    ensures var a := Server(ServerAct(p, 7), |Encode(ResponsePrinter(), p.Response()).value|);
      Enabled(s, a) && At(p, Next(w, s, a), g.(server := 8, down := Written(ResponsePrinter(), ResponseParser(w.utf8), p.Response())))
  {
    var a := Server(ServerAct(p, 7), |Encode(ResponsePrinter(), p.Response()).value|);
    ServerEnabled(p, s, g, a.n);
    hide ClientAt, ServerAt, C.Next, C.Enabled, S.Next, S.Enabled, S.Emitted, Encode, Enabled, Next, ClientAfter, ServerAfter,
         UpAfter, DownAfter, MC.Step, Crossed, Written, Plan.Possible, Calling, Serving, ClientStep, ServerStep;
    ServingStep(s.server, p.Job(), p.result, 7);
    NextIs(w, s, a);
    ServerAlone(w, s, a, a.act);
    Replies(w, s, a, a.act, p.Response());
  }

  lemma DownMoves(w: World, p: Plan, s: System, g: Progress)
    requires p.Possible(w.utf8) && At(p, s, g) && g.down == Written(ResponsePrinter(), ResponseParser(w.utf8), p.Response())
    ensures var a := Down(MC.ReadEvent(|Encode(ResponsePrinter(), p.Response()).value|));
      Enabled(s, a) && At(p, Next(w, s, a), g.(down := Crossed(ResponsePrinter(), ResponseParser(w.utf8), p.Response())))
  {
    hide ClientAt, ServerAt, Encode, MC.Step, Written;
  }

  lemma Arrive(w: World, p: Plan)
    requires p.Possible(w.utf8)
    ensures Crossed(RequestPrinter(), RequestParser(w.utf8), p.request).rx.dispatched == [p.request]
    ensures Crossed(ResponsePrinter(), ResponseParser(w.utf8), p.Response()).rx.dispatched == [p.Response()]
  {
    hide Encode, Crossed, Faithful, Deliverable;
    RequestsFaithful(w.utf8);
    ResponsesFaithful(w.utf8);
    CrossedArrives(RequestPrinter(), RequestParser(w.utf8), p.request);
    CrossedArrives(ResponsePrinter(), ResponseParser(w.utf8), p.Response());
  }

  lemma TakeEnabled(w: World, p: Plan, s: System, g: Progress)
    requires p.Possible(w.utf8) && At(p, s, g) && g.client == 10 && g.taken == 0
    requires g.down.rx.dispatched == [p.Response()]
    ensures Enabled(s, TakeNext) && ClientStep(s, TakeNext) == Some(C.TakeResponse(p.Response()))
  {
    hide ClientAt, ServerAt, C.Enabled, Crossed, Plan.Possible, Calling;
    IsIssue(p);
    CallingEnabled(s.client, p.Id(), p.timeoutMs, p.Response(), 10);
  }

  lemma TakeNextIs(w: World, p: Plan, s: System, g: Progress)
    requires p.Possible(w.utf8) && At(p, s, g) && g.client == 10 && g.taken == 0 && g.down.rx.dispatched == [p.Response()]
    ensures Enabled(s, TakeNext) && C.Enabled(s.client, C.TakeResponse(p.Response()))
    ensures var r := Next(w, s, TakeNext);
      && r.client == C.Next(w.tid, s.client, C.TakeResponse(p.Response())) && r.server == s.server
      && r.up == s.up && r.down == s.down && r.requests == s.requests && r.handled == s.handled && r.taken == 1
  {
    TakeEnabled(w, p, s, g);
    assert s.taken == 0;
    hide At, C.Next, C.Enabled, Enabled, Next, ClientAfter, ServerAfter, UpAfter, DownAfter, Plan.Possible, ClientStep;
    NextIs(w, s, TakeNext);
    ClientAlone(w, s, TakeNext, C.TakeResponse(p.Response()));
  }

  lemma TakeMoves(w: World, p: Plan, s: System, g: Progress)
    requires p.Possible(w.utf8) && At(p, s, g) && g.client == 10 && g.taken == 0 && g.down.rx.dispatched == [p.Response()]
    ensures Enabled(s, TakeNext) && At(p, Next(w, s, TakeNext), g.(client := 11, taken := 1))
  {
    TakeNextIs(w, p, s, g);
    hide Next, Enabled, C.Next, C.Enabled, ClientAt, ServerAt, Plan.Possible, Calling;
    CallingStep(w.tid, s.client, p.Id(), p.timeoutMs, p.Response(), 10);
    IsIssue(p);
  }

  lemma RunThen(w: World, actions: seq<Action>, a: Action)
    requires Enabled(Run(w, actions), a)
    ensures Run(w, actions + [a]) == Next(w, Run(w, actions), a)
  {
    assert (actions + [a])[..|actions|] == actions;
    hide Enabled, Next;
  }

  // ---------------------------------------------------------------- the whole run

  lemma StartsThere(w: World, p: Plan)
    requires w.threads > 0 && w.maxQueue > 0
    ensures At(p, Start(w), Progress(0, 0, MC.Initial(), 0, MC.Initial(), 0))
  {
  }

  /** The client's steps that are neither the call, the sending of its request nor the taking of its response. */
  predicate OwnStep(k: nat) { k != 3 && k != 9 && k != 10 }

  /** The client by itself, from where it is to step `k`. */
  lemma {:induction false} ClientRuns(w: World, p: Plan, actions: seq<Action>, g: Progress, k: nat) returns (all: seq<Action>)
    requires p.Possible(w.utf8) && At(p, Run(w, actions), g) && g.client <= k <= 13
    requires forall i: nat | g.client <= i < k :: OwnStep(i)
    ensures At(p, Run(w, all), g.(client := k))
    decreases k - g.client
  {
    hide Run, Next, Enabled, At, Plan.Possible, Calling;
    if g.client == k {
      all := actions;
      assert g.(client := k) == g;
    } else {
      var a := Client(ClientAct(p, g.client));
      assert OwnStep(g.client);
      ClientMoves(w, p, Run(w, actions), g);
      RunThen(w, actions, a);
      all := ClientRuns(w, p, actions + [a], g.(client := g.client + 1), k);
    }
  }

  lemma {:induction false} ServerRuns(w: World, p: Plan, actions: seq<Action>, g: Progress, k: nat) returns (all: seq<Action>)
    requires p.Possible(w.utf8) && At(p, Run(w, actions), g) && g.server <= k <= 7
    requires g.server <= 2 ==> k <= 2
    ensures At(p, Run(w, all), g.(server := k))
    decreases k - g.server
  {
    hide Run, Next, Enabled, At, Plan.Possible, Serving;
    if g.server == k {
      all := actions;
      assert g.(server := k) == g;
    } else {
      var a := Server(ServerAct(p, g.server), 0);
      ServerMoves(w, p, Run(w, actions), g);
      RunThen(w, actions, a);
      all := ServerRuns(w, p, actions + [a], g.(server := g.server + 1), k);
    }
  }

  function UpFrame(p: Plan): int
    requires Encode(RequestPrinter(), p.request).Some?
  {
    |Encode(RequestPrinter(), p.request).value|
  }

  function DownFrame(p: Plan): int
    requires Encode(ResponsePrinter(), p.Response()).Some?
  {
    |Encode(ResponsePrinter(), p.Response()).value|
  }

  /** Connected, called, armed, encoded and handed to the loop. */
  lemma RequestReady(w: World, p: Plan) returns (all: seq<Action>)
    requires w.threads > 0 && w.maxQueue > 0 && p.Possible(w.utf8)
    ensures At(p, Run(w, all), Progress(9, 0, MC.Initial(), 0, MC.Initial(), 0))
  {
    var g := Progress(0, 0, MC.Initial(), 0, MC.Initial(), 0);
    assert Run(w, []) == Start(w);
    StartsThere(w, p);
    hide Run, Next, Enabled, At, Plan.Possible;
    all := ClientRuns(w, p, [], g, 3);
    g := g.(client := 3);
    CallMoves(w, p, Run(w, all), g);
    RunThen(w, all, Call(p.request, p.timeoutMs));
    all, g := all + [Call(p.request, p.timeoutMs)], g.(client := 4);
    all := ClientRuns(w, p, all, g, 9);
  }

  /** Written and read. */
  lemma RequestCrosses(w: World, p: Plan, actions: seq<Action>, g: Progress) returns (all: seq<Action>, up: MC.Channel<RpcRequest>)
    requires p.Possible(w.utf8) && At(p, Run(w, actions), g) && g.client == 9 && g.up == MC.Initial()
    ensures up.rx.dispatched == [p.request] && At(p, Run(w, all), g.(client := 10, up := up))
  {
    Arrive(w, p);
    hide Run, Next, Enabled, At, Encode, Written, Crossed, Deliverable;
    var n, h := UpFrame(p), g.(client := 10, up := Written(RequestPrinter(), RequestParser(w.utf8), p.request));
    TransmitMoves(w, p, Run(w, actions), g);
    RunThen(w, actions, TransmitNext(n));
    all := actions + [TransmitNext(n)];
    up := Crossed(RequestPrinter(), RequestParser(w.utf8), p.request);
    UpMoves(w, p, Run(w, all), h);
    RunThen(w, all, Up(MC.ReadEvent(n)));
    all := all + [Up(MC.ReadEvent(n))];
  }

  /** Accepted, taken by a worker, run and handed to the loop. */
  lemma RequestServed(w: World, p: Plan, actions: seq<Action>, g: Progress) returns (all: seq<Action>)
    requires p.Possible(w.utf8) && At(p, Run(w, actions), g)
    requires g.server == 0 && g.handled == 0 && g.up.rx.dispatched == [p.request]
    ensures At(p, Run(w, all), g.(server := 7, handled := 1))
  {
    hide Run, Next, Enabled, At, Plan.Possible;
    all := ServerRuns(w, p, actions, g, 2);
    var h := g.(server := 2);
    ServeMoves(w, p, Run(w, all), h);
    RunThen(w, all, Serve(0));
    all, h := all + [Serve(0)], h.(server := 3, handled := 1);
    all := ServerRuns(w, p, all, h, 7);
  }

  lemma ResponseCrosses(w: World, p: Plan, actions: seq<Action>, g: Progress) returns (all: seq<Action>, down: MC.Channel<RpcResponse>)
    requires p.Possible(w.utf8) && At(p, Run(w, actions), g) && g.server == 7 && g.down == MC.Initial()
    ensures down.rx.dispatched == [p.Response()] && At(p, Run(w, all), g.(server := 8, down := down))
  {
    Arrive(w, p);
    hide Run, Next, Enabled, At, Encode, Written, Crossed, Deliverable, Serving;
    var n, h := DownFrame(p), g.(server := 8, down := Written(ResponsePrinter(), ResponseParser(w.utf8), p.Response()));
    var reply := Server(ServerAct(p, 7), n);
    ReplyMoves(w, p, Run(w, actions), g);
    RunThen(w, actions, reply);
    all := actions + [reply];
    down := Crossed(ResponsePrinter(), ResponseParser(w.utf8), p.Response());
    DownMoves(w, p, Run(w, all), h);
    RunThen(w, all, Down(MC.ReadEvent(n)));
    all := all + [Down(MC.ReadEvent(n))];
  }

  lemma CallReturns(w: World, p: Plan) returns (all: seq<Action>, g: Progress)
    requires w.threads > 0 && w.maxQueue > 0 && p.Possible(w.utf8)
    ensures At(p, Run(w, all), g) && g.client == 13
  {
    hide Run, Next, Enabled, At, Plan.Possible;
    all := RequestReady(w, p);
    g := Progress(9, 0, MC.Initial(), 0, MC.Initial(), 0);
    var up, down;
    all, up := RequestCrosses(w, p, all, g);
    g := g.(client := 10, up := up);
    all := RequestServed(w, p, all, g);
    g := g.(server := 7, handled := 1);
    all, down := ResponseCrosses(w, p, all, g);
    g := g.(server := 8, down := down);
    TakeMoves(w, p, Run(w, all), g);
    RunThen(w, all, TakeNext);
    all, g := all + [TakeNext], g.(client := 11, taken := 1);
    all := ClientRuns(w, p, all, g, 13);
    g := g.(client := 13);
  }

  /**
   * Every request that the other end can decode can be answered by anything a handler may return that can be decoded
   * in turn: there is a run of the whole system in which the call's callback receives exactly that.
   */
  lemma EveryCallCanSucceed(w: World, request: RpcRequest, timeoutMs: int, result: RpcResponse) returns (actions: seq<Action>)
    requires w.threads > 0 && w.maxQueue > 0 && request.requestId != []
    requires Deliverable(RequestPrinter(), RequestParser(w.utf8), request)
    requires Deliverable(ResponsePrinter(), ResponseParser(w.utf8), result.(requestId := request.requestId))
    ensures var s, id := Run(w, actions), request.requestId;
      && id in s.client.ledger.delivered && s.client.ledger.delivered[id] == result.(requestId := id)
      && s.client.ledger.invoked[id] == 1 && s.requests == map[id := request]
  {
    var p := Plan(request, timeoutMs, result);
    hide Run, At, Encode, Deliverable, RequestLength, ResponseLength;
    RequestDeliverable(w.utf8, request);
    ResponseDeliverable(w.utf8, p.Response());
    var g;
    actions, g := CallReturns(w, p);
    hide Plan.Possible, Linked;
    AtTheEnd(p, Run(w, actions), g);
    RunLinked(w, actions);
    EndInvoked(w, Run(w, actions), p.Id());
  }

  lemma AtTheEnd(p: Plan, s: System, g: Progress)
    requires At(p, s, g) && g.client == 13
    ensures p.Id() in s.client.ledger.delivered && s.client.ledger.delivered[p.Id()] == p.Response()
    ensures s.requests == map[p.Id() := p.request]
  {
  }

  lemma EndInvoked(w: World, s: System, id: Id)
    requires Linked(w, s) && id in s.client.ledger.delivered
    ensures s.client.ledger.invoked[id] == 1
  {
    hide Recorded, Sends, Received, Answered, Delivers, ChannelsSound;
    InvokedOnce(w, s.client, id);
  }
}
