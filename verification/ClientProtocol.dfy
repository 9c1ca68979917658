/**
 * The client's calls as an interleaving of its threads (code/rpc/rpc_client.cc):
 * application threads in CallRaw, the loop thread handling responses, timers,
 * functors and connection loss, and a thread in Stop. Each action is one region
 * guarded by `pending_mutex_`, one loop hand-off, or one callback invocation. The
 * loop's timers are those of the timing wheel itself.
 */
module ClientProtocol {
  import opened Basics
  import opened Envelope
  import opened ErrorCodes
  import opened EventLoops
  import opened TimingWheel
  import opened CallLedger
  import WT = WheelTiming

  /** The event loop's wheel ticks every 10 ms. */
  const TICK_MS: int := 10

  type SoundWheel = w: Wheel | w.Shape() witness Empty(TICK_MS, 0)

  /** How far the thread in CallRaw has come with a call. */
  datatype Stage = BeforeTimer | BeforeEncode | BeforeSend | EncodeFailed | FailTaken | FailDisarmed | Returned

  datatype Call = Call(stage: Stage, timeoutMs: int)

  datatype LoopStage =
    | NotStarted                         // no thread yet
    | NotEntered                         // the thread is there, `Loop()` has not cleared `quit_` yet
    | Idle
    | Responding(resp: RpcResponse)      // callback moved out, if it was there
    | Disarmed(resp: RpcResponse)        // timer removed
    | Ticking(due: seq<Id>)              // the timer callbacks this tick has still to run
    | Firing(id: Id, due: seq<Id>)       // inside one of them, the callback moved out
    | Losing(code: int32, msg: Bytes)    // has read stopped_ == false
    | Dropping(code: int32, msg: Bytes)  // has swapped pending_calls_ out
    | Exited

  datatype StopStage = NotStopped | FlagSet | Swapped | Disconnecting | Quitting | Joined

  datatype Functor = Arm(id: Id) | Disarm(id: Id) | Transmit(id: Id) | Teardown

  /**
   * `seen`: ids that responses have carried, known to the client or not. `timerOf`: the request id that the
   * callback of each timer node ever made has captured.
   */
  datatype ClientState = ClientState(
    ledger: Ledger,
    calls: map<Id, Call>,
    seen: set<Id>,
    stopped: bool,
    connected: bool,
    stopStage: StopStage,
    loopStage: LoopStage,
    quit: bool,
    queue: LoopQueue<Functor>,
    wheel: SoundWheel,
    timerOf: map<nat, Id>)

  datatype Action =
    | Start
    | EnterLoop
    | Issue(id: Id, timeoutMs: int)
    | ArmCall(id: Id)
    | EncodeCall(id: Id, ok: bool)
    | SendCall(id: Id, dropped: bool)    // dropped: the connection is gone
    | TakeFailed(id: Id)
    | DisarmFailed(id: Id)
    | InvokeFailed(id: Id)
    | TakeResponse(resp: RpcResponse)
    | DisarmResponse
    | InvokeResponse
    | Tick(now: int, clock: Clock)       // the wheel's tick up to its callbacks, which follow one by one
    | TakeTimedOut
    | InvokeTimedOut
    | EndTick
    | NoticeLoss(code: int32, msg: Bytes)
    | SwapLost
    | DropLost(id: Id)
    | EndLoss(disconnected: bool)
    | LoseQuietly                        // the connection goes while the client is stopped
    | Connect
    | SwapFunctors
    | RunFunctor(now: int)               // now: what the clock says if the functor arms a timer
    | SetStopped
    | SwapStopped
    | DropStopped(id: Id)
    | Disconnect
    | Quit
    | ExitLoop
    | Join

  function ErrorResponse(id: Id, code: int32, msg: Bytes): RpcResponse { RpcResponse(id, code, msg, []) }

  predicate AtStage(s: ClientState, id: Id, stage: Stage) { id in s.calls && s.calls[id].stage == stage }

  /** Request ids are fresh: never issued before and never seen in a response. */
  predicate Enabled(s: ClientState, a: Action) {
    match a
    case Start => s.loopStage == NotStarted && !s.stopped
    case EnterLoop => s.loopStage == NotEntered
    case Issue(id, _) => id !in s.ledger.issued && id !in s.calls && id !in s.seen
    case ArmCall(id) => AtStage(s, id, BeforeTimer)
    case EncodeCall(id, _) => AtStage(s, id, BeforeEncode)
    case SendCall(id, _) => AtStage(s, id, BeforeSend)
    case TakeFailed(id) => AtStage(s, id, EncodeFailed)
    case DisarmFailed(id) => AtStage(s, id, FailTaken)
    case InvokeFailed(id) => AtStage(s, id, FailDisarmed)
    case TakeResponse(_) => s.loopStage == Idle
    case DisarmResponse => s.loopStage.Responding?
    case InvokeResponse => s.loopStage.Disarmed?
    case Tick(_, _) => s.loopStage == Idle
    case TakeTimedOut => s.loopStage.Ticking? && s.loopStage.due != []
    case InvokeTimedOut => s.loopStage.Firing?
    case EndTick => s.loopStage.Ticking? && s.loopStage.due == []
    case NoticeLoss(code, _) =>
      s.loopStage == Idle && !s.stopped && (code == CLIENT_CONNECTION_DISCONNECTED || code == CLIENT_NETWORK_ERROR)
    case SwapLost => s.loopStage.Losing?
    case DropLost(id) => s.loopStage.Dropping? && id in s.ledger.Held(Loop)
    case EndLoss(_) => s.loopStage.Dropping? && s.ledger.Held(Loop) == {}
    case LoseQuietly => s.loopStage == Idle && s.stopped
    case Connect => s.loopStage == Idle
    case SwapFunctors => s.loopStage == Idle && s.queue.batch == []
    case RunFunctor(_) => s.loopStage == Idle && s.queue.batch != []
    case SetStopped => s.stopStage == NotStopped
    case SwapStopped => s.stopStage == FlagSet
    case DropStopped(id) => s.stopStage == Swapped && id in s.ledger.Held(Stopper)
    case Disconnect => s.stopStage == Swapped && s.ledger.Held(Stopper) == {}
    case Quit => s.stopStage == Disconnecting
    case ExitLoop => s.loopStage == Idle && s.queue.batch == [] && s.quit
    case Join => (s.loopStage == Exited || s.loopStage == NotStarted) && s.stopStage == Quitting
  }

  // ---------------------------------------------------------------- what an action does, part by part

  function LedgerAfter(s: ClientState, a: Action): Ledger
    requires Enabled(s, a)
  {
    var l := s.ledger;
    match a
    case Issue(id, _) =>
      if s.stopped || !s.connected then
        Refuse(l, id, ErrorResponse(id, CLIENT_NOT_RUNNING, Ascii("client stopped/disconnected")))
      else Register(l, id)
    case TakeFailed(id) => TakeOne(l, Caller, id)
    case InvokeFailed(id) =>
      Invoke(l, Caller, id, ErrorResponse(id, CLIENT_ENCODE_FAILED, Ascii("encode request failed")))
    case TakeResponse(resp) => TakeOne(l, Loop, resp.requestId)
    case InvokeResponse => Invoke(l, Loop, s.loopStage.resp.requestId, s.loopStage.resp)
    case TakeTimedOut => TakeOne(l, Loop, s.loopStage.due[0])
    case InvokeTimedOut =>
      var id := s.loopStage.id;
      Invoke(l, Loop, id, ErrorResponse(id, CLIENT_REQUEST_TIMEOUT, Ascii("request timeout")))
    case SwapLost => TakeAll(l, Loop)
    case DropLost(id) => Invoke(l, Loop, id, ErrorResponse(id, s.loopStage.code, s.loopStage.msg))
    case SwapStopped => TakeAll(l, Stopper)
    case DropStopped(id) =>
      Invoke(l, Stopper, id, ErrorResponse(id, CLIENT_NOT_RUNNING, Ascii("rpc client stopped")))
    case _ => l
  }

  /** The call a thread in CallRaw is working on, and the stage it moves it to. */
  function Moved(a: Action): Option<(Id, Stage)> {
    match a
    case ArmCall(x) => Some((x, BeforeEncode))
    case EncodeCall(x, ok) => Some((x, if ok then BeforeSend else EncodeFailed))
    case SendCall(x, _) => Some((x, Returned))
    case TakeFailed(x) => Some((x, FailTaken))
    case DisarmFailed(x) => Some((x, FailDisarmed))
    case InvokeFailed(x) => Some((x, Returned))
    case _ => None
  }

  function CallsAfter(s: ClientState, a: Action): map<Id, Call>
    requires Enabled(s, a)
  {
    if a.Issue? then s.calls[a.id := Call(if s.stopped || !s.connected then Returned else BeforeTimer, a.timeoutMs)]
    else if Moved(a).Some? then
      var (id, stage) := Moved(a).value;
      s.calls[id := s.calls[id].(stage := stage)]
    else s.calls
  }

  /** What an action pushes on the loop's queue. */
  function PushedBy(a: Action): Option<Functor> {
    match a
    case ArmCall(id) => Some(Arm(id))
    case SendCall(id, dropped) => if dropped then None else Some(Transmit(id))
    case DisarmFailed(id) => Some(Disarm(id))
    case DropStopped(id) => Some(Disarm(id))
    case Disconnect => Some(Teardown)
    case _ => None
  }

  function QueueAfter(s: ClientState, a: Action): LoopQueue<Functor>
    requires Enabled(s, a)
  {
    if a.SwapFunctors? then EventLoops.Swapped(s.queue)
    else if a.RunFunctor? then RanFront(s.queue)
    else if PushedBy(a).Some? then Pushed(s.queue, PushedBy(a).value)
    else s.queue
  }

  /** The request id whose timer an action removes. */
  function Disarms(s: ClientState, a: Action): Option<Id>
    requires Enabled(s, a)
  {
    match a
    case DisarmResponse => Some(s.loopStage.resp.requestId)
    case DropLost(id) => Some(id)
    case RunFunctor(_) => if s.queue.batch[0].Disarm? then Some(s.queue.batch[0].id) else None
    case _ => None
  }

  /** The request id whose timer an action arms. */
  function Arms(s: ClientState, a: Action): Option<Id>
    requires Enabled(s, a)
  {
    if a.RunFunctor? && s.queue.batch[0].Arm? && s.queue.batch[0].id in s.calls then Some(s.queue.batch[0].id) else None
  }

  /** What an action does to the wheel. */
  function WheelOp(tid: TimerIds, s: ClientState, a: Action): Option<WT.Op>
    requires Enabled(s, a)
  {
    if a.Tick? then Some(WT.TickOp(a.now, a.clock))
    else if Disarms(s, a).Some? then Some(WT.RemoveOp(tid(Disarms(s, a).value)))
    else if Arms(s, a).Some? then
      var id := Arms(s, a).value;
      Some(WT.AddOp(tid(id), s.calls[id].timeoutMs, a.now))
    else None
  }

  function WheelAfter(tid: TimerIds, s: ClientState, a: Action): SoundWheel
    requires Enabled(s, a)
  {
    if WheelOp(tid, s, a).Some? then WT.Apply(s.wheel, WheelOp(tid, s, a).value) else s.wheel
  }

  function TimerOfAfter(tid: TimerIds, s: ClientState, a: Action): map<nat, Id>
    requires Enabled(s, a)
  {
    if Arms(s, a).Some? && s.wheel.nextHandle < WheelAfter(tid, s, a).nextHandle then
      s.timerOf[s.wheel.nextHandle := Arms(s, a).value]
    else s.timerOf
  }

  /** The request ids that the callbacks of the fired nodes have captured. */
  function DueIds(fired: seq<TimerNode>, timerOf: map<nat, Id>): seq<Id> {
    if fired == [] then []
    else (if fired[0].handle in timerOf then [timerOf[fired[0].handle]] else []) + DueIds(fired[1..], timerOf)
  }

  function LoopAfter(s: ClientState, a: Action): LoopStage
    requires Enabled(s, a)
  {
    match a
    case Start => NotEntered
    case EnterLoop => Idle
    case TakeResponse(resp) => Responding(resp)
    case DisarmResponse => Disarmed(s.loopStage.resp)
    case InvokeResponse => Idle
    case Tick(now, clock) => Ticking(DueIds(TickFired(s.wheel, now, clock), s.timerOf))
    case TakeTimedOut => Firing(s.loopStage.due[0], s.loopStage.due[1..])
    case InvokeTimedOut => Ticking(s.loopStage.due)
    case EndTick => Idle
    case NoticeLoss(code, msg) => Losing(code, msg)
    case SwapLost => Dropping(s.loopStage.code, s.loopStage.msg)
    case EndLoss(_) => Idle
    case ExitLoop => Exited
    case _ => s.loopStage
  }

  function StopAfter(s: ClientState, a: Action): StopStage {
    match a
    case SetStopped => FlagSet
    case SwapStopped => Swapped
    case Disconnect => Disconnecting
    case Quit => Quitting
    case Join => Joined
    case _ => s.stopStage
  }

  function ConnectedAfter(s: ClientState, a: Action): bool
    requires Enabled(s, a)
  {
    match a
    case EndLoss(disconnected) => s.connected && !disconnected
    case LoseQuietly => false
    case Connect => true
    case RunFunctor(_) => s.connected && !s.queue.batch[0].Teardown?
    case _ => s.connected
  }

  function Next(tid: TimerIds, s: ClientState, a: Action): ClientState
    requires Enabled(s, a)
  {
    ClientState(
      LedgerAfter(s, a),
      CallsAfter(s, a),
      if a.TakeResponse? then s.seen + {a.resp.requestId} else s.seen,
      s.stopped || a.SetStopped?,
      ConnectedAfter(s, a),
      StopAfter(s, a),
      LoopAfter(s, a),
      a.Quit? || (s.quit && !a.EnterLoop?),
      QueueAfter(s, a),
      WheelAfter(tid, s, a),
      TimerOfAfter(tid, s, a))
  }

  /** Times count from the construction of the loop. */
  function Initial(): ClientState {
    ClientState(NewLedger(), map[], {}, false, false, NotStopped, NotStarted, false, EmptyQueue(), Empty(TICK_MS, 0), map[])
  }

  function Run(tid: TimerIds, actions: seq<Action>): ClientState {
    if actions == [] then Initial() else
      var s := Run(tid, actions[..|actions| - 1]);
      var a := actions[|actions| - 1];
      if Enabled(s, a) then Next(tid, s, a) else s
  }
}
