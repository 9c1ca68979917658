/**
 * The server's loop thread, pool workers and the thread in Stop as one interleaving
 * (code/rpc/rpc_server.cc). The pool is the state machine of PoolProtocol; the loop hands
 * responses over through its functor queue.
 */
module ServerProtocol {
  import opened Basics
  import opened Envelope
  import opened ErrorCodes
  import opened EventLoops
  import opened RpcServices
  import opened ThreadPools
  import Pool = PoolProtocol

  type Conn = nat

  /** Tasks are numbered in the order the pool accepts them. */
  type Task = nat

  datatype Job = Job(conn: Conn, request: RpcRequest)

  /** How the body of a task went: the connection object was gone, there was no such method, or its handler ran. */
  datatype Body = Skipped | NotFound | Executed(outcome: Outcome)

  /** `sent`: the response was encoded and the connection still up when it was passed on. */
  datatype Ran = Ran(task: Task, body: Body, sent: bool)

  datatype Functor = StopAccepting | GoAway | Reply(task: Task, response: RpcResponse) | StopInLoop

  /** NotStarted: no thread yet; NotEntered: it is there, `Loop()` has not cleared `quit_` yet. */
  datatype LoopStage = NotStarted | NotEntered | Idle | PastGate(job: Job) | Exited

  /** The thread in Stop, named after what it has done last. */
  datatype MainStage =
    | Serving | FlagSet | NotAccepting | Announced | Waiting(waiter: nat) | Waited
    | StopQueued | QuitSet | LoopJoined | ClosedPool | WokePool | Done

  /**
   * `jobs[t]` is the job of task `t`. History: `ran`, the bodies run, in order; `atStop`, how many
   * tasks had been accepted when `stopped_` was set; `atDrain`, when WaitForTasks found nothing left.
   */
  datatype ServerState = ServerState(
    pool: Pool.PoolState,
    queue: LoopQueue<Functor>,
    jobs: seq<Job>,
    ran: seq<Ran>,
    stopped: bool,
    main: MainStage,
    loop: LoopStage,
    quit: bool,
    atStop: nat,
    atDrain: nat)

  datatype Action =
    | Start
    | EnterLoop
    | Receive(job: Job)                    // a decoded request; reads stopped_
    | Submit
    | SwapFunctors
    | RunFunctor
    | ExitLoop
    | InPool(step: Pool.Action)            // a worker, a notification or the waiting thread
    | RunTask(w: nat, body: Body, sent: bool)
    | SetStopped
    | QueueStopAccepting
    | QueueGoAway
    | BeginWait
    | EndWait
    | QueueStopInLoop
    | Quit
    | JoinLoop
    | ClosePool
    | WakePool
    | JoinPool

  function EmptyResponse(): RpcResponse { RpcResponse([], OK, [], []) }

  /** The response `Invoke` leaves for a task's body, if there is one to send. */
  function ReplyOf(request: RpcRequest, body: Body): Option<RpcResponse> {
    match body
    case Skipped => None
    case NotFound =>
      var key := MakeMethodKey(request.serviceName, request.methodName);
      Some(RpcResponse(request.requestId, SERVER_SERVICE_NOT_FOUND, Ascii("Service not found: ") + key, []))
    case Executed(Returned(r)) => Some(r.(requestId := request.requestId))
    case Executed(Threw(r, what)) => Some(RpcResponse(request.requestId, SERVER_INTERNAL_ERROR, what, r.body))
    case Executed(ThrewOther) => None
  }

  /** The bodies of the protocol are the invocations of the service, whatever is registered. */
  lemma BodiesAreInvocations<H>(methods: map<Key, H>, run: Runner<H>, request: RpcRequest)
    ensures var key := MakeMethodKey(request.serviceName, request.methodName);
      var body := if key in methods then Executed(run(methods[key], request, EmptyResponse())) else NotFound;
      ReplyOf(request, body) ==
        match Invoked(methods, run, request, EmptyResponse()) { case None => None case Some(r) => Some(r.0) }
  {
  }

  /** What other threads do inside the pool; accepting and closing are the loop's and the stopping thread's. */
  predicate OfPool(a: Pool.Action) {
    a.NotifyOne? || a.Acquire? || a.Complete? || a.SpuriousWakeup? || a.Check? || a.SpuriousNotify?
  }

  predicate Enabled(s: ServerState, a: Action) {
    match a
    case Start => s.loop == NotStarted && !s.stopped
    case EnterLoop => s.loop == NotEntered
    case Receive(_) => s.loop == Idle && s.queue.batch == []
    case Submit => s.loop.PastGate?
    case SwapFunctors => s.loop == Idle && s.queue.batch == []
    case RunFunctor => s.loop == Idle && s.queue.batch != []
    case ExitLoop => s.loop == Idle && s.queue.batch == [] && s.quit
    case InPool(step) => OfPool(step) && Pool.Enabled(s.pool, step)
    case RunTask(w, _, _) => Pool.Enabled(s.pool, Pool.RunBody(w)) && s.pool.workers[w].task < |s.jobs|
    case SetStopped => s.main == Serving
    case QueueStopAccepting => s.main == FlagSet
    case QueueGoAway => s.main == NotAccepting
    case BeginWait => s.main == Announced
    case EndWait => s.main.Waiting? && s.main.waiter < |s.pool.waiters| && s.pool.waiters[s.main.waiter] == Pool.Returned
    case QueueStopInLoop => s.main == Waited
    case Quit => s.main == StopQueued
    case JoinLoop => s.main == QuitSet && (s.loop == Exited || s.loop == NotStarted)
    case ClosePool => s.main == LoopJoined
    case WakePool => s.main == ClosedPool && s.pool.core.closed
    case JoinPool => s.main == WokePool && forall w | 0 <= w < |s.pool.workers| :: s.pool.workers[w] == Pool.Exited
  }

  /** What an action does in the pool. */
  function PoolStep(s: ServerState, a: Action): Option<Pool.Action>
    requires Enabled(s, a)
    ensures PoolStep(s, a).Some? ==> Pool.Enabled(s.pool, PoolStep(s, a).value)
  {
    match a
    case Submit => Some(Pool.Submit(|s.jobs|))
    case InPool(step) => Some(step)
    case RunTask(w, _, _) => Some(Pool.RunBody(w))
    case BeginWait => Some(Pool.Arrive)
    case ClosePool => Some(Pool.CloseFlag)
    case WakePool => Some(Pool.Broadcast)
    case _ => None
  }

  /** What an action pushes on the loop's queue. */
  function PushedBy(s: ServerState, a: Action): Option<Functor>
    requires Enabled(s, a)
  {
    match a
    case RunTask(w, body, sent) =>
      var task := s.pool.workers[w].task;
      var reply := ReplyOf(s.jobs[task].request, body);
      if sent && reply.Some? then Some(Reply(task, reply.value)) else None
    case QueueStopAccepting => Some(StopAccepting)
    case QueueGoAway => Some(GoAway)
    case QueueStopInLoop => Some(StopInLoop)
    case _ => None
  }

  function PoolAfter(s: ServerState, a: Action): Pool.PoolState
    requires Enabled(s, a)
  {
    if PoolStep(s, a).Some? then Pool.Next(s.pool, PoolStep(s, a).value) else s.pool
  }

  function QueueAfter(s: ServerState, a: Action): LoopQueue<Functor>
    requires Enabled(s, a)
  {
    if a == SwapFunctors then Swapped(s.queue)
    else if a == RunFunctor then RanFront(s.queue)
    else if PushedBy(s, a).Some? then Pushed(s.queue, PushedBy(s, a).value)
    else s.queue
  }

  function MainAfter(s: ServerState, a: Action): MainStage {
    match a
    case SetStopped => FlagSet
    case QueueStopAccepting => NotAccepting
    case QueueGoAway => Announced
    case BeginWait => Waiting(|s.pool.waiters|)
    case EndWait => Waited
    case QueueStopInLoop => StopQueued
    case Quit => QuitSet
    case JoinLoop => LoopJoined
    case ClosePool => ClosedPool
    case WakePool => WokePool
    case JoinPool => Done
    case _ => s.main
  }

  function LoopAfter(s: ServerState, a: Action): LoopStage {
    match a
    case Start => NotEntered
    case EnterLoop => Idle
    case Receive(job) => (if s.stopped then Idle else PastGate(job))
    case Submit => Idle
    case ExitLoop => Exited
    case _ => s.loop
  }

  function Next(s: ServerState, a: Action): ServerState
    requires Enabled(s, a)
  {
    ServerState(
      PoolAfter(s, a),
      QueueAfter(s, a),
      if a == Submit && |PoolAfter(s, a).accepted| > |s.pool.accepted| then s.jobs + [s.loop.job] else s.jobs,
      if a.RunTask? then s.ran + [Ran(s.pool.workers[a.w].task, a.body, a.sent)] else s.ran,
      s.stopped || a == SetStopped,
      MainAfter(s, a),
      LoopAfter(s, a),
      a == Quit || (s.quit && a != EnterLoop),
      if a == SetStopped then |s.pool.accepted| else s.atStop,
      if a.InPool? && a.step.Check? && s.main == Waiting(a.step.i) && Drained(s.pool.core) then |s.pool.accepted| else s.atDrain)
  }

  function Initial(threads: nat, maxQueue: nat): ServerState {
    ServerState(Pool.Initial(threads, maxQueue), EmptyQueue(), [], [], false, Serving, NotStarted, false, 0, 0)
  }

  function Run(threads: nat, maxQueue: nat, actions: seq<Action>): ServerState {
    if actions == [] then Initial(threads, maxQueue) else
      var s := Run(threads, maxQueue, actions[..|actions| - 1]);
      var a := actions[|actions| - 1];
      if Enabled(s, a) then Next(s, a) else s
  }

  // ---------------------------------------------------------------- what goes out

  /** What the loop thread hands to `sendInLoop`, and of which connections. */
  datatype Emission = Silence | To(conn: Conn, response: RpcResponse) | ToEveryone(response: RpcResponse)

  function ShuttingDown(id: Bytes): RpcResponse { RpcResponse(id, SERVER_SHUTTING_DOWN, Ascii("server shutting down"),
                        []) }

  function Busy(id: Bytes): RpcResponse { RpcResponse(id, SERVER_BUSY, Ascii("Server busy, try again later"), []) }

  function Emitted(s: ServerState, a: Action): Emission
    requires Enabled(s, a)
  {
    match a
    case Receive(job) => if s.stopped then To(job.conn, ShuttingDown(job.request.requestId)) else Silence
    case Submit =>
      if Submitted(s.pool.core, |s.jobs|, s.pool.maxQueue).1 == Accepted then Silence
      else To(s.loop.job.conn, Busy(s.loop.job.request.requestId))
    case RunFunctor =>
      (match s.queue.batch[0]
       case GoAway => ToEveryone(ShuttingDown([]))
       case Reply(task, response) => if task < |s.jobs| then To(s.jobs[task].conn, response) else Silence
       case _ => Silence)
    case _ => Silence
  }
}
