/**
 * Stop returns unless the loop thread overwrites its quit flag: from the moment it is called some thread can
 * always make progress, every such step brings a natural number down, and only new spurious wakeups bring it up.
 */
module ServerProgress {
  import opened EventLoops
  import Pool = PoolProtocol
  import opened ServerProtocol
  import opened ServerTheorems

  // ---------------------------------------------------------------- the quit flag

  /** Stop is past Quit, but the loop has cleared its flag since or will do so when it is entered. */
  predicate Overtaken(s: ServerState) {
    s.main == QuitSet && (s.loop == NotEntered || ((s.loop == Idle || s.loop.PastGate?) && !s.quit))
  }

  /** Quit while the thread has been started and has not entered the loop. */
  predicate EarlyQuit(s: ServerState, a: Action) { a == Quit && Enabled(s, a) && s.loop == NotEntered }

  /** That is the one step that leads there, and none leads back. */
  lemma OnlyEarlyQuitOvertakes(s: ServerState, a: Action)
    requires Enabled(s, a) && (s.stopped <==> s.main != Serving)
    ensures Overtaken(Next(s, a)) <==> Overtaken(s) || EarlyQuit(s, a)
  {
    hide PoolAfter, QueueAfter, PushedBy;
  }

  lemma RunThen(threads: nat, maxQueue: nat, actions: seq<Action>, a: Action)
    ensures var s := Run(threads, maxQueue, actions);
      Run(threads, maxQueue, actions + [a]) == if Enabled(s, a) then Next(s, a) else s
  {
    assert (actions + [a])[..|actions|] == actions;
  }

  lemma StoppedMeansStaged(threads: nat, maxQueue: nat, actions: seq<Action>)
    ensures var s := Run(threads, maxQueue, actions); Staged(s) && (s.stopped <==> s.main != Serving)
  {
    hide Run, Pool.Invariant;
    RunInvariant(threads, maxQueue, actions);
  }

  ghost predicate QuitTooEarly(threads: nat, maxQueue: nat, actions: seq<Action>) {
    exists k :: 0 <= k < |actions| && EarlyQuit(Run(threads, maxQueue, actions[..k]), actions[k])
  }

  lemma QuitTooEarlyGrows(threads: nat, maxQueue: nat, actions: seq<Action>)
    requires actions != []
    ensures var before, a := actions[..|actions| - 1], actions[|actions| - 1];
      QuitTooEarly(threads, maxQueue, actions) <==>
        QuitTooEarly(threads, maxQueue, before) || EarlyQuit(Run(threads, maxQueue, before), a)
  {
    hide EarlyQuit, Run;
    var before := actions[..|actions| - 1];
    assert forall k | 0 <= k < |before| :: actions[..k] == before[..k];
    if QuitTooEarly(threads, maxQueue, before) {
      var k :| 0 <= k < |before| && EarlyQuit(Run(threads, maxQueue, before[..k]), before[k]);
      assert EarlyQuit(Run(threads, maxQueue, actions[..k]), actions[k]);
    }
    if k :| 0 <= k < |actions| && EarlyQuit(Run(threads, maxQueue, actions[..k]), actions[k]) {
      assert k < |before| ==> before[k] == actions[k];
    }
  }

  lemma {:induction false} OvertakenIff(threads: nat, maxQueue: nat, actions: seq<Action>)
    ensures Overtaken(Run(threads, maxQueue, actions)) <==> QuitTooEarly(threads, maxQueue, actions)
  {
    hide Next, Enabled, QuitTooEarly, Overtaken, EarlyQuit, Staged;
    if actions == [] {
      NotOvertakenAtFirst(threads, maxQueue);
    } else {
      var before, a := actions[..|actions| - 1], actions[|actions| - 1];
      OvertakenIff(threads, maxQueue, before);
      QuitTooEarlyGrows(threads, maxQueue, actions);
      NotEnabledNotEarly(Run(threads, maxQueue, before), a);
      if Enabled(Run(threads, maxQueue, before), a) {
        StoppedMeansStaged(threads, maxQueue, before);
        OnlyEarlyQuitOvertakes(Run(threads, maxQueue, before), a);
      }
    }
  }

  lemma NotEnabledNotEarly(s: ServerState, a: Action)
    ensures EarlyQuit(s, a) ==> Enabled(s, a)
  {
  }

  lemma NotOvertakenAtFirst(threads: nat, maxQueue: nat)
    ensures !Overtaken(Initial(threads, maxQueue)) && !QuitTooEarly(threads, maxQueue, [])
  {
  }

  lemma {:induction false} NeverReturns(threads: nat, maxQueue: nat, actions: seq<Action>, more: seq<Action>)
    requires Overtaken(Run(threads, maxQueue, actions))
    ensures Overtaken(Run(threads, maxQueue, actions + more))
  {
    hide Next, Enabled, Overtaken, EarlyQuit, Staged;
    if more == [] {
      assert actions + more == actions;
    } else {
      var before, a := more[..|more| - 1], more[|more| - 1];
      NeverReturns(threads, maxQueue, actions, before);
      assert actions + more == actions + before + [a];
      RunThen(threads, maxQueue, actions + before, a);
      var s := Run(threads, maxQueue, actions + before);
      if Enabled(s, a) {
        StoppedMeansStaged(threads, maxQueue, actions + before);
        OnlyEarlyQuitOvertakes(s, a);
      }
    }
  }

  // ---------------------------------------------------------------- some thread can go on

  predicate Spurious(a: Action) { a.InPool? && (a.step.SpuriousWakeup? || a.step.SpuriousNotify?) }

  /** Progress some thread makes by itself: no new input, no spurious wakeup, and no swap of an empty queue. */
  predicate Internal(s: ServerState, a: Action) {
    && !a.Receive? && !a.Start? && !a.SetStopped? && !Spurious(a)
    && (a.SwapFunctors? ==> s.queue.pending != [])
  }

  /** A step of that kind, Quit not before the loop is entered. */
  predicate GoesOn(s: ServerState, a: Action) { Internal(s, a) && Enabled(s, a) && !EarlyQuit(s, a) }

  ghost predicate CanGoOn(s: ServerState) { exists a :: GoesOn(s, a) }

  lemma RunningIsAccepted(s: ServerState, w: nat)
    requires Numbered(s) && Pool.Invariant(s.pool) && w < |s.pool.workers| && s.pool.workers[w].Running?
    ensures s.pool.workers[w].task < |s.jobs|
  {
    var t := s.pool.workers[w].task;
    Once(s.pool.accepted, |s.pool.accepted|, t);
    JustRanInHand(s.pool.workers, w, t);
    BooksBound(s.pool, t);
  }

  lemma LivePoolGoesOn(s: ServerState)
    requires Numbered(s) && Pool.Invariant(s.pool) && Pool.Live(s.pool)
    ensures CanGoOn(s)
  {
    hide Pool.Invariant;
    if s.pool.notifies > 0 {
      var w: nat := 0;
      if Pool.Sleeps(s.pool.workers) {
        w :| w < |s.pool.workers| && s.pool.workers[w] == Pool.Asleep;
      }
      assert GoesOn(s, InPool(Pool.NotifyOne(w)));
    } else {
      var w: nat :| w < |s.pool.workers| && Pool.CanMove(s.pool, w);
      if s.pool.workers[w].Running? { RunningIsAccepted(s, w); }
      var a :=
        if Pool.Enabled(s.pool, Pool.Acquire(w)) then InPool(Pool.Acquire(w))
        else if Pool.Enabled(s.pool, Pool.RunBody(w)) then RunTask(w, Skipped, false)
        else InPool(Pool.Complete(w));
      assert GoesOn(s, a);
    }
  }

  lemma WaitGoesOn(s: ServerState)
    requires Staged(s) && Numbered(s) && Pool.Invariant(s.pool) && |s.pool.workers| > 0 && s.main.Waiting?
    ensures CanGoOn(s)
  {
    var i := s.main.waiter;
    match s.pool.waiters[i] {
      case Returned => assert GoesOn(s, EndWait);
      case Waiting =>
        Pool.NeverStuck(s.pool);
        LivePoolGoesOn(s);
      case _ => assert GoesOn(s, InPool(Pool.Check(i)));
    }
  }

  lemma TeardownGoesOn(s: ServerState)
    requires Staged(s) && Numbered(s) && Pool.Invariant(s.pool) && |s.pool.workers| > 0
    requires (s.main == QuitSet && !Overtaken(s)) || s.main == WokePool
    ensures CanGoOn(s)
  {
    if s.main == QuitSet {
      var a := if s.loop == Exited || s.loop == NotStarted then JoinLoop else if s.loop.PastGate? then Submit
        else if s.queue.batch != [] then RunFunctor else ExitLoop;
      assert GoesOn(s, a);
    } else if w :| 0 <= w < |s.pool.workers| && s.pool.workers[w] != Pool.Exited {
      Pool.NeverStuck(s.pool);
      LivePoolGoesOn(s);
    } else {
      assert GoesOn(s, JoinPool);
    }
  }

  /**
   * From the moment Stop is called until it returns, some thread can always take a step of its own, unless the
   * loop has overtaken Quit.
   */
  lemma StopNeverStuck(s: ServerState)
    requires Invariant(s) && |s.pool.workers| > 0 && s.stopped && s.main != Done && !Overtaken(s)
    ensures CanGoOn(s)
  {
    if s.main.Waiting? {
      WaitGoesOn(s);
    } else if s.main == QuitSet || s.main == WokePool {
      TeardownGoesOn(s);
    } else {
      hide Pool.Invariant;
      var a :=
        match s.main
        case FlagSet => QueueStopAccepting
        case NotAccepting => QueueGoAway
        case Announced => BeginWait
        case Waited => QueueStopInLoop
        case StopQueued => if s.loop == NotEntered then EnterLoop else Quit
        case LoopJoined => ClosePool
        case _ => WakePool;
      assert GoesOn(s, a);
    }
  }

  // ---------------------------------------------------------------- how much is left to do

  function WorkerWeight(w: Pool.Worker): nat {
    match w
    case Ready => 1
    case Woken => 1
    case Running(_) => 6
    case Ran(_) => 3
    case _ => 0
  }

  function WorkersWeight(ws: seq<Pool.Worker>): nat {
    if ws == [] then 0 else WorkerWeight(ws[0]) + WorkersWeight(ws[1..])
  }

  function WaiterWeight(w: Pool.Waiter): nat { if w == Pool.Calling || w == Pool.Notified then 1 else 0 }

  function WaitersWeight(ws: seq<Pool.Waiter>): nat {
    if ws == [] then 0 else WaiterWeight(ws[0]) + WaitersWeight(ws[1..])
  }

  function PoolWeight(p: Pool.PoolState): nat {
    6 * |p.core.tasks| + 2 * p.notifies + WorkersWeight(p.workers) + WaitersWeight(p.waiters)
  }

  function LoopWeight(l: LoopStage): nat {
    match l
    case NotStarted => 0
    case NotEntered => 2
    case Idle => 1
    case PastGate(_) => 10
    case Exited => 0
  }

  function QueueWeight(q: LoopQueue<Functor>): nat { 2 * |q.pending| + |q.batch| }

  /** A stage of Stop weighs more than everything it can set off. */
  function StageWeight(m: MainStage, workers: nat): (r: nat) { (11 - Rank(m)) * (workers + 10) }

  function Measure(s: ServerState): nat {
    StageWeight(s.main, |s.pool.workers|) + LoopWeight(s.loop) + PoolWeight(s.pool) + QueueWeight(s.queue)
  }

  lemma {:induction false} WorkersWeightUpdate(ws: seq<Pool.Worker>, w: nat, x: Pool.Worker)
    requires w < |ws|
    ensures WorkersWeight(ws[w := x]) == WorkersWeight(ws) - WorkerWeight(ws[w]) + WorkerWeight(x)
  {
    hide WorkerWeight;
    if w == 0 {
      assert ws[0 := x][1..] == ws[1..];
    } else {
      WorkersWeightUpdate(ws[1..], w - 1, x);
      assert ws[w := x][1..] == ws[1..][w - 1 := x];
    }
  }

  lemma {:induction false} RousedWeight(ws: seq<Pool.Worker>)
    ensures WorkersWeight(Pool.Roused(ws)) <= WorkersWeight(ws) + |ws|
  {
    if ws != [] {
      RousedWeight(ws[1..]);
      assert WorkerWeight(Pool.Roused(ws)[0]) <= WorkerWeight(ws[0]) + 1;
      assert Pool.Roused(ws)[1..] == Pool.Roused(ws[1..]);
    }
  }

  /** What a step in the pool adds to its weight, at most. */
  function PoolCost(p: Pool.PoolState, a: Pool.Action): int {
    match a
    case Submit(_) => 8
    case NotifyOne(_) => -1
    case Acquire(_) => -1
    case RunBody(_) => -3
    case Complete(_) => -1
    case Check(_) => -1
    case CloseFlag => 0
    case Broadcast => |p.workers|
    case _ => 1
  }

  lemma SmallWaiters(ws: seq<Pool.Waiter>)
    requires |ws| <= 1
    ensures WaitersWeight(ws) == if ws == [] then 0 else WaiterWeight(ws[0])
  {
    assert ws != [] ==> WaitersWeight(ws[1..]) == 0;
  }

  predicate MovesWorker(a: Pool.Action) { a.NotifyOne? || a.RunBody? || a.SpuriousWakeup? }

  lemma CompleteCosts(p: Pool.PoolState, a: Pool.Action)
    requires Pool.Enabled(p, a) && |p.waiters| <= 1 && a.Complete?
    ensures PoolWeight(Pool.Next(p, a)) <= PoolWeight(p) + PoolCost(p, a)
  {
    var p' := Pool.Next(p, a);
    WorkersWeightUpdate(p.workers, a.w, Pool.Ready);
    hide WorkersWeight, WaitersWeight;
    SmallWaiters(p.waiters);
    SmallWaiters(p'.waiters);
  }

  lemma WorkerStepCosts(p: Pool.PoolState, a: Pool.Action)
    requires Pool.Enabled(p, a) && MovesWorker(a)
    ensures PoolWeight(Pool.Next(p, a)) <= PoolWeight(p) + PoolCost(p, a)
  {
    var p' := Pool.Next(p, a);
    if p'.workers != p.workers { WorkersWeightUpdate(p.workers, a.w, p'.workers[a.w]); }
    hide WorkersWeight, WaitersWeight;
  }

  lemma AcquireCosts(p: Pool.PoolState, a: Pool.Action)
    requires Pool.Enabled(p, a) && a.Acquire?
    ensures PoolWeight(Pool.Next(p, a)) <= PoolWeight(p) + PoolCost(p, a)
  {
    WorkersWeightUpdate(p.workers, a.w, Pool.Next(p, a).workers[a.w]);
    hide WorkersWeight, WaitersWeight;
  }

  lemma OtherStepCosts(p: Pool.PoolState, a: Pool.Action)
    requires Pool.Enabled(p, a) && |Pool.Next(p, a).waiters| <= 1 && !a.Complete? && !a.Acquire? && !MovesWorker(a)
    ensures PoolWeight(Pool.Next(p, a)) <= PoolWeight(p) + PoolCost(p, a)
  {
    hide WorkersWeight, WaitersWeight;
    RousedWeight(p.workers);
    SmallWaiters(Pool.Next(p, a).waiters);
    if |p.waiters| <= 1 { SmallWaiters(p.waiters); }
  }

  lemma PoolStepCosts(p: Pool.PoolState, a: Pool.Action)
    requires Pool.Enabled(p, a) && |p.waiters| <= 1 && |Pool.Next(p, a).waiters| <= 1
    ensures PoolWeight(Pool.Next(p, a)) <= PoolWeight(p) + PoolCost(p, a)
  {
    hide Pool.Next, Pool.Enabled, PoolWeight, PoolCost;
    if a.Complete? {
      CompleteCosts(p, a);
    } else if a.Acquire? {
      AcquireCosts(p, a);
    } else if MovesWorker(a) {
      WorkerStepCosts(p, a);
    } else {
      OtherStepCosts(p, a);
    }
  }

  lemma MainStep(s: ServerState, a: Action)
    requires Enabled(s, a)
    ensures var m, n := MainAfter(s, a), |s.pool.workers|;
      if m == s.main then StageWeight(m, n) == StageWeight(s.main, n)
      else StageWeight(m, n) == StageWeight(s.main, n) - n - 10
  {
    hide PoolStep, QueueAfter;
    var m, n := MainAfter(s, a), |s.pool.workers|;
    if Rank(m) == Rank(s.main) + 1 {
      assert (11 - Rank(s.main)) * (n + 10) == (11 - Rank(m)) * (n + 10) + (n + 10);
    }
  }

  lemma QueueStep(s: ServerState, a: Action)
    requires Enabled(s, a)
    ensures QueueWeight(QueueAfter(s, a)) ==
      if a == SwapFunctors then |s.queue.pending|
      else if a == RunFunctor then QueueWeight(s.queue) - 1
      else if PushedBy(s, a).Some? then QueueWeight(s.queue) + 2
      else QueueWeight(s.queue)
  {
    hide PushedBy;
  }

  function Cost(b: bool): nat { if b then 1 else 0 }

  lemma PoolPart(s: ServerState, a: Action)
    requires Enabled(s, a) && Staged(s)
    ensures PoolWeight(PoolAfter(s, a)) <= PoolWeight(s.pool) + (if PoolStep(s, a).Some? then PoolCost(s.pool, PoolStep(s, a).value) else 0)
    ensures |PoolAfter(s, a).workers| == |s.pool.workers|
  {
    NextKeepsStaged(s, a);
    assert |Next(s, a).pool.waiters| <= 1 && |s.pool.waiters| <= 1;
    hide Staged, PoolWeight, QueueAfter, MainAfter, LoopAfter, Pool.Next, Pool.Enabled, PoolStep, PoolCost;
    if PoolStep(s, a).Some? {
      PoolStaged(s.pool, PoolStep(s, a).value);
      PoolStepCosts(s.pool, PoolStep(s, a).value);
    }
  }

  function LoopDelta(a: Action): int {
    match a
    case Start => 2
    case EnterLoop => -1
    case Receive(_) => 9
    case Submit => -9
    case ExitLoop => -1
    case _ => 0
  }

  lemma LoopStep(s: ServerState, a: Action)
    requires Enabled(s, a)
    ensures LoopWeight(LoopAfter(s, a)) == LoopWeight(s.loop) + (if a.Receive? && s.stopped then 0 else LoopDelta(a))
  {
  }

  /** What a step adds to everything but the weight of Stop's stage, which pays for it. */
  lemma PartsAddUp(s: ServerState, a: Action)
    requires Enabled(s, a) && s.stopped
    ensures (if PoolStep(s, a).Some? then PoolCost(s.pool, PoolStep(s, a).value) else 0)
      + (if a == SwapFunctors then -|s.queue.pending| else if a == RunFunctor then -1 else if PushedBy(s, a).Some? then 2 else 0)
      + (if a.Receive? then 0 else LoopDelta(a)) + Cost(Internal(s, a))
      <= Cost(Spurious(a)) + (if MainAfter(s, a) == s.main then 0 else |s.pool.workers| + 10)
  {
    hide Pool.Enabled;
  }

  /** Once Stop is called, progress lowers the measure and nothing but a spurious wakeup raises it. */
  lemma StepMeasure(s: ServerState, a: Action)
    requires Enabled(s, a) && Staged(s) && s.stopped
    ensures Measure(Next(s, a)) + Cost(Internal(s, a)) <= Measure(s) + Cost(Spurious(a))
  {
    PartsAddUp(s, a);
    MainStep(s, a);
    QueueStep(s, a);
    LoopStep(s, a);
    PoolPart(s, a);
    SwapWeight(s);
    hide Staged, StageWeight, QueueWeight, PoolWeight, LoopWeight, PoolAfter, QueueAfter, LoopAfter, MainAfter, PoolStep,
         PushedBy, PoolCost, LoopDelta, Internal, Spurious;
  }

  lemma SwapWeight(s: ServerState)
    ensures Enabled(s, SwapFunctors) ==> QueueWeight(s.queue) == 2 * |s.queue.pending|
  {
  }

  // ---------------------------------------------------------------- Stop returns

  function InternalSteps(threads: nat, maxQueue: nat, actions: seq<Action>, more: seq<Action>): nat {
    if more == [] then 0 else
      var before, a := more[..|more| - 1], more[|more| - 1];
      var s := Run(threads, maxQueue, actions + before);
      InternalSteps(threads, maxQueue, actions, before) + Cost(Enabled(s, a) && Internal(s, a))
  }

  function SpuriousSteps(more: seq<Action>): nat {
    if more == [] then 0 else SpuriousSteps(more[..|more| - 1]) + Cost(Spurious(more[|more| - 1]))
  }

  lemma StaysStopped(s: ServerState, a: Action)
    requires Enabled(s, a) && s.stopped
    ensures Next(s, a).stopped
  {
  }

  /**
   * However the threads are scheduled after Stop is called, and whatever requests still arrive, they take no
   * more steps of their own than the measure allows, plus one for every spurious wakeup.
   */
  lemma {:induction false} StepsAreBounded(threads: nat, maxQueue: nat, actions: seq<Action>, more: seq<Action>)
    requires Run(threads, maxQueue, actions).stopped
    ensures var s, t := Run(threads, maxQueue, actions), Run(threads, maxQueue, actions + more);
      && t.stopped
      && Measure(t) + InternalSteps(threads, maxQueue, actions, more) <= Measure(s) + SpuriousSteps(more)
  {
    hide Next, Enabled, Measure, Internal, Spurious, Invariant;
    if more == [] {
      assert actions + more == actions;
    } else {
      var before, a := more[..|more| - 1], more[|more| - 1];
      assert (actions + more)[..|actions + more| - 1] == actions + before;
      StepsAreBounded(threads, maxQueue, actions, before);
      var s := Run(threads, maxQueue, actions + before);
      if Enabled(s, a) {
        RunInvariant(threads, maxQueue, actions + before);
        InvariantStaged(s);
        StepMeasure(s, a);
        StaysStopped(s, a);
      }
    }
  }

  lemma InvariantStaged(s: ServerState)
    requires Invariant(s)
    ensures Staged(s)
  {
    hide Staged;
  }

  /**
   * From every state after the call of Stop it can be brought to return by at most `Measure` steps of its threads,
   * unless Quit came before the loop was entered.
   */
  lemma {:induction false} StopReturns(threads: nat, maxQueue: nat, actions: seq<Action>) returns (more: seq<Action>)
    requires threads > 0 && Run(threads, maxQueue, actions).stopped && !Overtaken(Run(threads, maxQueue, actions))
    ensures Run(threads, maxQueue, actions + more).main == Done
    ensures |more| <= Measure(Run(threads, maxQueue, actions))
    ensures InternalSteps(threads, maxQueue, actions, more) == |more|
    decreases Measure(Run(threads, maxQueue, actions))
  {
    hide Run, Next, Enabled, Measure, Internal, Invariant, Overtaken, EarlyQuit;
    var s := Run(threads, maxQueue, actions);
    if s.main == Done {
      more := [];
      assert actions + more == actions;
    } else {
      RunInvariant(threads, maxQueue, actions);
      StopNeverStuck(s);
      var a :| GoesOn(s, a);
      GoingOn(threads, maxQueue, actions, a);
      var rest := StopReturns(threads, maxQueue, actions + [a]);
      more := [a] + rest;
      assert actions + [a] + rest == actions + more;
      InternalStepsJoin(threads, maxQueue, actions, a, rest);
    }
  }

  /** Threads going on by themselves, with Quit not before the loop is entered, do not get Stop overtaken. */
  lemma GoingOn(threads: nat, maxQueue: nat, actions: seq<Action>, a: Action)
    requires var s := Run(threads, maxQueue, actions); s.stopped && !Overtaken(s) && GoesOn(s, a)
    ensures var s, t := Run(threads, maxQueue, actions), Run(threads, maxQueue, actions + [a]);
      t.stopped && !Overtaken(t) && Measure(t) < Measure(s)
  {
    hide Next, Enabled, Measure, Invariant, Staged, Overtaken, EarlyQuit, Internal, Spurious;
    var s := Run(threads, maxQueue, actions);
    RunThen(threads, maxQueue, actions, a);
    StoppedMeansStaged(threads, maxQueue, actions);
    StepMeasure(s, a);
    StaysStopped(s, a);
    InternalNotSpurious(s, a);
    OnlyEarlyQuitOvertakes(s, a);
  }

  /** Once it is called, Stop can return if and only if Quit was not called between start and entry of the loop. */
  lemma StopReturnsIff(threads: nat, maxQueue: nat, actions: seq<Action>)
    requires threads > 0 && Run(threads, maxQueue, actions).stopped
    ensures (exists more :: Run(threads, maxQueue, actions + more).main == Done) <==> !QuitTooEarly(threads, maxQueue, actions)
  {
    hide Run, QuitTooEarly;
    OvertakenIff(threads, maxQueue, actions);
    if more :| Run(threads, maxQueue, actions + more).main == Done {
      if Overtaken(Run(threads, maxQueue, actions)) { NeverReturns(threads, maxQueue, actions, more); }
    }
    if !Overtaken(Run(threads, maxQueue, actions)) {
      var more := StopReturns(threads, maxQueue, actions);
    }
  }

  /**
   * A loop that was entered, or never started, when Stop was called is never too late: in no schedule is Stop
   * overtaken, so until it returns some thread can go on.
   */
  lemma {:induction false} EnteredInTime(threads: nat, maxQueue: nat, actions: seq<Action>, more: seq<Action>)
    requires threads > 0
    requires var s := Run(threads, maxQueue, actions); s.stopped && s.loop != NotEntered && !Overtaken(s)
    ensures var s := Run(threads, maxQueue, actions + more);
      s.stopped && s.loop != NotEntered && !Overtaken(s) && (s.main == Done || CanGoOn(s))
  {
    hide Next, Enabled, Overtaken, EarlyQuit, Staged, Invariant, CanGoOn;
    if more == [] {
      assert actions + more == actions;
    } else {
      var before, a := more[..|more| - 1], more[|more| - 1];
      EnteredInTime(threads, maxQueue, actions, before);
      assert actions + more == actions + before + [a];
      RunThen(threads, maxQueue, actions + before, a);
      var s := Run(threads, maxQueue, actions + before);
      if Enabled(s, a) {
        StoppedMeansStaged(threads, maxQueue, actions + before);
        OnlyEarlyQuitOvertakes(s, a);
        StaysEntered(s, a);
      }
    }
    RunInvariant(threads, maxQueue, actions + more);
    if Run(threads, maxQueue, actions + more).main != Done { StopNeverStuck(Run(threads, maxQueue, actions + more)); }
  }

  lemma StaysEntered(s: ServerState, a: Action)
    requires Enabled(s, a) && s.stopped && s.loop != NotEntered
    ensures Next(s, a).loop != NotEntered && Next(s, a).stopped && !EarlyQuit(s, a)
  {
    hide PoolAfter, QueueAfter, MainAfter;
  }

  lemma InternalNotSpurious(s: ServerState, a: Action)
    requires Internal(s, a)
    ensures !Spurious(a)
  {
  }

  lemma {:induction false} InternalStepsJoin(threads: nat, maxQueue: nat, actions: seq<Action>, a: Action, rest: seq<Action>)
    ensures InternalSteps(threads, maxQueue, actions, [a] + rest) ==
      Cost(Enabled(Run(threads, maxQueue, actions), a) && Internal(Run(threads, maxQueue, actions), a))
        + InternalSteps(threads, maxQueue, actions + [a], rest)
  {
    hide Run, Enabled, Internal;
    if rest == [] {
      assert [a] + rest == [a] && [a][..0] == [] && actions + [] == actions;
      assert InternalSteps(threads, maxQueue, actions, [a][..0]) == 0;
    } else {
      var n := |rest| - 1;
      InternalStepsJoin(threads, maxQueue, actions, a, rest[..n]);
      assert ([a] + rest)[..n + 1] == [a] + rest[..n];
      assert actions + [a] + rest[..n] == actions + ([a] + rest[..n]);
    }
  }
}
