/**
 * What the server's loop leaves behind (code/network/core/event_loop.cc): the functors it never runs when it is
 * told to quit, and the Stop it never lets return when it is entered too late to be told.
 */
module ServerExit {
  import opened EventLoops
  import opened ThreadPools
  import Pool = PoolProtocol
  import opened ServerProtocol
  import opened ServerTheorems
  import opened ServerProgress

  // ---------------------------------------------------------------- functors left behind

  lemma ExitedStays(s: ServerState, a: Action)
    requires Enabled(s, a) && s.loop == Exited
    ensures Next(s, a).loop == Exited && Next(s, a).queue.executed == s.queue.executed
  {
    hide PoolAfter, PushedBy, MainAfter;
  }

  /** A loop that has left runs nothing more. */
  lemma {:induction false} ExitedRunsNothing(threads: nat, maxQueue: nat, actions: seq<Action>, more: seq<Action>)
    requires Run(threads, maxQueue, actions).loop == Exited
    ensures var s, t := Run(threads, maxQueue, actions), Run(threads, maxQueue, actions + more);
      t.loop == Exited && t.queue.executed == s.queue.executed
  {
    hide Next, Enabled;
    if more == [] {
      assert actions + more == actions;
    } else {
      var before, a := more[..|more| - 1], more[|more| - 1];
      ExitedRunsNothing(threads, maxQueue, actions, before);
      assert actions + more == actions + before + [a];
      RunThen(threads, maxQueue, actions + before, a);
      if Enabled(Run(threads, maxQueue, actions + before), a) { ExitedStays(Run(threads, maxQueue, actions + before), a); }
    }
  }

  /**
   * What the loop ever runs is fixed by the step in which it leaves: of everything pushed until then all but what
   * was pushed since the last swap, so all of it if and only if nothing was pending at that step.
   */
  lemma ExitLosesPending(threads: nat, maxQueue: nat, actions: seq<Action>, more: seq<Action>)
    requires Enabled(Run(threads, maxQueue, actions), ExitLoop)
    ensures var s, t := Run(threads, maxQueue, actions), Run(threads, maxQueue, actions + [ExitLoop] + more);
      && Pushes(threads, maxQueue, actions) == t.queue.executed + s.queue.pending
      && (t.queue.executed == Pushes(threads, maxQueue, actions) <==> s.queue.pending == [])
  {
    var s := Run(threads, maxQueue, actions);
    assert s.queue.batch == [] && Next(s, ExitLoop).loop == Exited && Next(s, ExitLoop).queue == s.queue;
    hide Run, Next;
    RunThen(threads, maxQueue, actions, ExitLoop);
    ExitedRunsNothing(threads, maxQueue, actions + [ExitLoop], more);
    EnqueuedIsPushes(threads, maxQueue, actions);
    assert s.queue.executed + [] == s.queue.executed;
  }

  // ---------------------------------------------------------------- Stop on a server with nothing to do

  /** The thread in Stop all the way to Quit, WaitForTasks finding the pool drained at once. */
  function ToQuit(): seq<Action> {
    [SetStopped, QueueStopAccepting, QueueGoAway, BeginWait, InPool(Pool.Check(0)), EndWait, QueueStopInLoop, Quit]
  }

  /** Where it is after `k` of those steps, while the loop thread stays at `l`. */
  predicate StopAt(s: ServerState, l: LoopStage, k: nat) {
    && s.loop == l && s.queue.batch == [] && s.queue.executed == [] && PoolAt(s.pool, k)
    && s.main == StageAt(k) && s.stopped == (k >= 1) && s.quit == (k == 8)
    && (k >= 7 ==> StopInLoop in s.queue.pending)
  }

  predicate PoolAt(p: Pool.PoolState, k: nat) {
    Drained(p.core) && p.waiters == (if k < 4 then [] else if k == 4 then [Pool.Calling] else [Pool.Returned])
  }

  function StageAt(k: nat): MainStage {
    match k
    case 0 => Serving
    case 1 => FlagSet
    case 2 => NotAccepting
    case 3 => Announced
    case 4 => Waiting(0)
    case 5 => Waiting(0)
    case 6 => Waited
    case 7 => StopQueued
    case _ => QuitSet
  }

  lemma ToQuitPool(s: ServerState, l: LoopStage, k: nat)
    requires k < 8 && StopAt(s, l, k)
    ensures Enabled(s, ToQuit()[k]) && PoolAt(PoolAfter(s, ToQuit()[k]), k + 1)
  {
  }

  lemma ToQuitStep(s: ServerState, l: LoopStage, k: nat)
    requires k < 8 && StopAt(s, l, k)
    ensures Enabled(s, ToQuit()[k]) && StopAt(Next(s, ToQuit()[k]), l, k + 1)
  {
    ToQuitPool(s, l, k);
    hide Enabled, PoolAfter, PoolAt;
  }

  lemma {:induction false} ToQuitRun(threads: nat, maxQueue: nat, actions: seq<Action>, l: LoopStage, k: nat)
    requires StopAt(Run(threads, maxQueue, actions), l, 0) && k <= 8
    ensures StopAt(Run(threads, maxQueue, actions + ToQuit()[..k]), l, k)
  {
    ToQuitLength();
    hide Run, Next, Enabled, StopAt, ToQuit;
    if k == 0 {
      assert actions + ToQuit()[..0] == actions;
    } else {
      var before := actions + ToQuit()[..k - 1];
      ToQuitRun(threads, maxQueue, actions, l, k - 1);
      ToQuitStep(Run(threads, maxQueue, before), l, k - 1);
      assert actions + ToQuit()[..k] == before + [ToQuit()[k - 1]];
      RunThen(threads, maxQueue, before, ToQuit()[k - 1]);
    }
  }

  lemma ToQuitLength()
    ensures |ToQuit()| == 8
  {
  }

  lemma Started(threads: nat, maxQueue: nat)
    ensures StopAt(Run(threads, maxQueue, [Start]), NotEntered, 0)
    ensures StopAt(Run(threads, maxQueue, [Start, EnterLoop]), Idle, 0)
  {
    var begin: seq<Action> := [];
    RunThen(threads, maxQueue, begin, Start);
    RunThen(threads, maxQueue, [Start], EnterLoop);
    assert begin + [Start] == [Start] && [Start] + [EnterLoop] == [Start, EnterLoop];
  }

  /** Started and stopped before the thread has entered the loop: Stop never returns, whatever happens next. */
  lemma HastyStopHangs(threads: nat, maxQueue: nat, more: seq<Action>)
    ensures Run(threads, maxQueue, [Start] + ToQuit() + more).main == QuitSet
  {
    Started(threads, maxQueue);
    hide Run, ToQuit;
    ToQuitLength();
    ToQuitRun(threads, maxQueue, [Start], NotEntered, 8);
    assert ToQuit()[..8] == ToQuit();
    NeverReturns(threads, maxQueue, [Start] + ToQuit(), more);
  }

  /**
   * Stopped while the loop is past its last swap: Stop returns, and the functor that closes the connections,
   * pushed before Quit, is never run.
   */
  lemma StoppedUnswept(threads: nat, maxQueue: nat) returns (actions: seq<Action>)
    requires threads > 0
    ensures var s := Run(threads, maxQueue, actions);
      s.main == Done && StopInLoop in Pushes(threads, maxQueue, actions) && s.queue.executed == []
  {
    Started(threads, maxQueue);
    hide Run, Next, ToQuit;
    ToQuitLength();
    var quit := [Start, EnterLoop] + ToQuit();
    ToQuitRun(threads, maxQueue, [Start, EnterLoop], Idle, 8);
    assert ToQuit()[..8] == ToQuit();
    var left := quit + [ExitLoop];
    Leaves(threads, maxQueue, quit);
    var more := StopReturns(threads, maxQueue, left);
    actions := left + more;
    ExitedRunsNothing(threads, maxQueue, left, more);
    PushesGrow(threads, maxQueue, left, more);
    EnqueuedIsPushes(threads, maxQueue, left);
  }

  lemma Leaves(threads: nat, maxQueue: nat, quit: seq<Action>)
    requires StopAt(Run(threads, maxQueue, quit), Idle, 8)
    ensures var s := Run(threads, maxQueue, quit + [ExitLoop]);
      && s.loop == Exited && s.stopped && !Overtaken(s) && s.queue.executed == []
      && StopInLoop in s.queue.Enqueued()
  {
    hide Run, PoolAfter;
    RunThen(threads, maxQueue, quit, ExitLoop);
  }

  lemma {:induction false} PushesGrow(threads: nat, maxQueue: nat, actions: seq<Action>, more: seq<Action>)
    ensures Pushes(threads, maxQueue, actions) <= Pushes(threads, maxQueue, actions + more)
  {
    hide Run, Enabled, PushedBy;
    if more == [] {
      assert actions + more == actions;
    } else {
      PushesGrow(threads, maxQueue, actions, more[..|more| - 1]);
      assert (actions + more)[..|actions + more| - 1] == actions + more[..|more| - 1];
    }
  }
}
