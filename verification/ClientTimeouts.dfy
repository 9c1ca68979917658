/** A call does not time out early (code/rpc/rpc_client.cc:70-93): the lower bound beside ClientTimers' upper one. */
module ClientTimeouts {
  import opened Basics
  import opened EventLoops
  import opened CallLedger
  import opened TimingWheel
  import opened WheelIntegrity
  import opened WheelCountdown
  import opened ClientProtocol
  import opened ClientTheorems
  import opened ClientTimers
  import opened ClientOutcomes
  import WT = WheelTiming

  /** A call has one node at most. */
  ghost predicate OneNodeEach(s: ClientState) {
    && (forall h, k | h in s.timerOf && k in s.timerOf && s.timerOf[h] == s.timerOf[k] :: h == k)
    && (forall h | h in s.timerOf :: h < s.wheel.nextHandle)
  }

  lemma NextKeepsOneNode(tid: TimerIds, s: ClientState, a: Action)
    requires Enabled(s, a) && OneNodeEach(s) && NodesArmed(s) && HandedOver(s) && WellFormed(s.wheel)
    ensures OneNodeEach(Next(tid, s, a))
  {
    assert Next(tid, s, a).wheel == WheelAfter(tid, s, a) && Next(tid, s, a).timerOf == TimerOfAfter(tid, s, a);
    NodesAfter(tid, s, a, 0, 0);
    if Arms(s, a).Some? { FrontIsNew(s); }
    hide Next, WellFormed, WheelAfter, WT.Carries, StageOk, Enabled;
  }

  lemma {:induction false} RunOneNode(tid: TimerIds, actions: seq<Action>)
    ensures OneNodeEach(Run(tid, actions))
  {
    hide Next, Enabled, OneNodeEach, NodesArmed, HandedOver, RemovalsSafe, Balanced;
    if actions == [] {
      NoNodeYet();
    } else {
      var before, a := actions[..|actions| - 1], actions[|actions| - 1];
      RunOneNode(tid, before);
      if Enabled(Run(tid, before), a) {
        RunNodesArmed(tid, before);
        RunHandedOver(tid, before);
        RunTimers(tid, before);
        NextKeepsOneNode(tid, Run(tid, before), a);
      }
    }
  }

  lemma NoNodeYet()
    ensures OneNodeEach(Initial())
  {
  }

  lemma NodeKept(tid: TimerIds, s: ClientState, a: Action, h: nat)
    requires Enabled(s, a) && WellFormed(s.wheel) && h in s.timerOf && h < s.wheel.nextHandle
    ensures var t := Next(tid, s, a); h in t.timerOf && t.timerOf[h] == s.timerOf[h] && h < t.wheel.nextHandle
  {
    assert Next(tid, s, a).wheel == WheelAfter(tid, s, a) && Next(tid, s, a).timerOf == TimerOfAfter(tid, s, a);
    NodesAfter(tid, s, a, 0, 0);
    TimerOfGrows(tid, s, a, h);
    hide Next, WellFormed, WheelAfter, TimerOfAfter, WT.Carries, Enabled;
  }

  lemma {:induction false} StaysNode(tid: TimerIds, actions: seq<Action>, more: seq<Action>, h: nat)
    requires h in Run(tid, actions).timerOf && h < Run(tid, actions).wheel.nextHandle
    ensures var s, t := Run(tid, actions), Run(tid, actions + more);
      h in t.timerOf && t.timerOf[h] == s.timerOf[h] && h < t.wheel.nextHandle
  {
    hide Run, Next, Enabled, WellFormed, RemovalsSafe, Balanced, WT.Carries;
    if more == [] {
      assert actions + more == actions;
    } else {
      RunSnoc(tid, actions, more);
      var s, a := Run(tid, actions + more[..|more| - 1]), more[|more| - 1];
      StaysNode(tid, actions, more[..|more| - 1], h);
      RunTimers(tid, actions + more[..|more| - 1]);
      if Enabled(s, a) { NodeKept(tid, s, a, h); }
    }
  }

  lemma ArmingMakesNode(tid: TimerIds, s: ClientState, now: int, id: Id)
    requires AboutToArm(s, id) && tid(id) !in s.wheel.index
    ensures var r := Next(tid, s, RunFunctor(now));
      s.wheel.nextHandle in r.timerOf && r.timerOf[s.wheel.nextHandle] == id && s.wheel.nextHandle < r.wheel.nextHandle
  {
    hide LedgerAfter, CallsAfter, QueueAfter, LoopAfter, StopAfter, ConnectedAfter;
  }

  /**
   * A call with timeout d does not time out early: the tick in which its timer fires starts more than d after the last
   * tick at its arming, or reads the clock at d or more after its arming. Ticks are assumed not to go back.
   */
  lemma NotTimedOutEarly(tid: TimerIds, actions: seq<Action>, s0: ClientState, now: int, more: seq<Action>, s: ClientState,
                         a: Action, id: Id)
    requires s0 == Run(tid, actions) && AboutToArm(s0, id) && tid(id) !in s0.wheel.index
    requires s == Run(tid, actions + [RunFunctor(now)] + more) && Ground(s, a, id, TimedOut)
    requires var w := AfterAdd(s0.wheel, tid(id), s0.calls[id].timeoutMs, now);
      WT.Monotone(w, OpsOf(tid, actions + [RunFunctor(now)], more) + [WT.TickOp(a.now, a.clock)])
    ensures var d := s0.calls[id].timeoutMs * NS_PER_MS;
      || a.now > s0.wheel.lastTick + d
      || exists t: nat :: t < StepsIn(s.wheel, a.now) && a.clock(t, s0.wheel.nextHandle) >= now + d
  {
    var armed, h := actions + [RunFunctor(now)], s0.wheel.nextHandle;
    ArmedRun(tid, actions, s0, now, id);
    ArmingMakesNode(tid, s0, now, id);
    var k :| k in s.timerOf && s.timerOf[k] == id && Times(TickFired(s.wheel, a.now, a.clock), k) > 0;
    hide Run, Next, Enabled, OpsOf, WT.Monotone, WT.Run, TimersSound, AfterAdd, TickFired, Times, OneNodeEach;
    StaysNode(tid, armed, more, h);
    RunOneNode(tid, armed + more);
    OneNode(s, h, k);
    WheelFollows(tid, armed, more);
    WheelSound(tid, actions);
    var op := WT.TickOp(a.now, a.clock);
    assert WT.Fires(s.wheel, op) == TickFired(s.wheel, a.now, a.clock);
    WT.NeverBeforeLastTickPlusDelay(s0.wheel, tid(id), s0.calls[id].timeoutMs, now, OpsOf(tid, armed, more), op);
  }

  lemma OneNode(s: ClientState, h: nat, k: nat)
    requires OneNodeEach(s) && h in s.timerOf && k in s.timerOf && s.timerOf[h] == s.timerOf[k]
    ensures h == k
  {
  }

  lemma WheelSound(tid: TimerIds, actions: seq<Action>)
    ensures WellFormed(Run(tid, actions).wheel)
  {
    hide Run, RemovalsSafe, Balanced, WellFormed, WT.Carries;
    RunTimers(tid, actions);
  }

  // ---------------------------------------------------------------- and it can time out

  lemma {:induction false} DroppedStaysDropped(m: Countdowns, clock: Clock, j: nat, k: nat, h: nat)
    requires j <= k && h in CountdownAdvance(m, clock, k)
    ensures h in CountdownAdvance(m, clock, j)
  {
    if j < k { DroppedStaysDropped(m, clock, j, k - 1, h); }
  }

  lemma DueDrops(m: Countdowns, clock: Clock, j: nat, h: nat)
    requires h in CountdownAdvance(m, clock, j) && IsDue(CountdownAdvance(m, clock, j)[h], clock(j, h))
    ensures h !in CountdownAdvance(m, clock, j + 1)
  {
  }

  lemma WholeTurns(remaining: nat)
    ensures var j := remaining % WHEEL_SIZE; 0 <= j < WHEEL_SIZE && (remaining - j) % WHEEL_SIZE == 0
  {
  }

  /** Once its expiry has passed, one turn of the wheel is enough, whatever rounds are left. */
  lemma FullTurn(m: Countdowns, clock: Clock, h: nat)
    requires h in m && forall t: nat :: clock(t, h) >= m[h].expire
    ensures h !in CountdownAdvance(m, clock, WHEEL_SIZE)
  {
    hide CountdownAdvance;
    var j: nat := m[h].remaining % WHEEL_SIZE;
    WholeTurns(m[h].remaining);
    if h in CountdownAdvance(m, clock, WHEEL_SIZE) {
      DroppedStaysDropped(m, clock, j + 1, WHEEL_SIZE, h);
      DroppedStaysDropped(m, clock, j, WHEEL_SIZE, h);
      WT.CountdownAt(m, clock, j, h);
      DueDrops(m, clock, j, h);
      assert false;
    }
  }

  /** A tick one turn later, with the clock past the expiry of node `h`. */
  lemma TurnFires(w: Wheel, h: nat, t: int) returns (now: int, clock: Clock)
    requires w.Shape() && WellFormed(w) && w.tickMs == TICK_MS && WT.Carries(w, h, t)
    ensures Times(TickFired(w, now, clock), h) > 0
  {
    var m := WT.ViewOf(w);
    WT.ViewRefines(w);
    WT.CarriesView(w, m, h, t);
    now := w.lastTick + WHEEL_SIZE * TICK_MS * NS_PER_MS;
    var due := m[h].expire;
    clock := (_, _) => due;
    assert StepsIn(w, now) == WHEEL_SIZE;
    hide WellFormed, Refines, WT.ViewOf, WT.Carries, CountdownAdvance, AdvanceFired, Times;
    FullTurn(m, clock, h);
    AdvanceFires(w, m, clock, WHEEL_SIZE, h);
  }

  lemma RunOne(tid: TimerIds, actions: seq<Action>, a: Action)
    requires Enabled(Run(tid, actions), a)
    ensures Run(tid, actions + [a]) == Next(tid, Run(tid, actions), a)
  {
    assert (actions + [a])[..|actions|] == actions;
    hide Enabled, Next;
  }

  /** Taking the callback of the first fired timer out. */
  lemma TakesDue(tid: TimerIds, s: ClientState, id: Id)
    requires s.loopStage.Ticking? && s.loopStage.due != [] && id in s.ledger.pending
    ensures Enabled(s, TakeTimedOut)
    ensures var s1 := Next(tid, s, TakeTimedOut);
      && s1.loopStage == Firing(s.loopStage.due[0], s.loopStage.due[1..])
      && if s.loopStage.due[0] == id then id in s1.ledger.Held(Loop) else id in s1.ledger.pending
  {
    NextParts(tid, s, TakeTimedOut);
    TakeOneMoves(s.ledger, Loop, s.loopStage.due[0], id);
    hide Next, TakeOne, StopAfter;
  }

  /** And invoking it. */
  lemma InvokesDue(tid: TimerIds, s: ClientState, id: Id)
    requires s.loopStage.Firing?
    requires if s.loopStage.id == id then id in s.ledger.Held(Loop) else id in s.ledger.pending
    ensures Enabled(s, InvokeTimedOut)
    ensures var s1 := Next(tid, s, InvokeTimedOut);
      && s1.loopStage == Ticking(s.loopStage.due)
      && if s.loopStage.id == id then id in s1.ledger.delivered && s1.ledger.delivered[id] == Told(TimedOut, id)
        else id in s1.ledger.pending
  {
    NextParts(tid, s, InvokeTimedOut);
    InvokeMoves(s.ledger, Loop, s.loopStage.id, Told(TimedOut, s.loopStage.id), id);
    hide Next, Invoke, StopAfter, Ascii;
  }

  /** The loop works off the fired timers up to that of call `id`. */
  lemma {:induction false} CallbacksRun(tid: TimerIds, actions: seq<Action>, id: Id) returns (all: seq<Action>)
    requires var s := Run(tid, actions); s.loopStage.Ticking? && id in s.loopStage.due && id in s.ledger.pending
    ensures actions <= all
    ensures var l := Run(tid, all).ledger; id in l.delivered && l.delivered[id] == Told(TimedOut, id)
    decreases Run(tid, actions).loopStage.due
  {
    var s := Run(tid, actions);
    hide Run, Next, Enabled, Told;
    TakesDue(tid, s, id);
    RunOne(tid, actions, TakeTimedOut);
    InvokesDue(tid, Next(tid, s, TakeTimedOut), id);
    RunOne(tid, actions + [TakeTimedOut], InvokeTimedOut);
    all := actions + [TakeTimedOut] + [InvokeTimedOut];
    if s.loopStage.due[0] != id {
      all := CallbacksRun(tid, all, id);
    }
  }

  lemma TickBegins(tid: TimerIds, s: ClientState, now: int, clock: Clock, h: nat)
    requires s.loopStage == Idle && h in s.timerOf && Times(TickFired(s.wheel, now, clock), h) > 0
    ensures Enabled(s, Tick(now, clock))
    ensures var r := Next(tid, s, Tick(now, clock));
      r.loopStage.Ticking? && s.timerOf[h] in r.loopStage.due && r.ledger == s.ledger
  {
    NextParts(tid, s, Tick(now, clock));
    FiringIsImminent(tid, s, Tick(now, clock), h);
    hide Next, TickFired, Times, DueIds;
  }

  /**
   * Timeouts do happen: from every state of a run in which the loop is between callbacks, a pending call with a live
   * node is told that it timed out after one more tick, a turn of the wheel later with its expiry passed, and the
   * callbacks that tick has due.
   */
  lemma CanTimeOut(tid: TimerIds, actions: seq<Action>, s: ClientState, h: nat, id: Id) returns (all: seq<Action>)
    requires s == Run(tid, actions) && s.loopStage == Idle && id in s.ledger.pending && HasTimer(tid, s, h, id)
    ensures actions <= all
    ensures var l := Run(tid, all).ledger; id in l.delivered && l.delivered[id] == Told(TimedOut, id)
  {
    WheelSound(tid, actions);
    RunTick(tid, actions);
    var now, clock := TurnFires(s.wheel, h, tid(id));
    hide Run, Next, Enabled, WellFormed, WT.Carries, Told, TickFired, Times;
    TickBegins(tid, s, now, clock, h);
    RunOne(tid, actions, Tick(now, clock));
    all := CallbacksRun(tid, actions + [Tick(now, clock)], id);
  }
}
