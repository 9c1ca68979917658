/**
 * The timer of a call that is over is taken out of the wheel (code/rpc/rpc_client.cc), for good, as long as no timer
 * id is reused while the wheel still holds a removed timer with it.
 */
module ClientDisarms {
  import opened Basics
  import opened EventLoops
  import opened CallLedger
  import opened TimingWheel
  import opened WheelIntegrity
  import opened WheelCountdown
  import opened ClientProtocol
  import opened ClientTheorems
  import opened ClientTimers
  import WT = WheelTiming
  import WR = WheelRemoval

  /** The loop removes the timer of call `id`: after its response, on a loss, or because a thread asked for it. */
  predicate Removes(s: ClientState, a: Action, id: Id) {
    Enabled(s, a) &&
    (|| (a.DisarmResponse? && s.loopStage.resp.requestId == id)
     || (a.DropLost? && a.id == id)
     || (a.RunFunctor? && s.queue.batch[0] == Disarm(id)))
  }

  ghost predicate NoTimer(tid: TimerIds, s: ClientState, id: Id) { forall h: nat :: !HasTimer(tid, s, h, id) }

  /** No arming in the run meets a removed timer with its timer id. */
  ghost predicate NeverReused(tid: TimerIds, actions: seq<Action>) { WR.NoReuse(Initial().wheel, OpsOf(tid, [], actions)) }

  lemma WheelFromStart(tid: TimerIds, actions: seq<Action>)
    ensures Run(tid, actions).wheel == WT.Run(Initial().wheel, OpsOf(tid, [], actions))
  {
    var begin: seq<Action> := [];
    assert Run(tid, begin) == Initial() && begin + actions == actions;
    hide Run, OpsOf, WT.Run, Initial;
    WheelFollows(tid, begin, actions);
  }

  lemma StartsSound()
    ensures WellFormed(Initial().wheel) && Bijective(Initial().wheel)
  {
    EmptyIsSound(TICK_MS, 0);
    hide WellFormed, Bijective;
  }

  lemma RunBijective(tid: TimerIds, actions: seq<Action>)
    requires NeverReused(tid, actions)
    ensures WellFormed(Run(tid, actions).wheel) && Bijective(Run(tid, actions).wheel)
  {
    hide Run, WellFormed, Bijective, WR.NoReuse, OpsOf, WT.Run, Initial;
    StartsSound();
    WheelFromStart(tid, actions);
    WR.RunKeepsBijective(Initial().wheel, OpsOf(tid, [], actions));
  }

  lemma RemovalClears(tid: TimerIds, s: ClientState, a: Action, id: Id)
    requires Removes(s, a, id) && WellFormed(s.wheel) && Bijective(s.wheel)
    ensures NoTimer(tid, Next(tid, s, a), id)
  {
    assert Next(tid, s, a).wheel == AfterRemove(s.wheel, tid(id)) by {
      hide AfterRemove, LedgerAfter, CallsAfter, QueueAfter, LoopAfter, TimerOfAfter;
    }
    hide WellFormed, Bijective, Next, Enabled, AfterRemove;
    RemoveKeepsBijective(s.wheel, tid(id));
  }

  /** A call whose timer was armed before gets no other. */
  lemma NoTimerStays(tid: TimerIds, s: ClientState, a: Action, id: Id)
    requires Enabled(s, a) && NodesSound(tid, s) && HandedOver(s) && Arm(id) in s.queue.executed && NoTimer(tid, s, id)
    ensures NoTimer(tid, Next(tid, s, a), id) && Arm(id) in Next(tid, s, a).queue.executed
  {
    var s' := Next(tid, s, a);
    assert s'.wheel == WheelAfter(tid, s, a) && s'.timerOf == TimerOfAfter(tid, s, a) && s'.queue == QueueAfter(s, a);
    assert Arm(id) in QueueAfter(s, a).executed;
    hide Next, WellFormed, WheelAfter, QueueAfter, WT.Carries, StageOk;
    forall h: nat ensures !HasTimer(tid, s', h, id) {
      NodesAfter(tid, s, a, h, tid(id));
      if WT.Carries(s.wheel, h, tid(id)) {
        assert NodeOf(tid, s, h, tid(id)) && !HasTimer(tid, s, h, id);
        TimerOfGrows(tid, s, a, h);
      } else if WT.Carries(s'.wheel, h, tid(id)) {
        if Arms(s, a) == Some(id) { FrontIsNew(s); }
      }
    }
  }

  lemma {:induction false} StaysDisarmed(tid: TimerIds, actions: seq<Action>, more: seq<Action>, id: Id)
    requires Arm(id) in Run(tid, actions).queue.executed && NoTimer(tid, Run(tid, actions), id)
    ensures Arm(id) in Run(tid, actions + more).queue.executed && NoTimer(tid, Run(tid, actions + more), id)
  {
    hide Run, Next, Enabled, NoTimer, HandedOver, RemovalsSafe, Balanced;
    if more == [] {
      assert actions + more == actions;
    } else {
      var before, a := actions + more[..|more| - 1], more[|more| - 1];
      RunSnoc(tid, actions, more);
      StaysDisarmed(tid, actions, more[..|more| - 1], id);
      if Enabled(Run(tid, before), a) {
        RunTimers(tid, before);
        RunHandedOver(tid, before);
        NoTimerStays(tid, Run(tid, before), a, id);
      }
    }
  }

  /**
   * Once the loop removes the timer of a call it has armed, because its response is being handled, the connection is
   * lost or a thread asked for it, no live node of the call is in the wheel, then and ever after.
   */
  lemma DisarmedForGood(tid: TimerIds, actions: seq<Action>, s: ClientState, a: Action, more: seq<Action>, id: Id)
    requires s == Run(tid, actions) && NeverReused(tid, actions) && Removes(s, a, id) && Arm(id) in s.queue.executed
    ensures NoTimer(tid, Run(tid, actions + [a] + more), id)
  {
    RemovedStep(tid, actions, s, a, id);
    hide Run, NoTimer, NeverReused, Removes;
    RunBijective(tid, actions);
    RemovalClears(tid, s, a, id);
    StaysDisarmed(tid, actions + [a], more, id);
  }

  lemma RemovedStep(tid: TimerIds, actions: seq<Action>, s: ClientState, a: Action, id: Id)
    requires s == Run(tid, actions) && Removes(s, a, id) && Arm(id) in s.queue.executed
    ensures Run(tid, actions + [a]) == Next(tid, s, a) && Arm(id) in Next(tid, s, a).queue.executed
  {
    assert (actions + [a])[..|actions|] == actions;
    hide LedgerAfter, CallsAfter, LoopAfter, WheelAfter, TimerOfAfter;
  }
}
