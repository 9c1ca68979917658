/**
 * The timers of the client's calls in the wheel itself: no pending call is left without one, and a call whose
 * timer was armed is called back in bounded time.
 */
module ClientTimers {
  import opened Basics
  import opened EventLoops
  import opened CallLedger
  import opened TimingWheel
  import opened WheelIntegrity
  import opened WheelCountdown
  import opened ClientProtocol
  import opened ClientTheorems
  import WT = WheelTiming

  /** Node `h` is in the wheel, live, with the timer id and the callback of call `id`. */
  ghost predicate HasTimer(tid: TimerIds, s: ClientState, h: nat, id: Id) {
    h in s.timerOf && s.timerOf[h] == id && WT.Carries(s.wheel, h, tid(id))
  }

  /** The timer of call `id` has fired and its callback is about to run. */
  predicate Imminent(s: ClientState, id: Id) {
    (s.loopStage.Ticking? || s.loopStage.Firing?) && id in s.loopStage.due
  }

  /** A call's timer: its thread has not asked for it yet, or has, or it is in the wheel, or it is going off. */
  ghost predicate Covered(tid: TimerIds, s: ClientState, id: Id) {
    || AtStage(s, id, BeforeTimer)
    || Arm(id) in s.queue.Waiting()
    || Imminent(s, id)
    || exists h :: HasTimer(tid, s, h, id)
  }

  /** The index entry of its timer id names a node of call `id`. */
  predicate Indexed(tid: TimerIds, s: ClientState, id: Id) {
    && tid(id) in s.wheel.index
    && s.wheel.index[tid(id)].handle in s.timerOf
    && s.timerOf[s.wheel.index[tid(id)].handle] == id
  }

  /** The ids a timer may be armed or removed for at the moment. */
  predicate InFlight(tid: TimerIds, s: ClientState, id: Id) {
    || id in s.ledger.pending
    || id in s.ledger.Held(Loop)
    || Indexed(tid, s, id)
    || Disarm(id) in s.queue.Waiting()
    || (s.loopStage.Responding? && s.loopStage.resp.requestId == id)
  }

  /** No two ids in flight have the same timer id. */
  ghost predicate Distinct(tid: TimerIds, s: ClientState) {
    forall a, b | InFlight(tid, s, a) && InFlight(tid, s, b) && tid(a) == tid(b) :: a == b
  }

  ghost predicate AlwaysDistinct(tid: TimerIds, actions: seq<Action>) {
    forall k | 0 <= k <= |actions| :: Distinct(tid, Run(tid, actions[..k]))
  }

  // ---------------------------------------------------------------- the nodes are those of calls

  /** Live nodes belong to calls with a non-negative timeout, under their timer ids. */
  ghost predicate NodesSound(tid: TimerIds, s: ClientState) {
    && WellFormed(s.wheel)
    && (forall h | h in s.timerOf :: h < s.wheel.nextHandle)
    && (forall h: nat, t: int | WT.Carries(s.wheel, h, t) :: NodeOf(tid, s, h, t))
  }

  predicate NodeOf(tid: TimerIds, s: ClientState, h: nat, t: int) {
    && h in s.timerOf && tid(s.timerOf[h]) == t
    && s.timerOf[h] in s.calls && s.calls[s.timerOf[h]].timeoutMs >= 0
  }

  /** What an action does to the nodes. */
  lemma NodesAfter(tid: TimerIds, s: ClientState, a: Action, h: nat, t: int)
    requires Enabled(s, a) && WellFormed(s.wheel)
    ensures WellFormed(WheelAfter(tid, s, a)) && s.wheel.nextHandle <= WheelAfter(tid, s, a).nextHandle
    ensures WT.Carries(WheelAfter(tid, s, a), h, t) ==>
      WT.Carries(s.wheel, h, t) || (h == s.wheel.nextHandle && NewNodeOf(tid, s, a, t))
    ensures WT.Carries(s.wheel, h, t) ==>
      || WT.Carries(WheelAfter(tid, s, a), h, t)
      || (Disarms(s, a).Some? && t == tid(Disarms(s, a).value))
      || (a.Tick? && Times(TickFired(s.wheel, a.now, a.clock), h) > 0)
  {
    hide WellFormed, AfterAdd, AfterRemove, AfterTick, TickFired, Times;
    match WheelOp(tid, s, a) {
      case None =>
      case Some(op) =>
        WT.ApplyWellFormed(s.wheel, op);
        match op {
          case AddOp(x, delayMs, now) => WT.AddCarries(s.wheel, x, delayMs, now, h, t);
          case RemoveOp(x) => WT.RemoveCarries(s.wheel, x, h, t);
          case TickOp(now, clock) => WT.TickCarries(s.wheel, now, clock, h, t);
        }
    }
  }

  /** An action that arms a call's timer for good. */
  predicate NewNodeOf(tid: TimerIds, s: ClientState, a: Action, t: int)
    requires Enabled(s, a)
  {
    && Arms(s, a).Some? && t == tid(Arms(s, a).value) && s.calls[Arms(s, a).value].timeoutMs >= 0
    && s.wheel.nextHandle < WheelAfter(tid, s, a).nextHandle
  }

  lemma NextKeepsNodesSound(tid: TimerIds, s: ClientState, a: Action)
    requires Enabled(s, a) && NodesSound(tid, s)
    ensures NodesSound(tid, Next(tid, s, a))
  {
    var s' := Next(tid, s, a);
    assert s'.wheel == WheelAfter(tid, s, a) && s'.timerOf == TimerOfAfter(tid, s, a) && s'.calls == CallsAfter(s, a);
    hide Next, Enabled, WellFormed, WheelAfter, CallsAfter, WT.Carries;
    NodesAfter(tid, s, a, 0, 0);
    forall h: nat, t: int | WT.Carries(s'.wheel, h, t) ensures NodeOf(tid, s', h, t) {
      NodesAfter(tid, s, a, h, t);
      assert WT.Carries(s.wheel, h, t) ==> NodeOf(tid, s, h, t);
      NodeStays(tid, s, a, h, t);
    }
  }

  lemma NodeStays(tid: TimerIds, s: ClientState, a: Action, h: nat, t: int)
    requires Enabled(s, a)
    requires (NodeOf(tid, s, h, t) && h < s.wheel.nextHandle) || (h == s.wheel.nextHandle && NewNodeOf(tid, s, a, t))
    ensures NodeOf(tid, Next(tid, s, a), h, t)
  {
    hide LedgerAfter, QueueAfter, LoopAfter, StopAfter, ConnectedAfter, WheelAfter, CallsAfter;
    var id := if NodeOf(tid, s, h, t) && h < s.wheel.nextHandle then s.timerOf[h] else Arms(s, a).value;
    CallStays(s, a, id);
    StagesAfter(s, a, id);
  }

  // ---------------------------------------------------------------- nothing removes the timer of a pending call

  lemma WaitingAfter(s: ClientState, a: Action, f: Functor)
    requires Enabled(s, a)
    ensures var q, q' := s.queue.Waiting(), QueueAfter(s, a).Waiting();
      && (f in q' ==> f in q || PushedBy(a) == Some(f))
      && (f in q ==> f in q' || (a.RunFunctor? && s.queue.batch[0] == f))
      && (PushedBy(a) == Some(f) ==> f in q')
  {
    match PushedBy(a) {
      case Some(g) => QueueLaws(s.queue, g);
      case None => QueueLaws(s.queue, f);
    }
  }

  lemma PendingAfter(s: ClientState, a: Action, id: Id)
    requires Enabled(s, a)
    ensures var pending' := LedgerAfter(s, a).pending;
      && (id in pending' ==> id in s.ledger.pending || (a.Issue? && a.id == id && !s.stopped && s.connected))
      && (a == TakeFailed(id) ==> id !in pending')
      && (a.TakeResponse? && a.resp.requestId == id ==> id !in pending')
      && (a.TakeTimedOut? && s.loopStage.due[0] == id ==> id !in pending')
  {
    hide Ascii;
  }

  /** What the loop is about to remove has been seen, and is no longer pending. */
  predicate ResponseSeen(s: ClientState) {
    s.loopStage.Responding? ==> s.loopStage.resp.requestId in s.seen && s.loopStage.resp.requestId !in s.ledger.pending
  }

  /** Nothing that is about to remove a timer is about a call still pending. */
  ghost predicate RemovalsSafe(s: ClientState) {
    && (forall id: Id | Disarm(id) in s.queue.Waiting() :: id in s.calls && id !in s.ledger.pending)
    && (forall id: Id | Failing(s, id) :: id !in s.ledger.pending)
    && ResponseSeen(s)
  }

  lemma PushedDisarmSafe(s: ClientState, a: Action, id: Id)
    requires Enabled(s, a) && RemovalsSafe(s) && Balanced(s.ledger) && IssuedCalls(s) && PushedBy(a) == Some(Disarm(id))
    ensures id in s.calls && id !in s.ledger.pending
  {
    if a.DropStopped? { OnePlace(s.ledger, id, Stopper); }
    hide Balanced;
    assert a.DisarmFailed? ==> Failing(s, id);
  }

  lemma DisarmsStaySafe(tid: TimerIds, s: ClientState, a: Action, id: Id)
    requires Enabled(s, a) && RemovalsSafe(s) && Balanced(s.ledger) && IssuedCalls(s)
    requires Disarm(id) in Next(tid, s, a).queue.Waiting()
    ensures id in Next(tid, s, a).calls && id !in Next(tid, s, a).ledger.pending
  {
    assert Next(tid, s, a).queue == QueueAfter(s, a);
    assert Next(tid, s, a).calls == CallsAfter(s, a) && Next(tid, s, a).ledger == LedgerAfter(s, a);
    assert a.Issue? ==> a.id !in s.calls;
    hide Next, Enabled, LedgerAfter, CallsAfter, QueueAfter, PushedBy, Balanced, IssuedCalls, Failing, ResponseSeen;
    WaitingAfter(s, a, Disarm(id));
    CallStays(s, a, id);
    PendingAfter(s, a, id);
    if PushedBy(a) == Some(Disarm(id)) { PushedDisarmSafe(s, a, id); }
  }

  lemma FailingStaysSafe(tid: TimerIds, s: ClientState, a: Action, id: Id)
    requires Enabled(s, a) && RemovalsSafe(s) && IssuedCalls(s) && Failing(Next(tid, s, a), id)
    ensures id !in Next(tid, s, a).ledger.pending
  {
    assert Next(tid, s, a).calls == CallsAfter(s, a) && Next(tid, s, a).ledger == LedgerAfter(s, a);
    hide Next, LedgerAfter, CallsAfter;
    StagesAfter(s, a, id);
    PendingAfter(s, a, id);
  }

  lemma RespondingAfter(s: ClientState, a: Action)
    requires Enabled(s, a) && LoopAfter(s, a).Responding?
    ensures a == TakeResponse(LoopAfter(s, a).resp) || LoopAfter(s, a) == s.loopStage
  {
    hide DueIds;
  }

  lemma NextKeepsResponseSeen(tid: TimerIds, s: ClientState, a: Action)
    requires Enabled(s, a) && ResponseSeen(s) && IssuedCalls(s)
    ensures ResponseSeen(Next(tid, s, a))
  {
    assert a.Issue? ==> a.id !in s.seen;
    hide Enabled, LedgerAfter, CallsAfter, QueueAfter, WheelAfter, TimerOfAfter, LoopAfter, StopAfter, ConnectedAfter;
    if LoopAfter(s, a).Responding? {
      RespondingAfter(s, a);
      PendingAfter(s, a, LoopAfter(s, a).resp.requestId);
    }
  }

  lemma NextKeepsRemovalsSafe(tid: TimerIds, s: ClientState, a: Action)
    requires Enabled(s, a) && RemovalsSafe(s) && Balanced(s.ledger) && IssuedCalls(s)
    ensures RemovalsSafe(Next(tid, s, a))
  {
    hide Next, Enabled, Balanced, Failing, ResponseSeen;
    NextKeepsResponseSeen(tid, s, a);
    forall id: Id | Disarm(id) in Next(tid, s, a).queue.Waiting()
      ensures id in Next(tid, s, a).calls && id !in Next(tid, s, a).ledger.pending
    {
      DisarmsStaySafe(tid, s, a, id);
    }
    forall id: Id | Failing(Next(tid, s, a), id) ensures id !in Next(tid, s, a).ledger.pending {
      FailingStaysSafe(tid, s, a, id);
    }
  }

  /** With distinct timer ids, no removal is for the timer id of a pending call. */
  lemma PendingNotDisarmed(tid: TimerIds, s: ClientState, a: Action, id: Id)
    requires Enabled(s, a) && RemovalsSafe(s) && Balanced(s.ledger) && Distinct(tid, s) && id in s.ledger.pending
    ensures Disarms(s, a).Some? ==> tid(Disarms(s, a).value) != tid(id)
  {
    assert InFlight(tid, s, id);
    if Disarms(s, a).Some? {
      var x := Disarms(s, a).value;
      match a {
        case DropLost(_) => OnePlace(s.ledger, x, Loop);
        case RunFunctor(_) => QueueLaws(s.queue, Teardown);
        case _ =>
      }
      hide Balanced;
      assert InFlight(tid, s, x) && x !in s.ledger.pending;
    }
  }

  // ---------------------------------------------------------------- every pending call is covered

  /** Every node that fires has its callback on the list. */
  lemma {:induction false} FiredIsDue(fired: seq<TimerNode>, timerOf: map<nat, Id>, h: nat)
    requires Times(fired, h) > 0 && h in timerOf
    ensures timerOf[h] in DueIds(fired, timerOf)
  {
    if fired[0].handle != h { FiredIsDue(fired[1..], timerOf, h); }
  }

  lemma FiringIsImminent(tid: TimerIds, s: ClientState, a: Action, h: nat)
    requires Enabled(s, a) && a.Tick? && Times(TickFired(s.wheel, a.now, a.clock), h) > 0 && h in s.timerOf
    ensures Imminent(Next(tid, s, a), s.timerOf[h])
  {
    hide LedgerAfter, CallsAfter, QueueAfter, WheelAfter, TimerOfAfter, StopAfter, ConnectedAfter, TickFired, Times;
    FiredIsDue(TickFired(s.wheel, a.now, a.clock), s.timerOf, h);
  }

  lemma TimerOfGrows(tid: TimerIds, s: ClientState, a: Action, h: nat)
    requires Enabled(s, a) && h in s.timerOf && h < s.wheel.nextHandle
    ensures h in TimerOfAfter(tid, s, a) && TimerOfAfter(tid, s, a)[h] == s.timerOf[h]
  {
    hide WheelAfter, Arms;
  }

  /** The timer of a pending call stays in the wheel until it goes off. */
  lemma HasTimerAfter(tid: TimerIds, s: ClientState, a: Action, h: nat, id: Id)
    requires Enabled(s, a) && NodesSound(tid, s) && RemovalsSafe(s) && Balanced(s.ledger) && Distinct(tid, s)
    requires id in s.ledger.pending && HasTimer(tid, s, h, id)
    ensures HasTimer(tid, Next(tid, s, a), h, id) || Imminent(Next(tid, s, a), id)
  {
    assert Next(tid, s, a).wheel == WheelAfter(tid, s, a) && Next(tid, s, a).timerOf == TimerOfAfter(tid, s, a);
    hide Next, Enabled, RemovalsSafe, Balanced, Distinct, WellFormed, WT.Carries, Disarms, WheelAfter, TimerOfAfter,
         TickFired,
      Times, Imminent;
    PendingNotDisarmed(tid, s, a, id);
    NodesAfter(tid, s, a, h, tid(id));
    TimerOfGrows(tid, s, a, h);
    if a.Tick? && Times(TickFired(s.wheel, a.now, a.clock), h) > 0 {
      FiringIsImminent(tid, s, a, h);
    }
  }

  lemma ImminentAfter(tid: TimerIds, s: ClientState, a: Action, id: Id)
    requires Enabled(s, a) && Imminent(s, id) && id in Next(tid, s, a).ledger.pending
    ensures Imminent(Next(tid, s, a), id)
  {
    PendingAfter(s, a, id);
    hide DueIds, LedgerAfter, CallsAfter, QueueAfter, StopAfter, ConnectedAfter, WheelAfter, TimerOfAfter;
  }

  /** Running the functor that arms a pending call's timer puts it in the wheel, or finds it there. */
  lemma ArmRuns(tid: TimerIds, s: ClientState, a: Action, id: Id)
    requires Enabled(s, a) && a.RunFunctor? && s.queue.batch[0] == Arm(id) && id in s.calls && s.calls[id].timeoutMs >= 0
    requires NodesSound(tid, s) && Distinct(tid, s) && id in s.ledger.pending
    ensures var s' := Next(tid, s, a);
      if Indexed(tid, s, id) then HasTimer(tid, s', s.wheel.index[tid(id)].handle, id)
      else tid(id) !in s.wheel.index && HasTimer(tid, s', s.wheel.nextHandle, id)
  {
    hide WellFormed, WT.Carries, LedgerAfter, CallsAfter, QueueAfter, StopAfter, ConnectedAfter, LoopAfter, AfterAdd;
    assert InFlight(tid, s, id);
    var t := tid(id);
    if t in s.wheel.index {
      var h := s.wheel.index[t].handle;
      WT.EntryCarries(s.wheel, t);
      assert NodeOf(tid, s, h, t);
      assert Indexed(tid, s, s.timerOf[h]);
      assert InFlight(tid, s, s.timerOf[h]);
      WT.AddCarries(s.wheel, t, s.calls[id].timeoutMs, a.now, h, t);
    } else {
      WT.AddCarries(s.wheel, t, s.calls[id].timeoutMs, a.now, s.wheel.nextHandle, t);
    }
  }

  /** Every pending call with a non-negative timeout is covered. */
  ghost predicate AllCovered(tid: TimerIds, s: ClientState) {
    forall id | id in s.ledger.pending && id in s.calls && s.calls[id].timeoutMs >= 0 :: Covered(tid, s, id)
  }

  ghost predicate TimersSound(tid: TimerIds, s: ClientState) {
    NodesSound(tid, s) && RemovalsSafe(s) && Balanced(s.ledger) && IssuedCalls(s)
  }

  lemma AskingStays(tid: TimerIds, s: ClientState, a: Action, id: Id)
    requires Enabled(s, a) && AtStage(s, id, BeforeTimer)
    ensures AtStage(Next(tid, s, a), id, BeforeTimer) || Arm(id) in Next(tid, s, a).queue.Waiting()
  {
    assert Next(tid, s, a).queue == QueueAfter(s, a) && Next(tid, s, a).calls == CallsAfter(s, a);
    hide Next, CallsAfter, QueueAfter;
    WaitingAfter(s, a, Arm(id));
    CallStays(s, a, id);
    StagesAfter(s, a, id);
  }

  lemma QueuedStays(tid: TimerIds, s: ClientState, a: Action, id: Id)
    requires Enabled(s, a) && NodesSound(tid, s) && Distinct(tid, s) && id in s.ledger.pending
    requires id in s.calls && s.calls[id].timeoutMs >= 0 && Arm(id) in s.queue.Waiting()
    ensures Arm(id) in Next(tid, s, a).queue.Waiting() || exists h :: HasTimer(tid, Next(tid, s, a), h, id)
  {
    assert Next(tid, s, a).queue == QueueAfter(s, a);
    hide Next, Enabled, HasTimer, NodesSound, Distinct, QueueAfter;
    WaitingAfter(s, a, Arm(id));
    if a.RunFunctor? && s.queue.batch[0] == Arm(id) { ArmRuns(tid, s, a, id); }
  }

  lemma CoveredAfter(tid: TimerIds, s: ClientState, a: Action, id: Id)
    requires Enabled(s, a) && TimersSound(tid, s) && Distinct(tid, s)
    requires id in s.ledger.pending && id in Next(tid, s, a).ledger.pending && id in s.calls && s.calls[id].timeoutMs >= 0
    requires Covered(tid, s, id)
    ensures Covered(tid, Next(tid, s, a), id)
  {
    hide Next, Enabled, AtStage, HasTimer, Imminent, NodesSound, RemovalsSafe, Balanced, Distinct;
    if AtStage(s, id, BeforeTimer) {
      AskingStays(tid, s, a, id);
    } else if Arm(id) in s.queue.Waiting() {
      QueuedStays(tid, s, a, id);
    } else if Imminent(s, id) {
      ImminentAfter(tid, s, a, id);
    } else {
      var h :| HasTimer(tid, s, h, id);
      HasTimerAfter(tid, s, a, h, id);
    }
  }

  lemma NextKeepsCovered(tid: TimerIds, s: ClientState, a: Action)
    requires Enabled(s, a) && AllCovered(tid, s) && TimersSound(tid, s) && Distinct(tid, s)
    ensures AllCovered(tid, Next(tid, s, a))
  {
    var s' := Next(tid, s, a);
    assert s'.calls == CallsAfter(s, a) && s'.ledger == LedgerAfter(s, a);
    assert forall id | id in s.ledger.pending :: id in s.ledger.issued by {
      forall id | id in s.ledger.pending ensures id in s.ledger.issued { PendingIsIssued(s.ledger, id); }
    }
    assert IssuedCalls(s);
    hide Next, TimersSound, Distinct, Covered, LedgerAfter, CallsAfter;
    forall id | id in s'.ledger.pending && id in s'.calls && s'.calls[id].timeoutMs >= 0
      ensures Covered(tid, s', id)
    {
      PendingAfter(s, a, id);
      StagesAfter(s, a, id);
      if id in s.ledger.pending {
        CoveredAfter(tid, s, a, id);
      } else {
        CoveredIfNew(tid, s', id);
      }
    }
  }

  lemma PendingIsIssued(l: Ledger, id: Id)
    requires Balanced(l) && id in l.pending
    ensures id in l.issued
  {
    assert Tally(l, id) == One(id in l.issued);
  }

  lemma CoveredIfNew(tid: TimerIds, s: ClientState, id: Id)
    requires AtStage(s, id, BeforeTimer)
    ensures Covered(tid, s, id)
  {
  }

  lemma NextKeepsTimersSound(tid: TimerIds, s: ClientState, a: Action)
    requires Enabled(s, a) && TimersSound(tid, s)
    ensures TimersSound(tid, Next(tid, s, a))
  {
    assert Next(tid, s, a).ledger == LedgerAfter(s, a);
    hide Next, Enabled, NodesSound, RemovalsSafe, Balanced, IssuedCalls, LedgerAfter;
    NextKeepsNodesSound(tid, s, a);
    NextKeepsRemovalsSafe(tid, s, a);
    NextKeepsBalanced(s, a);
    NextKeepsIssued(tid, s, a);
  }

  lemma {:induction false} RunTimers(tid: TimerIds, actions: seq<Action>)
    ensures TimersSound(tid, Run(tid, actions))
  {
    hide Next, Enabled, TimersSound;
    if actions == [] {
      InitialTimers(tid);
    } else {
      RunTimers(tid, actions[..|actions| - 1]);
      var s := Run(tid, actions[..|actions| - 1]);
      if Enabled(s, actions[|actions| - 1]) { NextKeepsTimersSound(tid, s, actions[|actions| - 1]); }
    }
  }

  lemma InitialTimers(tid: TimerIds)
    ensures TimersSound(tid, Initial())
  {
    EmptyIsSound(TICK_MS, 0);
    hide WellFormed;
  }

  lemma DistinctBefore(tid: TimerIds, actions: seq<Action>, k: nat)
    requires AlwaysDistinct(tid, actions) && k <= |actions|
    ensures AlwaysDistinct(tid, actions[..k]) && Distinct(tid, Run(tid, actions[..k]))
  {
    forall i | 0 <= i <= k ensures Distinct(tid, Run(tid, actions[..k][..i])) {
      assert actions[..k][..i] == actions[..i];
    }
  }

  lemma {:induction false} RunCovered(tid: TimerIds, actions: seq<Action>)
    requires AlwaysDistinct(tid, actions)
    ensures AllCovered(tid, Run(tid, actions))
  {
    hide Next, Enabled, TimersSound, Distinct, AllCovered, AlwaysDistinct;
    if actions == [] {
      InitialCovered(tid);
    } else {
      var before := actions[..|actions| - 1];
      DistinctBefore(tid, actions, |before|);
      RunCovered(tid, before);
      RunTimers(tid, before);
      if Enabled(Run(tid, before), actions[|actions| - 1]) {
        NextKeepsCovered(tid, Run(tid, before), actions[|actions| - 1]);
      }
    }
  }

  lemma InitialCovered(tid: TimerIds)
    ensures AllCovered(tid, Initial())
  {
  }

  /**
   * No pending call is stranded: as long as the ids in flight have distinct timer ids, every pending call with a
   * non-negative timeout has a live node in the wheel, its arming queued for the loop or still to be asked for by
   * its own thread, or its callback about to run.
   */
  lemma NoneStranded(tid: TimerIds, actions: seq<Action>, s: ClientState, id: Id)
    requires s == Run(tid, actions) && AlwaysDistinct(tid, actions)
    requires id in s.ledger.pending && id in s.calls && s.calls[id].timeoutMs >= 0
    ensures Covered(tid, s, id)
  {
    hide Run, AlwaysDistinct, Covered;
    RunCovered(tid, actions);
  }

  /** And the sign of the timeout decides: a call with a negative timeout never has a node. */
  lemma NegativeTimeoutNeverArmed(tid: TimerIds, actions: seq<Action>, s: ClientState, id: Id, h: nat)
    requires s == Run(tid, actions) && id in s.calls && s.calls[id].timeoutMs < 0
    ensures !HasTimer(tid, s, h, id)
  {
    hide Run, RemovalsSafe, Balanced, WellFormed, WT.Carries;
    RunTimers(tid, actions);
    assert HasTimer(tid, s, h, id) ==> NodeOf(tid, s, h, tid(id));
  }

  // ---------------------------------------------------------------- called back in time

  /** The wheel operations of a continuation of a run. */
  function OpsOf(tid: TimerIds, actions: seq<Action>, more: seq<Action>): seq<WT.Op> {
    if more == [] then [] else
      var before, a := more[..|more| - 1], more[|more| - 1];
      var s := Run(tid, actions + before);
      OpsOf(tid, actions, before) + (if Enabled(s, a) && WheelOp(tid, s, a).Some? then [WheelOp(tid, s, a).value] else [])
  }

  lemma RunSnoc(tid: TimerIds, actions: seq<Action>, more: seq<Action>)
    requires more != []
    ensures var s, a := Run(tid, actions + more[..|more| - 1]), more[|more| - 1];
      Run(tid, actions + more) == if Enabled(s, a) then Next(tid, s, a) else s
  {
    hide Next, Enabled;
    assert (actions + more)[..|actions + more| - 1] == actions + more[..|more| - 1];
  }

  /** A client's run drives its wheel through exactly these operations. */
  lemma {:induction false} WheelFollows(tid: TimerIds, actions: seq<Action>, more: seq<Action>)
    ensures Run(tid, actions + more).wheel == WT.Run(Run(tid, actions).wheel, OpsOf(tid, actions, more))
  {
    if more == [] {
      assert actions + more == actions;
    } else {
      RunSnoc(tid, actions, more);
      WheelFollows(tid, actions, more[..|more| - 1]);
      var s, a := Run(tid, actions + more[..|more| - 1]), more[|more| - 1];
      var ops := OpsOf(tid, actions, more[..|more| - 1]);
      hide Run, Enabled, WheelOp, WT.Apply;
      if Enabled(s, a) && WheelOp(tid, s, a).Some? {
        var op := WheelOp(tid, s, a).value;
        assert (ops + [op])[..|ops + [op]| - 1] == ops;
      } else {
        assert ops + [] == ops;
      }
    }
  }

  /** From its arming on, the node of a pending call is there or has just gone off. */
  ghost predicate Awaits(tid: TimerIds, s: ClientState, h: nat, id: Id) {
    id in s.ledger.issued && (id in s.ledger.pending ==> HasTimer(tid, s, h, id) || Imminent(s, id))
  }

  lemma NextAwaits(tid: TimerIds, s: ClientState, a: Action, h: nat, id: Id)
    requires Enabled(s, a) && TimersSound(tid, s) && Distinct(tid, s) && Awaits(tid, s, h, id)
    ensures Awaits(tid, Next(tid, s, a), h, id)
  {
    var s' := Next(tid, s, a);
    assert s'.ledger == LedgerAfter(s, a);
    IssuedAfter(s, a);
    PendingAfter(s, a, id);
    hide Next, HasTimer, Imminent, NodesSound, RemovalsSafe, Balanced, Distinct, LedgerAfter;
    if id in s'.ledger.pending {
      assert id in s.ledger.pending;
      if Imminent(s, id) {
        ImminentAfter(tid, s, a, id);
      } else {
        HasTimerAfter(tid, s, a, h, id);
      }
    }
  }

  lemma {:induction false} StaysAwaited(tid: TimerIds, actions: seq<Action>, more: seq<Action>, h: nat, id: Id)
    requires AlwaysDistinct(tid, actions + more) && Awaits(tid, Run(tid, actions), h, id)
    ensures Awaits(tid, Run(tid, actions + more), h, id)
  {
    hide Run, Next, Enabled, TimersSound, Distinct, AlwaysDistinct, Awaits;
    if more == [] {
      assert actions + more == actions;
    } else {
      var all, before := actions + more, actions + more[..|more| - 1];
      assert all[..|all| - 1] == before;
      DistinctBefore(tid, all, |before|);
      RunSnoc(tid, actions, more);
      StaysAwaited(tid, actions, more[..|more| - 1], h, id);
      RunTimers(tid, before);
      if Enabled(Run(tid, before), more[|more| - 1]) { NextAwaits(tid, Run(tid, before), more[|more| - 1], h, id); }
    }
  }

  /** Nodes come from timers armed before, so a call whose arming is at the front of the queue has none yet. */
  ghost predicate NodesArmed(s: ClientState) {
    forall h | h in s.timerOf :: Arm(s.timerOf[h]) in s.queue.executed
  }

  lemma NextKeepsNodesArmed(tid: TimerIds, s: ClientState, a: Action)
    requires Enabled(s, a) && NodesArmed(s)
    ensures NodesArmed(Next(tid, s, a))
  {
    hide LedgerAfter, CallsAfter, LoopAfter, StopAfter, ConnectedAfter, WheelAfter;
  }

  lemma {:induction false} RunNodesArmed(tid: TimerIds, actions: seq<Action>)
    ensures NodesArmed(Run(tid, actions))
  {
    if actions != [] {
      hide Next, Enabled, NodesArmed;
      RunNodesArmed(tid, actions[..|actions| - 1]);
      if Enabled(Run(tid, actions[..|actions| - 1]), actions[|actions| - 1]) {
        NextKeepsNodesArmed(tid, Run(tid, actions[..|actions| - 1]), actions[|actions| - 1]);
      }
    }
  }

  /** The loop is about to run the functor that arms the timer of call `id`. */
  predicate AboutToArm(s: ClientState, id: Id) {
    s.loopStage == Idle && s.queue.batch != [] && s.queue.batch[0] == Arm(id)
    && id in s.calls && s.calls[id].timeoutMs >= 0
  }

  /** A call that is still pending when its arming runs gets a new node. */
  lemma ArmingAwaits(tid: TimerIds, actions: seq<Action>, s: ClientState, now: int, id: Id)
    requires s == Run(tid, actions) && AboutToArm(s, id) && Distinct(tid, s)
    ensures Awaits(tid, Next(tid, s, RunFunctor(now)), s.wheel.nextHandle, id)
    ensures id in s.ledger.pending ==> tid(id) !in s.wheel.index
  {
    hide Run, Next, TimersSound, HandedOver, NodesArmed, HasTimer, Distinct, LedgerAfter;
    RunTimers(tid, actions);
    RunHandedOver(tid, actions);
    RunNodesArmed(tid, actions);
    FrontIsNew(s);
    ArmingSteps(tid, s, now, id);
  }

  lemma ArmingSteps(tid: TimerIds, s: ClientState, now: int, id: Id)
    requires AboutToArm(s, id) && Distinct(tid, s) && TimersSound(tid, s) && NodesArmed(s)
    requires Arm(id) !in s.queue.executed
    ensures Awaits(tid, Next(tid, s, RunFunctor(now)), s.wheel.nextHandle, id)
    ensures id in s.ledger.pending ==> tid(id) !in s.wheel.index
  {
    var a := RunFunctor(now);
    assert Next(tid, s, a).ledger == s.ledger;
    assert !Indexed(tid, s, id);
    hide Next, NodesSound, Distinct, RemovalsSafe, Balanced, HasTimer;
    if id in s.ledger.pending { ArmRuns(tid, s, a, id); }
  }

  lemma ArmedRun(tid: TimerIds, actions: seq<Action>, s0: ClientState, now: int, id: Id)
    requires s0 == Run(tid, actions) && AboutToArm(s0, id)
    ensures Enabled(s0, RunFunctor(now))
    ensures Run(tid, actions + [RunFunctor(now)]) == Next(tid, s0, RunFunctor(now))
    ensures Next(tid, s0, RunFunctor(now)).wheel == AfterAdd(s0.wheel, tid(id), s0.calls[id].timeoutMs, now)
    ensures Next(tid, s0, RunFunctor(now)).ledger == s0.ledger
  {
    assert (actions + [RunFunctor(now)])[..|actions|] == actions;
    hide AfterAdd, CallsAfter, QueueAfter, LoopAfter, StopAfter, ConnectedAfter;
  }

  lemma DistinctAt(tid: TimerIds, actions: seq<Action>, now: int, more: seq<Action>)
    requires AlwaysDistinct(tid, actions + [RunFunctor(now)] + more)
    ensures Distinct(tid, Run(tid, actions))
  {
    assert (actions + [RunFunctor(now)] + more)[..|actions|] == actions;
  }

  lemma {:induction false} PendingSince(tid: TimerIds, actions: seq<Action>, more: seq<Action>, id: Id)
    requires id in Run(tid, actions).ledger.issued && id in Run(tid, actions + more).ledger.pending
    ensures id in Run(tid, actions).ledger.pending && id in Run(tid, actions + more).ledger.issued
  {
    hide Run, Next, Enabled, Balanced;
    RunAccounted(tid, actions + more);
    PendingIsIssued(Run(tid, actions + more).ledger, id);
    if more == [] {
      assert actions + more == actions;
    } else {
      RunSnoc(tid, actions, more);
      var s, a := Run(tid, actions + more[..|more| - 1]), more[|more| - 1];
      StaysIssued(tid, actions, more[..|more| - 1], id);
      if Enabled(s, a) { PendingBefore(tid, s, a, id); }
      PendingSince(tid, actions, more[..|more| - 1], id);
    }
  }

  lemma PendingBefore(tid: TimerIds, s: ClientState, a: Action, id: Id)
    requires Enabled(s, a) && id in s.ledger.issued && id in Next(tid, s, a).ledger.pending
    ensures id in s.ledger.pending
  {
    PendingAfter(s, a, id);
    hide LedgerAfter;
  }

  lemma {:induction false} StaysIssued(tid: TimerIds, actions: seq<Action>, more: seq<Action>, id: Id)
    requires id in Run(tid, actions).ledger.issued
    ensures id in Run(tid, actions + more).ledger.issued
  {
    hide Run, Enabled, LedgerAfter;
    if more == [] {
      assert actions + more == actions;
    } else {
      RunSnoc(tid, actions, more);
      StaysIssued(tid, actions, more[..|more| - 1], id);
      var s, a := Run(tid, actions + more[..|more| - 1]), more[|more| - 1];
      if Enabled(s, a) { IssuedAfter(s, a); }
    }
  }

  /** A node of a call still pending means the wheel has not ticked that far. */
  lemma StillPending(tid: TimerIds, s0: ClientState, now: int, ops: seq<WT.Op>, s: ClientState, id: Id)
    requires TimersSound(tid, s0) && AboutToArm(s0, id) && tid(id) !in s0.wheel.index
    requires var r := AfterAdd(s0.wheel, tid(id), s0.calls[id].timeoutMs, now);
      WT.Monotone(r, ops) && WT.ShortGaps(r, ops) && s.wheel == WT.Run(r, ops)
    requires id in s.ledger.pending && Awaits(tid, s, s0.wheel.nextHandle, id) && s.loopStage == Idle
    requires s0.wheel.tickMs == TICK_MS
    ensures s.wheel.lastTick < s0.wheel.lastTick + 2 * ((s0.calls[id].timeoutMs / TICK_MS + 1) * (TICK_MS * NS_PER_MS))
  {
    hide WellFormed, RemovalsSafe, Balanced, WT.Run, WT.Monotone, WT.ShortGaps, WT.Carries, AfterAdd;
    WT.StillThereMeansRecent(s0.wheel, tid(id), s0.calls[id].timeoutMs, now, ops);
  }

  lemma NotPendingMeansInvoked(s: ClientState, id: Id)
    requires Accounted(s)
    ensures id !in s.ledger.pending && s.loopStage == Idle && !Failing(s, id) && s.stopStage != Swapped && id in s.ledger.issued
      ==> s.ledger.invoked[id] == 1
  {
    assert Tally(s.ledger, id) == One(id in s.ledger.issued);
  }

  /**
   * A call with timeout d >= 0 is called back in time: once ticking is 2 * (d / 10 + 1) ticks past the last tick
   * at the moment its timer was armed, and the loop is between callbacks, the call is no longer pending; unless a
   * thread is just about to invoke it, its callback has run, once.
   */
  lemma CalledBackInTime(tid: TimerIds, actions: seq<Action>, s0: ClientState, now: int, more: seq<Action>,
                         s: ClientState, id: Id)
    requires s0 == Run(tid, actions) && AboutToArm(s0, id)
    requires s == Run(tid, actions + [RunFunctor(now)] + more) && AlwaysDistinct(tid, actions + [RunFunctor(now)] + more)
    requires WellTimed(tid, actions + [RunFunctor(now)], more)
    requires s.loopStage == Idle
    requires s.wheel.lastTick >= s0.wheel.lastTick + 2 * ((s0.calls[id].timeoutMs / TICK_MS + 1) * (TICK_MS * NS_PER_MS))
    ensures id !in s.ledger.pending
    ensures !Failing(s, id) && s.stopStage != Swapped ==> s.ledger.invoked[id] == 1
  {
    hide *;
    IssuedThen(tid, actions, [RunFunctor(now)] + more, id);
    assert actions + ([RunFunctor(now)] + more) == actions + [RunFunctor(now)] + more;
    if id in s.ledger.pending {
      PendingMeansRecent(tid, actions, s0, now, more, s, id);
    }
    RunAccounted(tid, actions + [RunFunctor(now)] + more);
    NotPendingMeansInvoked(s, id);
  }

  lemma IssuedThen(tid: TimerIds, actions: seq<Action>, more: seq<Action>, id: Id)
    requires AboutToArm(Run(tid, actions), id)
    ensures id in Run(tid, actions + more).ledger.issued
  {
    hide Run;
    RunAccounted(tid, actions);
    StaysIssued(tid, actions, more, id);
  }

  /** Ticks do not go back, and no two are 2^31 ms apart. */
  predicate WellTimed(tid: TimerIds, actions: seq<Action>, more: seq<Action>) {
    var w, ops := Run(tid, actions).wheel, OpsOf(tid, actions, more);
    WT.Monotone(w, ops) && WT.ShortGaps(w, ops)
  }

  lemma PendingMeansRecent(tid: TimerIds, actions: seq<Action>, s0: ClientState, now: int, more: seq<Action>,
                           s: ClientState, id: Id)
    requires s0 == Run(tid, actions) && AboutToArm(s0, id)
    requires s == Run(tid, actions + [RunFunctor(now)] + more) && AlwaysDistinct(tid, actions + [RunFunctor(now)] + more)
    requires WellTimed(tid, actions + [RunFunctor(now)], more)
    requires s.loopStage == Idle && id in s.ledger.pending
    ensures s.wheel.lastTick < s0.wheel.lastTick + 2 * ((s0.calls[id].timeoutMs / TICK_MS + 1) * (TICK_MS * NS_PER_MS))
  {
    var armed := actions + [RunFunctor(now)];
    ArmedRun(tid, actions, s0, now, id);
    hide Run, AlwaysDistinct, Next, Enabled, OpsOf, WT.Monotone, WT.ShortGaps, WT.Run, TimersSound, Awaits, Distinct,
         AboutToArm, AfterAdd;
    DistinctAt(tid, actions, now, more);
    WheelFollows(tid, armed, more);
    ArmingAwaits(tid, actions, s0, now, id);
    StaysAwaited(tid, armed, more, s0.wheel.nextHandle, id);
    RunTimers(tid, actions);
    RunTick(tid, actions);
    IssuedThen(tid, actions, [RunFunctor(now)], id);
    PendingSince(tid, armed, more, id);
    StillPending(tid, s0, now, OpsOf(tid, armed, more), s, id);
  }

  lemma {:induction false} RunTick(tid: TimerIds, actions: seq<Action>)
    ensures Run(tid, actions).wheel.tickMs == TICK_MS
  {
    if actions != [] {
      hide Enabled, LedgerAfter, CallsAfter, QueueAfter, WheelOp, TimerOfAfter, LoopAfter, StopAfter, ConnectedAfter,
           WT.Apply;
      RunTick(tid, actions[..|actions| - 1]);
    }
  }
}
