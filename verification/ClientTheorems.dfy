/** What every run of the client keeps, whatever the interleaving: where the callback of each call is. */
module ClientTheorems {
  import opened Basics
  import opened ErrorCodes
  import opened EventLoops
  import opened CallLedger
  import opened ClientProtocol

  // ---------------------------------------------------------------- exactly one callback

  lemma NextKeepsBalanced(s: ClientState, a: Action)
    requires Enabled(s, a) && Balanced(s.ledger)
    ensures Balanced(LedgerAfter(s, a))
  {
    hide Balanced, Ascii;
    var l := s.ledger;
    match a {
      case Issue(id, _) =>
        RegisterBalanced(l, id);
        RefuseBalanced(l, id, ErrorResponse(id, CLIENT_NOT_RUNNING, Ascii("client stopped/disconnected")));
      case TakeFailed(id) => TakeOneBalanced(l, Caller, id);
      case InvokeFailed(id) =>
        InvokeBalanced(l, Caller, id, ErrorResponse(id, CLIENT_ENCODE_FAILED, Ascii("encode request failed")));
      case TakeResponse(resp) => TakeOneBalanced(l, Loop, resp.requestId);
      case InvokeResponse => InvokeBalanced(l, Loop, s.loopStage.resp.requestId, s.loopStage.resp);
      case TakeTimedOut => TakeOneBalanced(l, Loop, s.loopStage.due[0]);
      case InvokeTimedOut =>
        var id := s.loopStage.id;
        InvokeBalanced(l, Loop, id, ErrorResponse(id, CLIENT_REQUEST_TIMEOUT, Ascii("request timeout")));
      case SwapLost => TakeAllBalanced(l, Loop);
      case DropLost(id) => InvokeBalanced(l, Loop, id, ErrorResponse(id, s.loopStage.code, s.loopStage.msg));
      case SwapStopped => TakeAllBalanced(l, Stopper);
      case DropStopped(id) =>
        InvokeBalanced(l, Stopper, id, ErrorResponse(id, CLIENT_NOT_RUNNING, Ascii("rpc client stopped")));
      case _ =>
    }
  }

  predicate Failing(s: ClientState, id: Id) { AtStage(s, id, FailTaken) || AtStage(s, id, FailDisarmed) }

  /** Callbacks moved out are in the hands of a thread that is at a point where it will invoke them. */
  predicate CallerHolds(s: ClientState) {
    forall id | id in s.ledger.Held(Caller) :: Failing(s, id)
  }

  predicate LoopHolds(s: ClientState) {
    match s.loopStage
    case Responding(resp) => s.ledger.Held(Loop) <= {resp.requestId}
    case Disarmed(resp) => s.ledger.Held(Loop) <= {resp.requestId}
    case Firing(id, _) => s.ledger.Held(Loop) <= {id}
    case Dropping(_, _) => true
    case _ => s.ledger.Held(Loop) == {}
  }

  predicate StopperHolds(s: ClientState) { s.stopStage != Swapped ==> s.ledger.Held(Stopper) == {} }

  /** From the swap in Stop on, nothing is pending. */
  predicate EmptyOnceStopped(s: ClientState) {
    && (s.stopped <==> s.stopStage != NotStopped)
    && (PastSwap(s) ==> s.ledger.pending == {})
  }

  predicate PastSwap(s: ClientState) { SwapDone(s.stopStage) }

  predicate SwapDone(stage: StopStage) { stage != NotStopped && stage != FlagSet }

  predicate PastDrop(s: ClientState) {
    s.stopStage == Disconnecting || s.stopStage == Quitting || s.stopStage == Joined
  }

  predicate IssuedCalls(s: ClientState) { s.ledger.issued == s.calls.Keys }

  ghost predicate Accounted(s: ClientState) {
    && Balanced(s.ledger) && CallerHolds(s) && LoopHolds(s) && StopperHolds(s) && EmptyOnceStopped(s) && IssuedCalls(s)
    && JoinedGone(s)
  }

  lemma CallerHeldAfter(s: ClientState, a: Action, id: Id)
    requires Enabled(s, a) && id in LedgerAfter(s, a).Held(Caller)
    ensures a == TakeFailed(id) || (id in s.ledger.Held(Caller) && a != InvokeFailed(id))
  {
    hide Ascii;
  }

  lemma FailingAfter(tid: TimerIds, s: ClientState, a: Action, id: Id)
    requires Enabled(s, a) && (a == TakeFailed(id) || (Failing(s, id) && a != InvokeFailed(id)))
    ensures Failing(Next(tid, s, a), id)
  {
    hide LedgerAfter, QueueAfter, WheelAfter, TimerOfAfter, LoopAfter, StopAfter, ConnectedAfter;
  }

  lemma NextKeepsCallerHolds(tid: TimerIds, s: ClientState, a: Action)
    requires Enabled(s, a) && CallerHolds(s)
    ensures CallerHolds(Next(tid, s, a))
  {
    hide Enabled, Failing, LedgerAfter, CallsAfter, QueueAfter, WheelAfter, TimerOfAfter, LoopAfter, StopAfter,
         ConnectedAfter;
    forall id | id in Next(tid, s, a).ledger.Held(Caller) ensures Failing(Next(tid, s, a), id) {
      CallerHeldAfter(s, a, id);
      FailingAfter(tid, s, a, id);
    }
  }

  /** What the loop thread does inside its callbacks. */
  predicate OfLoop(a: Action) {
    || a.TakeResponse? || a.DisarmResponse? || a.InvokeResponse? || a.Tick? || a.TakeTimedOut? || a.InvokeTimedOut?
    || a.EndTick? || a.NoticeLoss? || a.SwapLost? || a.DropLost? || a.EndLoss?
  }

  /** The other actions leave the loop where it is, with what it holds. */
  lemma OthersLeaveLoop(s: ClientState, a: Action)
    requires Enabled(s, a) && !OfLoop(a) && !Boundary(a)
    ensures LoopAfter(s, a) == s.loopStage && LedgerAfter(s, a).Held(Loop) == s.ledger.Held(Loop)
  {
    hide Register, Refuse, TakeOne, TakeAll, Invoke, Ascii;
  }

  lemma NextParts(tid: TimerIds, s: ClientState, a: Action)
    requires Enabled(s, a)
    ensures var r := Next(tid, s, a);
      && r.ledger == LedgerAfter(s, a) && r.loopStage == LoopAfter(s, a) && r.stopStage == StopAfter(s, a)
      && r.stopped == (s.stopped || a.SetStopped?)
  {
    hide Enabled, LedgerAfter, CallsAfter, QueueAfter, WheelAfter, TimerOfAfter, LoopAfter, StopAfter, ConnectedAfter;
  }

  predicate OfResponse(a: Action) { a.TakeResponse? || a.DisarmResponse? || a.InvokeResponse? }

  lemma ResponseKeepsLoopHolds(tid: TimerIds, s: ClientState, a: Action)
    requires Enabled(s, a) && LoopHolds(s) && OfResponse(a)
    ensures LoopHolds(Next(tid, s, a))
  {
    NextParts(tid, s, a);
    hide Next, Ascii, StopAfter;
  }

  predicate OfTick(a: Action) { a.Tick? || a.TakeTimedOut? || a.InvokeTimedOut? || a.EndTick? }

  lemma TickKeepsLoopHolds(tid: TimerIds, s: ClientState, a: Action)
    requires Enabled(s, a) && LoopHolds(s) && OfTick(a)
    ensures LoopHolds(Next(tid, s, a))
  {
    NextParts(tid, s, a);
    hide Next, Ascii, DueIds, StopAfter;
  }

  lemma LoopKeepsLoopHolds(tid: TimerIds, s: ClientState, a: Action)
    requires Enabled(s, a) && LoopHolds(s) && OfLoop(a) && !OfResponse(a) && !OfTick(a)
    ensures LoopHolds(Next(tid, s, a))
  {
    NextParts(tid, s, a);
    hide Next, Ascii, DueIds, StopAfter;
  }

  /** Starting, entering and leaving the loop. */
  predicate Boundary(a: Action) { a.Start? || a.EnterLoop? || a.ExitLoop? }

  lemma BoundaryKeepsLoopHolds(tid: TimerIds, s: ClientState, a: Action)
    requires Enabled(s, a) && LoopHolds(s) && Boundary(a)
    ensures LoopHolds(Next(tid, s, a))
  {
    hide Ascii, CallsAfter, QueueAfter, WheelAfter, TimerOfAfter, StopAfter, ConnectedAfter;
  }

  lemma NextKeepsLoopHolds(tid: TimerIds, s: ClientState, a: Action)
    requires Enabled(s, a) && LoopHolds(s)
    ensures LoopHolds(Next(tid, s, a))
  {
    hide Enabled, OfLoop, OfResponse, OfTick, Boundary, LedgerAfter, LoopAfter, CallsAfter, QueueAfter, WheelAfter, TimerOfAfter, StopAfter,
         ConnectedAfter;
    if OfResponse(a) {
      ResponseKeepsLoopHolds(tid, s, a);
    } else if OfTick(a) {
      TickKeepsLoopHolds(tid, s, a);
    } else if OfLoop(a) {
      LoopKeepsLoopHolds(tid, s, a);
    } else if Boundary(a) {
      BoundaryKeepsLoopHolds(tid, s, a);
    } else {
      OthersLeaveLoop(s, a);
    }
  }

  lemma NextKeepsStopperHolds(tid: TimerIds, s: ClientState, a: Action)
    requires Enabled(s, a) && StopperHolds(s)
    ensures StopperHolds(Next(tid, s, a))
  {
    hide Ascii, CallsAfter, QueueAfter, WheelAfter, TimerOfAfter, LoopAfter, ConnectedAfter;
  }

  /** Stop returns only when the loop thread has left, or there is none. */
  predicate JoinedGone(s: ClientState) { s.stopStage == Joined ==> s.loopStage == Exited || s.loopStage == NotStarted }

  lemma NextKeepsJoinedGone(tid: TimerIds, s: ClientState, a: Action)
    requires Enabled(s, a) && EmptyOnceStopped(s) && JoinedGone(s)
    ensures JoinedGone(Next(tid, s, a))
  {
    hide Ascii, LedgerAfter, CallsAfter, QueueAfter, WheelAfter, TimerOfAfter, ConnectedAfter;
  }

  lemma StaysEmpty(s: ClientState, a: Action)
    requires Enabled(s, a) && EmptyOnceStopped(s) && (PastSwap(s) || a.SwapStopped?)
    ensures LedgerAfter(s, a).pending == {}
  {
    hide Ascii;
  }

  lemma StopStages(s: ClientState, a: Action)
    requires Enabled(s, a) && (s.stopped <==> s.stopStage != NotStopped)
    ensures StopAfter(s, a) != NotStopped <==> s.stopped || a.SetStopped?
    ensures SwapDone(StopAfter(s, a)) ==> PastSwap(s) || a.SwapStopped?
  {
  }

  lemma EmptyAfter(s: ClientState, a: Action)
    requires Enabled(s, a) && EmptyOnceStopped(s)
    ensures StopAfter(s, a) != NotStopped <==> s.stopped || a.SetStopped?
    ensures SwapDone(StopAfter(s, a)) ==> LedgerAfter(s, a).pending == {}
  {
    StopStages(s, a);
    hide Enabled, StopAfter, LedgerAfter, SwapDone;
    if PastSwap(s) || a.SwapStopped? { StaysEmpty(s, a); }
  }

  lemma NextKeepsEmptyOnceStopped(tid: TimerIds, s: ClientState, a: Action)
    requires Enabled(s, a) && EmptyOnceStopped(s)
    ensures EmptyOnceStopped(Next(tid, s, a))
  {
    EmptyAfter(s, a);
    NextParts(tid, s, a);
    hide Next, Enabled, LedgerAfter, LoopAfter, StopAfter, SwapDone;
  }

  lemma IssuedAfter(s: ClientState, a: Action)
    requires Enabled(s, a)
    ensures LedgerAfter(s, a).issued == s.ledger.issued + (if a.Issue? then {a.id} else {})
  {
    hide Register, Refuse, TakeOne, TakeAll, Invoke, Ascii;
  }

  lemma CallsKeysAfter(s: ClientState, a: Action)
    requires Enabled(s, a)
    ensures CallsAfter(s, a).Keys == s.calls.Keys + (if a.Issue? then {a.id} else {})
  {
  }

  lemma NextKeepsIssued(tid: TimerIds, s: ClientState, a: Action)
    requires Enabled(s, a) && IssuedCalls(s)
    ensures IssuedCalls(Next(tid, s, a))
  {
    hide Enabled, LedgerAfter, CallsAfter, QueueAfter, WheelAfter, TimerOfAfter, LoopAfter, StopAfter, ConnectedAfter;
    IssuedAfter(s, a);
    CallsKeysAfter(s, a);
  }

  lemma NextKeepsAccounted(tid: TimerIds, s: ClientState, a: Action)
    requires Enabled(s, a) && Accounted(s)
    ensures Accounted(Next(tid, s, a))
  {
    assert Next(tid, s, a).ledger == LedgerAfter(s, a);
    hide Next, Enabled, LedgerAfter, Balanced, CallerHolds, LoopHolds, StopperHolds, EmptyOnceStopped, IssuedCalls,
         JoinedGone;
    NextKeepsBalanced(s, a);
    NextKeepsCallerHolds(tid, s, a);
    NextKeepsLoopHolds(tid, s, a);
    NextKeepsStopperHolds(tid, s, a);
    NextKeepsEmptyOnceStopped(tid, s, a);
    NextKeepsIssued(tid, s, a);
    NextKeepsJoinedGone(tid, s, a);
  }

  lemma {:induction false} RunAccounted(tid: TimerIds, actions: seq<Action>)
    ensures Accounted(Run(tid, actions))
  {
    hide Next, Enabled, Accounted;
    if actions == [] {
      InitialAccounted();
    } else {
      RunAccounted(tid, actions[..|actions| - 1]);
      var s := Run(tid, actions[..|actions| - 1]);
      if Enabled(s, actions[|actions| - 1]) {
        NextKeepsAccounted(tid, s, actions[|actions| - 1]);
      }
    }
  }

  lemma InitialAccounted()
    ensures Accounted(Initial())
  {
  }

  /** No callback runs twice, in any interleaving: each issued call is in exactly one place. */
  lemma AtMostOneCallback(tid: TimerIds, actions: seq<Action>, s: ClientState, id: Id)
    requires s == Run(tid, actions)
    ensures s.ledger.invoked[id] <= 1 && Tally(s.ledger, id) == One(id in s.ledger.issued)
  {
    hide Run;
    RunAccounted(tid, actions);
    assert Tally(s.ledger, id) == One(id in s.ledger.issued);
  }

  lemma NextPastSwap(tid: TimerIds, s: ClientState, a: Action)
    requires Enabled(s, a) && PastSwap(s)
    ensures PastSwap(Next(tid, s, a))
  {
    hide LedgerAfter, CallsAfter, QueueAfter, WheelAfter, TimerOfAfter, LoopAfter, ConnectedAfter;
  }

  lemma {:induction false} StaysPastSwap(tid: TimerIds, actions: seq<Action>, more: seq<Action>)
    requires PastSwap(Run(tid, actions))
    ensures PastSwap(Run(tid, actions + more))
  {
    hide Next, Enabled, PastSwap;
    if more == [] {
      assert actions + more == actions;
    } else {
      var before := actions + more[..|more| - 1];
      assert (actions + more)[..|actions + more| - 1] == before;
      StaysPastSwap(tid, actions, more[..|more| - 1]);
      if Enabled(Run(tid, before), more[|more| - 1]) {
        NextPastSwap(tid, Run(tid, before), more[|more| - 1]);
      }
    }
  }

  /** Once Stop has swapped, `pending_calls_` stays empty for ever. */
  lemma EmptyAfterStop(tid: TimerIds, actions: seq<Action>, more: seq<Action>)
    requires PastSwap(Run(tid, actions))
    ensures Run(tid, actions + more).ledger.pending == {}
  {
    hide Run;
    RunAccounted(tid, actions + more);
    StaysPastSwap(tid, actions, more);
  }

  /** The loop thread is between callbacks, or not in the loop. */
  predicate Resting(l: LoopStage) { l == NotStarted || l == NotEntered || l == Idle || l == Exited }

  /** No thread is inside CallRaw, the loop is between callbacks or gone, and Stop has dropped what was pending. */
  predicate Quiescent(s: ClientState) {
    && (forall id | id in s.calls :: s.calls[id].stage == Returned)
    && Resting(s.loopStage)
    && PastDrop(s)
  }

  /** Exactly one callback: when the threads are quiescent, each issued call was called back exactly once. */
  lemma ExactlyOneCallback(tid: TimerIds, actions: seq<Action>, s: ClientState, id: Id)
    requires s == Run(tid, actions) && Quiescent(s) && id in s.ledger.issued
    ensures s.ledger.invoked[id] == 1
  {
    hide Run;
    RunAccounted(tid, actions);
    assert Tally(s.ledger, id) == 1;
    assert id in s.ledger.Held(Caller) ==> Failing(s, id);
  }

  // ---------------------------------------------------------------- the hand-off to the loop

  lemma EnqueuedAfter(s: ClientState, a: Action)
    requires Enabled(s, a)
    ensures QueueAfter(s, a).Enqueued() ==
      s.queue.Enqueued() + (if PushedBy(a).Some? then [PushedBy(a).value] else [])
  {
    QueueLaws(s.queue, if PushedBy(a).Some? then PushedBy(a).value else Teardown);
    assert s.queue.Enqueued() + [] == s.queue.Enqueued();
  }

  /** Everything pushed on the loop's queue, in the order it was pushed. */
  function Pushes(tid: TimerIds, actions: seq<Action>): seq<Functor> {
    if actions == [] then [] else
      var before, a := actions[..|actions| - 1], actions[|actions| - 1];
      Pushes(tid, before) + (if Enabled(Run(tid, before), a) && PushedBy(a).Some? then [PushedBy(a).value] else [])
  }

  lemma {:induction false} EnqueuedIsPushes(tid: TimerIds, actions: seq<Action>)
    ensures Run(tid, actions).queue.Enqueued() == Pushes(tid, actions)
  {
    hide Enabled, PushedBy, LedgerAfter, CallsAfter, QueueAfter, WheelAfter, TimerOfAfter, LoopAfter, StopAfter,
         ConnectedAfter;
    if actions != [] {
      EnqueuedIsPushes(tid, actions[..|actions| - 1]);
      var s, a := Run(tid, actions[..|actions| - 1]), actions[|actions| - 1];
      if Enabled(s, a) { EnqueuedAfter(s, a); }
      assert s.queue.Enqueued() + [] == s.queue.Enqueued();
    }
  }

  /** The step of a thread that leaves a functor for the loop. */
  predicate AsksFor(s: ClientState, a: Action, f: Functor) {
    Enabled(s, a) &&
    match f
    case Arm(id) => a.ArmCall? && a.id == id
    case Transmit(id) => a.SendCall? && a.id == id && !a.dropped
    case Disarm(id) => (a.DisarmFailed? || a.DropStopped?) && a.id == id
    case Teardown => a.Disconnect?
  }

  lemma AsksIffPushes(s: ClientState, a: Action, f: Functor)
    ensures AsksFor(s, a, f) <==> Enabled(s, a) && PushedBy(a) == Some(f)
  {
    hide Enabled;
  }

  ghost predicate AskedFor(tid: TimerIds, actions: seq<Action>, f: Functor) {
    exists k :: 0 <= k < |actions| && AsksFor(Run(tid, actions[..k]), actions[k], f)
  }

  lemma AskedForGrows(tid: TimerIds, actions: seq<Action>, f: Functor)
    requires actions != []
    ensures var before := actions[..|actions| - 1];
      AskedFor(tid, actions, f) <==> AskedFor(tid, before, f) || AsksFor(Run(tid, before), actions[|actions| - 1], f)
  {
    hide AsksFor, Run;
    var n := |actions| - 1;
    assert forall k | 0 <= k < n :: actions[..k] == actions[..n][..k] && actions[k] == actions[..n][k];
  }

  /**
   * What the loop is handed, said from the functor's side: a timer's arming if and only if the call's thread asked for
   * it, a request if and only if its thread sent it over a connection that was there, a removal if and only if the
   * call failed to encode or was dropped by Stop, the disconnection if and only if Stop got there.
   */
  lemma {:induction false} QueuedIff(tid: TimerIds, actions: seq<Action>, f: Functor)
    ensures f in Run(tid, actions).queue.Enqueued() <==> AskedFor(tid, actions, f)
  {
    if actions == [] {
      assert !AskedFor(tid, [], f);
    } else {
      hide Enabled, PushedBy, AsksFor, Next, AskedFor, Run;
      var before := actions[..|actions| - 1];
      QueuedIff(tid, before, f);
      AskedForGrows(tid, actions, f);
      AsksIffPushes(Run(tid, before), actions[|actions| - 1], f);
      QueueNext(tid, actions, f);
    }
  }

  lemma QueueNext(tid: TimerIds, actions: seq<Action>, f: Functor)
    requires actions != []
    ensures var before, a := actions[..|actions| - 1], actions[|actions| - 1];
      f in Run(tid, actions).queue.Enqueued() <==>
        f in Run(tid, before).queue.Enqueued() || (Enabled(Run(tid, before), a) && PushedBy(a) == Some(f))
  {
    EnqueuedIsPushes(tid, actions);
    EnqueuedIsPushes(tid, actions[..|actions| - 1]);
    hide Run, Enabled, PushedBy;
  }

  /** The loop runs a prefix of what was pushed: nothing is lost in between, run twice or run out of order. */
  lemma ExecutedIsPrefix(tid: TimerIds, actions: seq<Action>, s: ClientState)
    requires s == Run(tid, actions)
    ensures s.queue.executed <= Pushes(tid, actions)
  {
    hide Run;
    EnqueuedIsPushes(tid, actions);
    QueueLaws(s.queue, Teardown);
  }

  /** A timer is asked for, and a request sent, by the thread of its call only, in that order and once each. */
  ghost predicate HandedOver(s: ClientState) {
    (forall id: Id :: StageOk(s, id)) && Orderly(s.queue.Enqueued())
  }

  ghost predicate StageOk(s: ClientState, id: Id) {
    var q := s.queue.Enqueued();
    && (Arm(id) in q ==> id in s.calls && s.calls[id].stage != BeforeTimer)
    && (Transmit(id) in q ==> AtStage(s, id, Returned))
    && (PastArm(s, id) ==> Arm(id) in q)
  }

  predicate PastArm(s: ClientState, id: Id) { AtStage(s, id, BeforeEncode) || AtStage(s, id, BeforeSend) }

  ghost predicate Orderly(q: seq<Functor>) {
    && (forall i, j | 0 <= i < j < |q| && (q[i].Transmit? || q[i].Arm?) :: q[i] != q[j])
    && (forall j | 0 <= j < |q| && q[j].Transmit? :: Arm(q[j].id) in q[..j])
  }

  lemma AppendKeepsOrderly(q: seq<Functor>, f: Functor)
    requires Orderly(q) && (f.Transmit? || f.Arm? ==> f !in q) && (f.Transmit? ==> Arm(f.id) in q)
    ensures Orderly(q + [f])
  {
    var r := q + [f];
    forall i, j | 0 <= i < j < |r| && (r[i].Transmit? || r[i].Arm?) ensures r[i] != r[j] {
      assert r[i] == q[i] && q[i] in q;
    }
    forall j | 0 <= j < |r| && r[j].Transmit? ensures Arm(r[j].id) in r[..j] {
      assert r[..j] == q[..j];
    }
  }

  lemma PushFits(s: ClientState, a: Action)
    requires Enabled(s, a) && HandedOver(s) && PushedBy(a).Some?
    ensures var f, q := PushedBy(a).value, s.queue.Enqueued();
      (f.Transmit? || f.Arm? ==> f !in q) && (f.Transmit? ==> Arm(f.id) in q)
  {
    if a.SendCall? || a.ArmCall? { assert StageOk(s, a.id); }
  }

  /** The stage of a call moves forward only. */
  lemma StagesAfter(s: ClientState, a: Action, id: Id)
    requires Enabled(s, a) && id in CallsAfter(s, a)
    ensures var now := CallsAfter(s, a)[id];
      if id !in s.calls then
        && a.Issue? && a.id == id && now.timeoutMs == a.timeoutMs
        && now.stage == (if s.stopped || !s.connected then Returned else BeforeTimer)
      else
        && now.timeoutMs == s.calls[id].timeoutMs
        && (now.stage == s.calls[id].stage || (Moved(a) == Some((id, now.stage)) && s.calls[id].stage != Returned))
  {
  }

  lemma StageStaysOk(s: ClientState, a: Action, s': ClientState, id: Id)
    requires Enabled(s, a) && StageOk(s, id) && s'.calls == CallsAfter(s, a)
    requires s'.queue.Enqueued() == s.queue.Enqueued() + (if PushedBy(a).Some? then [PushedBy(a).value] else [])
    ensures StageOk(s', id)
  {
    CallStays(s, a, id);
    if id in s'.calls { StagesAfter(s, a, id); }
    hide CallsAfter;
  }

  lemma CallStays(s: ClientState, a: Action, id: Id)
    requires Enabled(s, a)
    ensures id in s.calls ==> id in CallsAfter(s, a)
    ensures a.ArmCall? || a.SendCall? ==> a.id in CallsAfter(s, a) && CallsAfter(s, a)[a.id].stage == Moved(a).value.1
  {
  }

  lemma NextKeepsHandedOver(tid: TimerIds, s: ClientState, a: Action)
    requires Enabled(s, a) && HandedOver(s)
    ensures HandedOver(Next(tid, s, a))
  {
    var s', q := Next(tid, s, a), s.queue.Enqueued();
    assert s'.calls == CallsAfter(s, a) && s'.queue == QueueAfter(s, a);
    hide Next, Enabled, QueueAfter, CallsAfter, Orderly, StageOk, PushedBy;
    EnqueuedAfter(s, a);
    assert q + [] == q;
    if PushedBy(a).Some? {
      PushFits(s, a);
      AppendKeepsOrderly(q, PushedBy(a).value);
    }
    forall id: Id ensures StageOk(s', id) { StageStaysOk(s, a, s', id); }
  }

  lemma {:induction false} RunHandedOver(tid: TimerIds, actions: seq<Action>)
    ensures HandedOver(Run(tid, actions))
  {
    if actions != [] {
      hide Next, Enabled, HandedOver;
      RunHandedOver(tid, actions[..|actions| - 1]);
      if Enabled(Run(tid, actions[..|actions| - 1]), actions[|actions| - 1]) {
        NextKeepsHandedOver(tid, Run(tid, actions[..|actions| - 1]), actions[|actions| - 1]);
      }
    }
  }

  /** In every run, by the time the loop hands a request to `sendInLoop` it has armed that request's timer. */
  lemma TimerArmedBeforeSend(tid: TimerIds, actions: seq<Action>, s: ClientState, j: nat)
    requires s == Run(tid, actions) && j < |s.queue.executed| && s.queue.executed[j].Transmit?
    ensures Arm(s.queue.executed[j].id) in s.queue.executed[..j]
  {
    hide Run, StageOk;
    RunHandedOver(tid, actions);
    var q := s.queue;
    QueueLaws(q, Teardown);
    assert q.Enqueued()[j] == q.executed[j] && q.Enqueued()[..j] == q.executed[..j];
  }

  /** Neither a timer is armed nor a request sent twice: the loop's front is not among what it has run. */
  lemma FrontIsNew(s: ClientState)
    requires HandedOver(s) && s.queue.batch != [] && (s.queue.batch[0].Transmit? || s.queue.batch[0].Arm?)
    ensures s.queue.batch[0] !in s.queue.executed
  {
    var q, n := s.queue.Enqueued(), |s.queue.executed|;
    assert q[n] == s.queue.batch[0];
    forall i | 0 <= i < n ensures s.queue.executed[i] != s.queue.batch[0] {
      assert q[i] == s.queue.executed[i];
    }
  }

  // ---------------------------------------------------------------- when a call is let in

  /** The connection goes: seen by the loop, noticed while the client is stopped, or taken down by Stop. */
  predicate Disconnects(s: ClientState, a: Action) {
    Enabled(s, a) &&
    (|| (a.EndLoss? && a.disconnected) || a.LoseQuietly? || (a.RunFunctor? && s.queue.batch[0].Teardown?))
  }

  predicate Connects(s: ClientState, a: Action) { Enabled(s, a) && a.Connect? }

  /** Connected at action `k` and not disconnected since. */
  ghost predicate UpSince(tid: TimerIds, actions: seq<Action>, k: nat) {
    && k < |actions| && Connects(Run(tid, actions[..k]), actions[k])
    && forall j | k < j < |actions| :: !Disconnects(Run(tid, actions[..j]), actions[j])
  }

  lemma ConnectedNext(tid: TimerIds, s: ClientState, a: Action)
    requires Enabled(s, a)
    ensures Next(tid, s, a).connected <==> Connects(s, a) || (s.connected && !Disconnects(s, a))
    ensures Connects(s, a) ==> !Disconnects(s, a)
  {
    hide LedgerAfter, CallsAfter, QueueAfter, WheelAfter, TimerOfAfter, LoopAfter, StopAfter;
  }

  lemma UpSinceGrows(tid: TimerIds, actions: seq<Action>, k: nat)
    requires actions != []
    ensures var n := |actions| - 1;
      UpSince(tid, actions, k) <==>
        (k == n && Connects(Run(tid, actions[..n]), actions[n]))
        || (UpSince(tid, actions[..n], k) && !Disconnects(Run(tid, actions[..n]), actions[n]))
  {
    hide Run, Connects, Disconnects;
    var n := |actions| - 1;
    assert forall j: nat | j < n :: actions[..n][..j] == actions[..j] && actions[..n][j] == actions[j];
  }

  /** A call is let in exactly while the last connection made has not been lost or taken down. */
  lemma {:induction false} ConnectedIff(tid: TimerIds, actions: seq<Action>)
    ensures Run(tid, actions).connected <==> exists k: nat :: UpSince(tid, actions, k)
  {
    hide Next, Enabled, UpSince;
    if actions == [] {
      NeverUp(tid);
    } else {
      var n := |actions| - 1;
      ConnectedIff(tid, actions[..n]);
      forall k: nat
        ensures UpSince(tid, actions, k) <==>
          (k == n && Connects(Run(tid, actions[..n]), actions[n]))
          || (UpSince(tid, actions[..n], k) && !Disconnects(Run(tid, actions[..n]), actions[n]))
      {
        UpSinceGrows(tid, actions, k);
      }
      var s, a := Run(tid, actions[..n]), actions[n];
      if Enabled(s, a) { ConnectedNext(tid, s, a); }
      assert UpSince(tid, actions, n) <==> Connects(s, a) || (UpSince(tid, actions[..n], n) && !Disconnects(s, a));
      if s.connected {
        var k: nat :| UpSince(tid, actions[..n], k);
        assert UpSince(tid, actions, k) <==> (k == n && Connects(s, a)) || !Disconnects(s, a);
      }
    }
  }

  lemma NeverUp(tid: TimerIds)
    ensures forall k: nat :: !UpSince(tid, [], k)
  {
  }

  // ---------------------------------------------------------------- codes the client makes up are errors

  /** A successful code only ever comes from a response. */
  predicate ErrorsAreErrors(s: ClientState) {
    match s.loopStage
    case Losing(code, _) => code != OK
    case Dropping(code, _) => code != OK
    case _ => true
  }

  lemma NextKeepsErrors(tid: TimerIds, s: ClientState, a: Action)
    requires Enabled(s, a) && ErrorsAreErrors(s)
    ensures ErrorsAreErrors(Next(tid, s, a))
  {
    hide LedgerAfter, CallsAfter, QueueAfter, WheelAfter, TimerOfAfter, StopAfter, ConnectedAfter;
  }

  /** Where a callback gets a successful response from. */
  lemma SuccessComesFromResponse(s: ClientState, a: Action, id: Id)
    requires Enabled(s, a) && ErrorsAreErrors(s)
    requires var d := LedgerAfter(s, a).delivered; id in d && d[id].code == OK
    ensures var d := LedgerAfter(s, a).delivered;
      || (id in s.ledger.delivered && d[id] == s.ledger.delivered[id])
      || (s.loopStage == Disarmed(d[id]) && d[id].requestId == id)
  {
    hide Ascii;
  }
}
