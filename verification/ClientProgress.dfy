/**
 * The client's Stop completes every call: once it is called some thread can always make progress until all are
 * quiescent, every such step brings a natural number down, and only new input brings it up. Stop returns as well,
 * unless the loop thread overwrites its quit flag.
 */
module ClientProgress {
  import opened Basics
  import Envelope
  import opened ErrorCodes
  import opened EventLoops
  import opened CallLedger
  import opened ClientProtocol
  import opened ClientTheorems

  // ---------------------------------------------------------------- the quit flag

  predicate Running(l: LoopStage) { l != NotStarted && l != NotEntered && l != Exited }

  /** Stop is past Quit, but the loop has cleared its flag since or will do so when it is entered. */
  predicate Overtaken(s: ClientState) {
    s.stopStage == Quitting && (s.loopStage == NotEntered || (Running(s.loopStage) && !s.quit))
  }

  /** Quit while the thread has been started and has not entered the loop is the one step that leads there. */
  lemma OnlyEarlyQuitOvertakes(tid: TimerIds, s: ClientState, a: Action)
    requires Enabled(s, a) && EmptyOnceStopped(s)
    ensures Overtaken(Next(tid, s, a)) <==> Overtaken(s) || (a.Quit? && s.loopStage == NotEntered)
  {
    hide LedgerAfter, CallsAfter, QueueAfter, WheelAfter, TimerOfAfter, ConnectedAfter;
  }

  /** Somewhere in the run Quit is called in that state. */
  ghost predicate QuitTooEarly(tid: TimerIds, actions: seq<Action>) {
    exists k :: 0 <= k < |actions| && EarlyQuit(Run(tid, actions[..k]), actions[k])
  }

  predicate EarlyQuit(s: ClientState, a: Action) { a.Quit? && Enabled(s, a) && s.loopStage == NotEntered }

  lemma QuitTooEarlyGrows(tid: TimerIds, actions: seq<Action>)
    requires actions != []
    ensures var before, a := actions[..|actions| - 1], actions[|actions| - 1];
      QuitTooEarly(tid, actions) <==> QuitTooEarly(tid, before) || EarlyQuit(Run(tid, before), a)
  {
    hide EarlyQuit, Run;
    var before := actions[..|actions| - 1];
    assert forall k | 0 <= k < |before| :: actions[..k] == before[..k];
    if QuitTooEarly(tid, before) {
      var k :| 0 <= k < |before| && EarlyQuit(Run(tid, before[..k]), before[k]);
      assert EarlyQuit(Run(tid, actions[..k]), actions[k]);
    }
    if k :| 0 <= k < |actions| && EarlyQuit(Run(tid, actions[..k]), actions[k]) {
      assert k < |before| ==> before[k] == actions[k];
    }
  }

  lemma {:induction false} OvertakenIff(tid: TimerIds, actions: seq<Action>)
    ensures Overtaken(Run(tid, actions)) <==> QuitTooEarly(tid, actions)
  {
    hide Next, Enabled, QuitTooEarly, Overtaken;
    if actions == [] {
      NotOvertakenAtFirst(tid);
    } else {
      var before, a := actions[..|actions| - 1], actions[|actions| - 1];
      OvertakenIff(tid, before);
      QuitTooEarlyGrows(tid, actions);
      if Enabled(Run(tid, before), a) {
        RunAccounted(tid, before);
        OnlyEarlyQuitOvertakes(tid, Run(tid, before), a);
      }
    }
  }

  lemma NotOvertakenAtFirst(tid: TimerIds)
    ensures !Overtaken(Initial()) && !QuitTooEarly(tid, [])
  {
  }

  /** A client that was stopped right after it was started: the loop is entered after Quit. */
  function Hasty(): seq<Action> { [Start, SetStopped, SwapStopped, Disconnect, Quit, EnterLoop] }

  lemma RunThen(tid: TimerIds, actions: seq<Action>, a: Action)
    ensures var s := Run(tid, actions); Run(tid, actions + [a]) == if Enabled(s, a) then Next(tid, s, a) else s
  {
    assert (actions + [a])[..|actions|] == actions;
  }

  /** Where that run is after its first `k` actions. */
  predicate HastyAt(s: ClientState, k: nat) {
    && s.ledger.pending == {} && s.ledger.Held(Stopper) == {}
    && s.loopStage == (if k == 0 then NotStarted else if k < 6 then NotEntered else Idle)
    && s.stopStage == (if k < 2 then NotStopped else if k == 2 then FlagSet else if k == 3 then Swapped
                       else if k == 4 then Disconnecting else Quitting)
    && s.stopped == (k >= 2) && s.quit == (k == 5)
  }

  lemma HastyLedger(s: ClientState, k: nat)
    requires k < 6 && HastyAt(s, k)
    ensures Enabled(s, Hasty()[k])
    ensures var l := LedgerAfter(s, Hasty()[k]); l.pending == {} && l.Held(Stopper) == {}
  {
    hide Ascii, Invoke, Register, Refuse, TakeOne;
  }

  lemma HastyStep(tid: TimerIds, s: ClientState, k: nat)
    requires k < 6 && HastyAt(s, k)
    ensures Enabled(s, Hasty()[k]) && HastyAt(Next(tid, s, Hasty()[k]), k + 1)
  {
    HastyLedger(s, k);
    hide Enabled, LedgerAfter, CallsAfter, QueueAfter, WheelAfter, TimerOfAfter, ConnectedAfter;
  }

  lemma HastyBegins(tid: TimerIds)
    ensures HastyAt(Run(tid, Hasty()[..0]), 0) && |Hasty()| == 6
  {
  }

  lemma {:induction false} HastyRun(tid: TimerIds, k: nat)
    requires k <= 6
    ensures HastyAt(Run(tid, Hasty()[..k]), k)
  {
    hide Next, Enabled, HastyAt, Hasty, Run;
    HastyBegins(tid);
    if k > 0 {
      HastyRun(tid, k - 1);
      HastyStep(tid, Run(tid, Hasty()[..k - 1]), k - 1);
      assert Hasty()[..k] == Hasty()[..k - 1] + [Hasty()[k - 1]];
      RunThen(tid, Hasty()[..k - 1], Hasty()[k - 1]);
    }
  }

  lemma HastyHangs(tid: TimerIds, more: seq<Action>)
    ensures Run(tid, Hasty()).loopStage == Idle && Run(tid, Hasty() + more).stopStage == Quitting
  {
    hide Run;
    HastyRun(tid, 6);
    assert Hasty()[..6] == Hasty();
    NeverReturns(tid, Hasty(), more);
  }

  lemma {:induction false} NeverReturns(tid: TimerIds, actions: seq<Action>, more: seq<Action>)
    requires Overtaken(Run(tid, actions))
    ensures Overtaken(Run(tid, actions + more))
  {
    hide Next, Enabled, Overtaken;
    if more == [] {
      assert actions + more == actions;
    } else {
      var before, a := more[..|more| - 1], more[|more| - 1];
      NeverReturns(tid, actions, before);
      assert actions + more == actions + before + [a];
      RunThen(tid, actions + before, a);
      var s := Run(tid, actions + before);
      if Enabled(s, a) {
        RunAccounted(tid, actions + before);
        OnlyEarlyQuitOvertakes(tid, s, a);
      }
    }
  }

  // ---------------------------------------------------------------- some thread can go on

  /** Progress a thread already inside CallRaw, a loop callback or Stop makes by itself, or the loop with its functors. */
  predicate Internal(s: ClientState, a: Action) {
    || a.ArmCall? || a.EncodeCall? || a.SendCall? || a.TakeFailed? || a.DisarmFailed? || a.InvokeFailed?
    || a.DisarmResponse? || a.InvokeResponse? || a.TakeTimedOut? || a.InvokeTimedOut? || a.EndTick?
    || a.SwapLost? || a.DropLost? || a.EndLoss? || a.EnterLoop?
    || a.SwapStopped? || a.DropStopped? || a.Disconnect? || a.Quit? || a.RunFunctor? || a.ExitLoop? || a.Join?
    || (a.SwapFunctors? && s.queue.pending != [])
  }

  /** A step of that kind, Quit not before the loop is entered. */
  predicate GoesOn(s: ClientState, a: Action) { Internal(s, a) && Enabled(s, a) && !EarlyQuit(s, a) }

  ghost predicate CanGoOn(s: ClientState) { exists a :: GoesOn(s, a) }

  lemma CallCanGoOn(s: ClientState, id: Id)
    requires id in s.calls && s.calls[id].stage != Returned
    ensures CanGoOn(s)
  {
    var next :=
      match s.calls[id].stage
      case BeforeTimer => ArmCall(id)
      case BeforeEncode => EncodeCall(id, true)
      case BeforeSend => SendCall(id, true)
      case EncodeFailed => TakeFailed(id)
      case FailTaken => DisarmFailed(id)
      case _ => InvokeFailed(id);
    assert GoesOn(s, next);
  }

  lemma LoopCanGoOn(s: ClientState)
    requires !Resting(s.loopStage) || s.loopStage == NotEntered
    ensures CanGoOn(s)
  {
    if s.loopStage.Dropping? && s.ledger.Held(Loop) != {} {
      var id :| id in s.ledger.Held(Loop);
      assert GoesOn(s, DropLost(id));
    } else {
      var next :=
        match s.loopStage
        case NotEntered => EnterLoop
        case Responding(_) => DisarmResponse
        case Disarmed(_) => InvokeResponse
        case Ticking(due) => if due == [] then EndTick else TakeTimedOut
        case Firing(_, _) => InvokeTimedOut
        case Losing(_, _) => SwapLost
        case _ => EndLoss(true);
      assert GoesOn(s, next);
    }
  }

  lemma StopCanGoOn(s: ClientState)
    requires s.stopStage != NotStopped && s.stopStage != Joined && !Overtaken(s)
    requires Resting(s.loopStage) && s.loopStage != NotEntered
    ensures CanGoOn(s)
  {
    if s.stopStage == Swapped && s.ledger.Held(Stopper) != {} {
      var id :| id in s.ledger.Held(Stopper);
      assert GoesOn(s, DropStopped(id));
    } else {
      var next :=
        match s.stopStage
        case FlagSet => SwapStopped
        case Swapped => Disconnect
        case Disconnecting => Quit
        case _ => if s.loopStage != Idle then Join else if s.queue.batch != [] then RunFunctor(0) else ExitLoop;
      assert GoesOn(s, next);
    }
  }

  /** All calls are completed, and Stop has returned or never will. */
  predicate Settled(s: ClientState) { Quiescent(s) && (s.stopStage == Joined || Overtaken(s)) }

  /** Until then some thread can go on by itself. */
  lemma StopNeverStuck(s: ClientState)
    requires s.stopStage != NotStopped && !Settled(s)
    ensures CanGoOn(s)
  {
    if id :| id in s.calls && s.calls[id].stage != Returned {
      CallCanGoOn(s, id);
    } else if Resting(s.loopStage) && s.loopStage != NotEntered {
      StopCanGoOn(s);
    } else {
      LoopCanGoOn(s);
    }
  }

  // ---------------------------------------------------------------- how much is left to do

  function StageWeight(stage: Stage): nat {
    match stage
    case BeforeTimer => 9
    case BeforeEncode => 6
    case BeforeSend => 3
    case EncodeFailed => 5
    case FailTaken => 4
    case FailDisarmed => 1
    case Returned => 0
  }

  ghost function CallsWeight(calls: map<Id, Call>): nat {
    if calls == map[] then 0 else
      var id :| id in calls;
      StageWeight(calls[id].stage) + CallsWeight(calls - {id})
  }

  lemma {:induction false} CallsWeightSplit(calls: map<Id, Call>, id: Id)
    requires id in calls
    ensures CallsWeight(calls) == StageWeight(calls[id].stage) + CallsWeight(calls - {id})
    decreases |calls|
  {
    hide StageWeight;
    var x :| x in calls && CallsWeight(calls) == StageWeight(calls[x].stage) + CallsWeight(calls - {x});
    if x != id {
      CallsWeightSplit(calls - {x}, id);
      CallsWeightSplit(calls - {id}, x);
      assert calls - {x} - {id} == calls - {id} - {x};
    }
  }

  lemma CallsWeightUpdate(calls: map<Id, Call>, id: Id, call: Call)
    ensures CallsWeight(calls[id := call]) ==
      CallsWeight(calls) + StageWeight(call.stage) - (if id in calls then StageWeight(calls[id].stage) else 0)
  {
    hide StageWeight, CallsWeight;
    CallsWeightSplit(calls[id := call], id);
    if id in calls {
      CallsWeightSplit(calls, id);
      assert calls[id := call] - {id} == calls - {id};
    } else {
      assert calls[id := call] - {id} == calls;
    }
  }

  function LoopWeight(l: LoopStage): nat {
    match l
    case NotStarted => 0
    case NotEntered => 2
    case Idle => 1
    case Responding(_) => 3
    case Disarmed(_) => 2
    case Ticking(due) => 2 + 2 * |due|
    case Firing(_, due) => 3 + 2 * |due|
    case Losing(_, _) => 3
    case Dropping(_, _) => 2
    case Exited => 0
  }

  function StopWeight(st: StopStage): nat {
    match st
    case NotStopped => 15
    case FlagSet => 12
    case Swapped => 9
    case Disconnecting => 6
    case Quitting => 3
    case Joined => 0
  }

  function LedgerWeight(l: Ledger): nat { 3 * |l.pending| + |l.Held(Loop)| + 3 * |l.Held(Stopper)| }

  function QueueWeight(q: LoopQueue<Functor>): nat { 2 * |q.pending| + |q.batch| }

  ghost function Measure(s: ClientState): nat {
    CallsWeight(s.calls) + LoopWeight(s.loopStage) + StopWeight(s.stopStage) + LedgerWeight(s.ledger) + QueueWeight(s.queue)
  }

  /** What new input may add: a response, or a tick with its callbacks. */
  function InputWeight(s: ClientState, a: Action): nat
    requires Enabled(s, a)
  {
    if a.TakeResponse? then 2
    else if a.Tick? then 1 + 2 * |LoopAfter(s, a).due|
    else 0
  }

  function MoveDelta(a: Action): int {
    match a
    case ArmCall(_) => -3
    case EncodeCall(_, _) => -1
    case SendCall(_, _) => -3
    case TakeFailed(_) => -1
    case DisarmFailed(_) => -3
    case InvokeFailed(_) => -1
    case _ => 0
  }

  lemma StageDrops(s: ClientState, a: Action)
    requires Enabled(s, a) && Moved(a).Some?
    ensures var (id, stage) := Moved(a).value;
      id in s.calls && StageWeight(stage) <= StageWeight(s.calls[id].stage) + MoveDelta(a)
  {
  }

  lemma CallsStep(s: ClientState, a: Action)
    requires Enabled(s, a) && (s.stopped || !a.Issue?)
    ensures CallsWeight(CallsAfter(s, a)) <= CallsWeight(s.calls) + MoveDelta(a)
  {
    hide CallsWeight, StageWeight;
    if a.Issue? {
      CallsWeightUpdate(s.calls, a.id, Call(Returned, a.timeoutMs));
      ReturnedWeighsNothing();
    } else if Moved(a).Some? {
      var (id, stage) := Moved(a).value;
      StageDrops(s, a);
      CallsWeightUpdate(s.calls, id, s.calls[id].(stage := stage));
    }
  }

  function LoopDelta(s: ClientState, a: Action): int
    requires Enabled(s, a)
  {
    match a
    case Start => 2
    case EnterLoop => -1
    case TakeResponse(_) => 2
    case Tick(_, _) => 1 + 2 * |LoopAfter(s, a).due|
    case NoticeLoss(_, _) => 2
    case DisarmResponse => -1
    case InvokeResponse => -1
    case TakeTimedOut => -1
    case InvokeTimedOut => -1
    case EndTick => -1
    case SwapLost => -1
    case EndLoss(_) => -1
    case ExitLoop => -1
    case _ => 0
  }

  lemma LoopStep(s: ClientState, a: Action)
    requires Enabled(s, a)
    ensures LoopWeight(LoopAfter(s, a)) == LoopWeight(s.loopStage) + LoopDelta(s, a)
  {
    hide DueIds;
  }

  function StopDelta(a: Action): int { if a.SetStopped? || a.SwapStopped? || a.Disconnect? || a.Quit? || a.Join? then -3 else 0 }

  lemma StopStep(s: ClientState, a: Action)
    requires Enabled(s, a)
    ensures StopWeight(StopAfter(s, a)) == StopWeight(s.stopStage) + StopDelta(a)
  {
  }

  lemma ReturnedWeighsNothing()
    ensures StageWeight(Returned) == 0
  {
  }

  function QueueDelta(s: ClientState, a: Action): int {
    if a.SwapFunctors? then -|s.queue.pending|
    else if a.RunFunctor? then -1
    else if PushedBy(a).Some? then 2
    else 0
  }

  lemma QueueStep(s: ClientState, a: Action)
    requires Enabled(s, a)
    ensures QueueWeight(QueueAfter(s, a)) == QueueWeight(s.queue) + QueueDelta(s, a)
  {
  }

  lemma TakeWeighs(l: Ledger, o: Owner, id: Id)
    ensures LedgerWeight(TakeOne(l, o, id)) <= LedgerWeight(l)
    ensures LedgerWeight(TakeAll(l, o)) <= LedgerWeight(l)
  {
  }

  lemma InvokeWeighs(l: Ledger, o: Owner, id: Id, resp: Envelope.RpcResponse)
    ensures LedgerWeight(Invoke(l, o, id, resp)) <= LedgerWeight(l)
    ensures id in l.Held(o) && o == Loop ==> LedgerWeight(Invoke(l, o, id, resp)) == LedgerWeight(l) - 1
    ensures id in l.Held(o) && o == Stopper ==> LedgerWeight(Invoke(l, o, id, resp)) == LedgerWeight(l) - 3
  {
  }

  lemma RefuseWeighs(l: Ledger, id: Id, resp: Envelope.RpcResponse)
    ensures LedgerWeight(Refuse(l, id, resp)) == LedgerWeight(l)
  {
  }

  function LedgerDelta(a: Action): int { if a.DropLost? then -1 else if a.DropStopped? then -3 else 0 }

  lemma LedgerStep(s: ClientState, a: Action)
    requires Enabled(s, a) && (s.stopped || !a.Issue?)
    ensures LedgerWeight(LedgerAfter(s, a)) <= LedgerWeight(s.ledger) + LedgerDelta(a)
  {
    hide LedgerWeight, Refuse, TakeOne, TakeAll, Invoke, Ascii;
    var l := s.ledger;
    match a {
      case Issue(id, _) => RefuseWeighs(l, id, ErrorResponse(id, CLIENT_NOT_RUNNING, Ascii("client stopped/disconnected")));
      case TakeFailed(id) => TakeWeighs(l, Caller, id);
      case InvokeFailed(id) =>
        InvokeWeighs(l, Caller, id, ErrorResponse(id, CLIENT_ENCODE_FAILED, Ascii("encode request failed")));
      case TakeResponse(resp) => TakeWeighs(l, Loop, resp.requestId);
      case InvokeResponse => InvokeWeighs(l, Loop, s.loopStage.resp.requestId, s.loopStage.resp);
      case TakeTimedOut => TakeWeighs(l, Loop, s.loopStage.due[0]);
      case InvokeTimedOut =>
        InvokeWeighs(l, Loop, s.loopStage.id,
                     ErrorResponse(s.loopStage.id, CLIENT_REQUEST_TIMEOUT, Ascii("request timeout")));
      case SwapLost => TakeWeighs(l, Loop, []);
      case DropLost(id) => InvokeWeighs(l, Loop, id, ErrorResponse(id, s.loopStage.code, s.loopStage.msg));
      case SwapStopped => TakeWeighs(l, Stopper, []);
      case DropStopped(id) =>
        InvokeWeighs(l, Stopper, id, ErrorResponse(id, CLIENT_NOT_RUNNING, Ascii("rpc client stopped")));
      case _ =>
    }
  }

  function Cost(b: bool): nat { if b then 1 else 0 }

  lemma DeltasAddUp(s: ClientState, a: Action)
    requires Enabled(s, a) && s.stopped && s.stopStage != NotStopped
    ensures MoveDelta(a) + LoopDelta(s, a) + StopDelta(a) + LedgerDelta(a) + QueueDelta(s, a) + Cost(Internal(s, a))
      <= InputWeight(s, a)
  {
    hide LoopAfter;
  }

  lemma MeasureAfter(tid: TimerIds, s: ClientState, a: Action)
    requires Enabled(s, a)
    ensures Measure(Next(tid, s, a)) == CallsWeight(CallsAfter(s, a)) + LoopWeight(LoopAfter(s, a))
      + StopWeight(StopAfter(s, a)) + LedgerWeight(LedgerAfter(s, a)) + QueueWeight(QueueAfter(s, a))
  {
    hide Enabled, CallsWeight, LedgerWeight, QueueWeight, LoopWeight, StopWeight, LedgerAfter, CallsAfter, QueueAfter,
         LoopAfter, StopAfter, WheelAfter, TimerOfAfter, ConnectedAfter;
  }

  /** Once Stop is called, progress lowers the measure and nothing but new input raises it. */
  lemma StepMeasure(tid: TimerIds, s: ClientState, a: Action)
    requires Enabled(s, a) && s.stopped && s.stopStage != NotStopped
    ensures Measure(Next(tid, s, a)) + Cost(Internal(s, a)) <= Measure(s) + InputWeight(s, a)
  {
    hide Enabled, Next, CallsWeight, LedgerWeight, QueueWeight, LoopWeight, StopWeight, LedgerAfter, CallsAfter,
         QueueAfter, LoopAfter, StopAfter, MoveDelta, LoopDelta, StopDelta, LedgerDelta, QueueDelta, Internal, InputWeight;
    DeltasAddUp(s, a);
    MeasureAfter(tid, s, a);
    CallsStep(s, a);
    QueueStep(s, a);
    LedgerStep(s, a);
    LoopStep(s, a);
    StopStep(s, a);
  }

  // ---------------------------------------------------------------- Stop completes every call

  function InternalSteps(tid: TimerIds, actions: seq<Action>, more: seq<Action>): nat {
    if more == [] then 0 else
      var before, a := more[..|more| - 1], more[|more| - 1];
      var s := Run(tid, actions + before);
      InternalSteps(tid, actions, before) + Cost(Enabled(s, a) && Internal(s, a))
  }

  function Inputs(tid: TimerIds, actions: seq<Action>, more: seq<Action>): nat {
    if more == [] then 0 else
      var before, a := more[..|more| - 1], more[|more| - 1];
      var s := Run(tid, actions + before);
      Inputs(tid, actions, before) + (if Enabled(s, a) then InputWeight(s, a) else 0)
  }

  predicate Stopping(s: ClientState) { s.stopped && s.stopStage != NotStopped }

  lemma StaysStopping(tid: TimerIds, s: ClientState, a: Action)
    requires Enabled(s, a) && Stopping(s)
    ensures Stopping(Next(tid, s, a))
  {
    hide LedgerAfter, CallsAfter, QueueAfter, LoopAfter, WheelAfter, TimerOfAfter, ConnectedAfter;
  }

  /**
   * However the threads are scheduled after Stop is called, they take no more steps of their own than the measure
   * allows, plus 2 for every response that still arrives, and 1 for every tick and 2 for every timer it fires.
   */
  lemma {:induction false} StepsAreBounded(tid: TimerIds, actions: seq<Action>, more: seq<Action>)
    requires Stopping(Run(tid, actions))
    ensures var s, t := Run(tid, actions), Run(tid, actions + more);
      Stopping(t) && Measure(t) + InternalSteps(tid, actions, more) <= Measure(s) + Inputs(tid, actions, more)
  {
    hide Next, Enabled, Measure, Internal, InputWeight, Stopping;
    if more == [] {
      assert actions + more == actions;
    } else {
      var before, a := more[..|more| - 1], more[|more| - 1];
      assert (actions + more)[..|actions + more| - 1] == actions + before;
      StepsAreBounded(tid, actions, before);
      var s := Run(tid, actions + before);
      if Enabled(s, a) {
        StoppingMeasure(tid, s, a);
        StaysStopping(tid, s, a);
      }
    }
  }

  lemma StoppingMeasure(tid: TimerIds, s: ClientState, a: Action)
    requires Enabled(s, a) && Stopping(s)
    ensures Measure(Next(tid, s, a)) + Cost(Internal(s, a)) <= Measure(s) + InputWeight(s, a)
    ensures Internal(s, a) ==> InputWeight(s, a) == 0
  {
    hide Enabled, Measure, Next;
    StepMeasure(tid, s, a);
  }

  /** Threads going on by themselves, with Quit not before the loop is entered, do not get Stop overtaken. */
  lemma GoingOn(tid: TimerIds, actions: seq<Action>, a: Action)
    requires Stopping(Run(tid, actions)) && GoesOn(Run(tid, actions), a)
    ensures var s := Run(tid, actions);
      && Run(tid, actions + [a]) == Next(tid, s, a) && Stopping(Next(tid, s, a))
      && Measure(Next(tid, s, a)) < Measure(s)
      && (Overtaken(Next(tid, s, a)) ==> Overtaken(s))
  {
    hide Measure, Next;
    var s := Run(tid, actions);
    RunThen(tid, actions, a);
    StaysStopping(tid, s, a);
    StoppingMeasure(tid, s, a);
    RunAccounted(tid, actions);
    OnlyEarlyQuitOvertakes(tid, s, a);
  }

  /** At most `Measure` steps of the threads settle the client, and Quit is not overtaken by any of them. */
  lemma {:induction false} StopSettles(tid: TimerIds, actions: seq<Action>) returns (more: seq<Action>)
    requires Stopping(Run(tid, actions))
    ensures Settled(Run(tid, actions + more)) && |more| <= Measure(Run(tid, actions))
    ensures InternalSteps(tid, actions, more) == |more|
    ensures Overtaken(Run(tid, actions + more)) ==> Overtaken(Run(tid, actions))
    decreases Measure(Run(tid, actions))
  {
    hide Run, Next, Enabled, Measure, Internal, InputWeight, Settled, Overtaken, EarlyQuit, Stopping;
    var s := Run(tid, actions);
    if Settled(s) {
      more := [];
      assert actions + more == actions;
    } else {
      StoppingStarted(s);
      StopNeverStuck(s);
      var a :| GoesOn(s, a);
      GoingOn(tid, actions, a);
      var rest := StopSettles(tid, actions + [a]);
      more := [a] + rest;
      assert actions + [a] + rest == actions + more;
      InternalStepsJoin(tid, actions, a, rest);
    }
  }

  /**
   * From every state after the call of Stop, at most `Measure` steps of the threads bring the client to rest, and
   * then every call ever issued has been called back exactly once. Stop has returned by then, unless Quit came
   * before the loop was entered.
   */
  lemma StopCompletesEveryCall(tid: TimerIds, actions: seq<Action>) returns (more: seq<Action>)
    requires Stopping(Run(tid, actions))
    ensures Quiescent(Run(tid, actions + more)) && |more| <= Measure(Run(tid, actions))
    ensures InternalSteps(tid, actions, more) == |more|
    ensures var l := Run(tid, actions + more).ledger; forall id | id in l.issued :: l.invoked[id] == 1
    ensures Run(tid, actions + more).stopStage == Joined || Overtaken(Run(tid, actions))
  {
    hide Run, Measure, Quiescent, Overtaken, Stopping, InternalSteps;
    more := StopSettles(tid, actions);
    var t := Run(tid, actions + more);
    forall id | id in t.ledger.issued ensures t.ledger.invoked[id] == 1 {
      ExactlyOneCallback(tid, actions + more, t, id);
    }
  }

  lemma StoppingStarted(s: ClientState)
    requires Stopping(s)
    ensures s.stopStage != NotStopped
  {
  }

  /** Once it is called, Stop can return if and only if Quit was not called between start and entry of the loop. */
  lemma StopReturnsIff(tid: TimerIds, actions: seq<Action>)
    requires Stopping(Run(tid, actions))
    ensures (exists more :: Run(tid, actions + more).stopStage == Joined) <==> !QuitTooEarly(tid, actions)
  {
    hide Run, Stopping, QuitTooEarly;
    OvertakenIff(tid, actions);
    if more :| Run(tid, actions + more).stopStage == Joined {
      if Overtaken(Run(tid, actions)) { NeverReturns(tid, actions, more); }
    }
    if !Overtaken(Run(tid, actions)) {
      var more := StopCompletesEveryCall(tid, actions);
    }
  }

  /** A loop that was entered, or never started, when Stop was called is never too late: no schedule makes Stop hang. */
  lemma {:induction false} EnteredInTime(tid: TimerIds, actions: seq<Action>, more: seq<Action>)
    requires var s := Run(tid, actions); Stopping(s) && s.loopStage != NotEntered && !Overtaken(s)
    ensures var s := Run(tid, actions + more);
      && Stopping(s) && s.loopStage != NotEntered && !Overtaken(s)
      && (s.stopStage == Joined || CanGoOn(s))
  {
    hide Next, Enabled, Overtaken, EarlyQuit, Stopping, Quiescent, CanGoOn;
    if more == [] {
      assert actions + more == actions;
    } else {
      var before, a := more[..|more| - 1], more[|more| - 1];
      EnteredInTime(tid, actions, before);
      assert actions + more == actions + before + [a];
      RunThen(tid, actions + before, a);
      var s := Run(tid, actions + before);
      if Enabled(s, a) {
        RunAccounted(tid, actions + before);
        OnlyEarlyQuitOvertakes(tid, s, a);
        StaysStopping(tid, s, a);
        StaysEntered(tid, s, a);
      }
    }
    StoppingStarted(Run(tid, actions + more));
    if Run(tid, actions + more).stopStage != Joined { StopNeverStuck(Run(tid, actions + more)); }
  }

  lemma StaysEntered(tid: TimerIds, s: ClientState, a: Action)
    requires Enabled(s, a) && Stopping(s) && s.loopStage != NotEntered
    ensures Next(tid, s, a).loopStage != NotEntered
  {
    hide LedgerAfter, CallsAfter, QueueAfter, WheelAfter, TimerOfAfter, ConnectedAfter;
  }

  lemma {:induction false} InternalStepsJoin(tid: TimerIds, actions: seq<Action>, a: Action, rest: seq<Action>)
    ensures InternalSteps(tid, actions, [a] + rest) ==
      Cost(Enabled(Run(tid, actions), a) && Internal(Run(tid, actions), a)) + InternalSteps(tid, actions + [a], rest)
  {
    hide Run, Enabled, Internal;
    if rest == [] {
      assert [a] + rest == [a] && [a][..0] == [] && actions + [] == actions;
      assert InternalSteps(tid, actions, [a][..0]) == 0;
    } else {
      var n := |rest| - 1;
      InternalStepsJoin(tid, actions, a, rest[..n]);
      assert ([a] + rest)[..n + 1] == [a] + rest[..n];
      assert actions + [a] + rest[..n] == actions + ([a] + rest[..n]);
    }
  }
}
