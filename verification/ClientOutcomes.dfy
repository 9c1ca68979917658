/**
 * What the callback of a call is invoked with (code/rpc/rpc_client.cc): whichever thread gets to the call first
 * decides, and the callback receives exactly what that thread has to say.
 */
module ClientOutcomes {
  import opened Basics
  import opened Envelope
  import opened ErrorCodes
  import opened EventLoops
  import opened TimingWheel
  import opened WheelCountdown
  import opened CallLedger
  import opened ClientProtocol
  import opened ClientTheorems

  /** What completes a call. */
  datatype Cause =
    | Refused
    | NotEncoded
    | ByResponse(resp: RpcResponse)
    | TimedOut
    | Lost(code: int32, msg: Bytes)
    | Dropped

  /** What the callback receives then: a response as it came, whatever its code, or an error of the client's own. */
  function Told(cause: Cause, id: Id): RpcResponse {
    match cause
    case Refused => RpcResponse(id, CLIENT_NOT_RUNNING, Ascii("client stopped/disconnected"), [])
    case NotEncoded => RpcResponse(id, CLIENT_ENCODE_FAILED, Ascii("encode request failed"), [])
    case ByResponse(resp) => resp
    case TimedOut => RpcResponse(id, CLIENT_REQUEST_TIMEOUT, Ascii("request timeout"), [])
    case Lost(code, msg) => RpcResponse(id, code, msg, [])
    case Dropped => RpcResponse(id, CLIENT_NOT_RUNNING, Ascii("rpc client stopped"), [])
  }

  /** Whether an action gets to call `id`: it is refused at once, or still pending and found by a thread. */
  function CauseAt(s: ClientState, a: Action, id: Id): Option<Cause>
    requires Enabled(s, a)
  {
    match a
    case Issue(x, _) => if x == id && (s.stopped || !s.connected) then Some(Refused) else None
    case TakeFailed(x) => if x == id && id in s.ledger.pending then Some(NotEncoded) else None
    case TakeResponse(resp) => if resp.requestId == id && id in s.ledger.pending then Some(ByResponse(resp)) else None
    case TakeTimedOut => if s.loopStage.due[0] == id && id in s.ledger.pending then Some(TimedOut) else None
    case SwapLost => if id in s.ledger.pending then Some(Lost(s.loopStage.code, s.loopStage.msg)) else None
    case SwapStopped => if id in s.ledger.pending then Some(Dropped) else None
    case _ => None
  }

  /** The first that does so in a run. */
  function CauseOf(tid: TimerIds, actions: seq<Action>, id: Id): Option<Cause> {
    if actions == [] then None else
      var before, a := actions[..|actions| - 1], actions[|actions| - 1];
      var earlier := CauseOf(tid, before, id);
      var s := Run(tid, before);
      if earlier.Some? || !Enabled(s, a) then earlier else CauseAt(s, a, id)
  }

  // ---------------------------------------------------------------- the callback is held for that cause

  /** What the loop thread will say to the calls it holds. */
  function LoopCause(l: LoopStage): Option<Cause> {
    match l
    case Responding(resp) => Some(ByResponse(resp))
    case Disarmed(resp) => Some(ByResponse(resp))
    case Firing(_, _) => Some(TimedOut)
    case Dropping(code, msg) => Some(Lost(code, msg))
    case _ => None
  }

  predicate Explains(l: Ledger, loop: LoopStage, id: Id, cause: Option<Cause>) {
    && (cause.None? <==> id !in l.issued || id in l.pending)
    && (id in l.Held(Caller) ==> cause == Some(NotEncoded))
    && (id in l.Held(Loop) ==> cause == LoopCause(loop))
    && (id in l.Held(Stopper) ==> cause == Some(Dropped))
    && (id in l.delivered ==> cause.Some? && l.delivered[id] == Told(cause.value, id))
  }

  predicate Explained(s: ClientState, id: Id, cause: Option<Cause>) { Explains(s.ledger, s.loopStage, id, cause) }

  /** Who takes a callback for which reason. */
  predicate TakesFor(o: Owner, l: Ledger, loop: LoopStage, loop': LoopStage, why: Cause) {
    match o
    case Caller => why == NotEncoded && loop' == loop
    case Stopper => why == Dropped && loop' == loop
    case Loop => LoopCause(loop') == Some(why) && l.Held(Loop) == {}
  }

  lemma TakeOneExplains(l: Ledger, loop: LoopStage, loop': LoopStage, o: Owner, x: Id, why: Cause, id: Id, cause: Option<Cause>)
    requires Explains(l, loop, id, cause) && Tally(l, id) == One(id in l.issued) && TakesFor(o, l, loop, loop', why)
    ensures Explains(TakeOne(l, o, x), loop', id,
                     if cause.Some? then cause else if x == id && id in l.pending then Some(why) else None)
  {
    TakeOneMoves(l, o, x, id);
    hide TakeOne, Told;
  }

  lemma TakeAllExplains(l: Ledger, loop: LoopStage, loop': LoopStage, o: Owner, why: Cause, id: Id, cause: Option<Cause>)
    requires Explains(l, loop, id, cause) && Tally(l, id) == One(id in l.issued)
    requires o == Loop ==> LoopCause(loop') == Some(why) && l.Held(Loop) == {}
    requires o == Stopper ==> why == Dropped && loop' == loop
    requires o != Caller
    ensures Explains(TakeAll(l, o), loop', id, if cause.Some? then cause else if id in l.pending then Some(why) else None)
  {
    TakeAllMoves(l, o, id);
    hide TakeAll, Told;
  }

  lemma InvokeOneExplains(l: Ledger, loop: LoopStage, loop': LoopStage, o: Owner, x: Id, resp: RpcResponse, id: Id,
                          cause: Option<Cause>)
    requires Explains(l, loop, id, cause)
    requires id in l.Held(o) && id == x ==> cause.Some? && resp == Told(cause.value, id)
    requires loop' == loop || (o == Loop && l.Held(Loop) <= {x})
    ensures Explains(Invoke(l, o, x, resp), loop', id, cause)
  {
    InvokeMoves(l, o, x, resp, id);
    hide Invoke, Told;
  }

  function CauseAfter(s: ClientState, a: Action, id: Id, cause: Option<Cause>): Option<Cause>
    requires Enabled(s, a)
  {
    if cause.Some? then cause else CauseAt(s, a, id)
  }

  /** Taking: the call is pending before. */
  predicate Takes(a: Action) {
    a.TakeFailed? || a.TakeResponse? || a.TakeTimedOut? || a.SwapLost? || a.SwapStopped?
  }

  predicate Invokes(a: Action) {
    a.InvokeFailed? || a.InvokeResponse? || a.InvokeTimedOut? || a.DropLost? || a.DropStopped?
  }

  lemma IssueExplains(tid: TimerIds, s: ClientState, a: Action, id: Id, cause: Option<Cause>)
    requires Enabled(s, a) && a.Issue? && Explained(s, id, cause) && Balanced(s.ledger)
    ensures Explained(Next(tid, s, a), id, CauseAfter(s, a, id, cause))
  {
    NextParts(tid, s, a);
    assert Tally(s.ledger, id) == One(id in s.ledger.issued);
    hide Next, Ascii, Balanced, Tally;
  }

  lemma CallerTakes(tid: TimerIds, s: ClientState, a: Action, id: Id, cause: Option<Cause>)
    requires Enabled(s, a) && (a.TakeFailed? || a.SwapStopped?) && Explained(s, id, cause) && Balanced(s.ledger)
    ensures Explained(Next(tid, s, a), id, CauseAfter(s, a, id, cause))
  {
    NextParts(tid, s, a);
    assert Tally(s.ledger, id) == One(id in s.ledger.issued);
    hide Next, Ascii, Balanced, Tally, TakeOne, TakeAll, Told, Explains;
    if a.TakeFailed? {
      TakeOneExplains(s.ledger, s.loopStage, s.loopStage, Caller, a.id, NotEncoded, id, cause);
    } else {
      TakeAllExplains(s.ledger, s.loopStage, s.loopStage, Stopper, Dropped, id, cause);
    }
  }

  lemma LoopTakes(tid: TimerIds, s: ClientState, a: Action, id: Id, cause: Option<Cause>)
    requires Enabled(s, a) && (a.TakeResponse? || a.TakeTimedOut? || a.SwapLost?)
    requires Explained(s, id, cause) && Balanced(s.ledger) && LoopHolds(s)
    ensures Explained(Next(tid, s, a), id, CauseAfter(s, a, id, cause))
  {
    NextParts(tid, s, a);
    assert Tally(s.ledger, id) == One(id in s.ledger.issued);
    assert s.ledger.Held(Loop) == {};
    hide Next, Ascii, Balanced, LoopHolds, Tally, TakeOne, TakeAll, Told, Explains, StopAfter;
    var l, loop, loop' := s.ledger, s.loopStage, LoopAfter(s, a);
    match a {
      case TakeResponse(resp) => TakeOneExplains(l, loop, loop', Loop, resp.requestId, ByResponse(resp), id, cause);
      case TakeTimedOut => TakeOneExplains(l, loop, loop', Loop, loop.due[0], TimedOut, id, cause);
      case SwapLost => TakeAllExplains(l, loop, loop', Loop, Lost(loop.code, loop.msg), id, cause);
    }
  }

  /** A thread that holds a callback invokes it with what its cause has to say. */
  lemma HeldCause(s: ClientState, id: Id, cause: Option<Cause>)
    requires Explained(s, id, cause)
    ensures id in s.ledger.Held(Caller) ==> cause == Some(NotEncoded)
    ensures id in s.ledger.Held(Loop) ==> cause == LoopCause(s.loopStage)
    ensures id in s.ledger.Held(Stopper) ==> cause == Some(Dropped)
  {
  }

  lemma LoopInvokes(tid: TimerIds, s: ClientState, a: Action, id: Id, cause: Option<Cause>)
    requires Enabled(s, a) && (a.InvokeResponse? || a.InvokeTimedOut?) && Explained(s, id, cause) && LoopHolds(s)
    ensures Explained(Next(tid, s, a), id, CauseAfter(s, a, id, cause))
  {
    NextParts(tid, s, a);
    HeldCause(s, id, cause);
    hide Next, Ascii, Invoke, Explains, StopAfter;
    var l, loop, loop' := s.ledger, s.loopStage, LoopAfter(s, a);
    if a.InvokeResponse? {
      InvokeOneExplains(l, loop, loop', Loop, loop.resp.requestId, loop.resp, id, cause);
    } else {
      InvokeOneExplains(l, loop, loop', Loop, loop.id, Told(TimedOut, loop.id), id, cause);
    }
  }

  lemma LossInvokes(tid: TimerIds, s: ClientState, a: Action, id: Id, cause: Option<Cause>)
    requires Enabled(s, a) && a.DropLost? && Explained(s, id, cause)
    ensures Explained(Next(tid, s, a), id, CauseAfter(s, a, id, cause))
  {
    NextParts(tid, s, a);
    HeldCause(s, id, cause);
    hide Next, Ascii, Invoke, Explains, StopAfter;
    var why := Told(Lost(s.loopStage.code, s.loopStage.msg), a.id);
    InvokeOneExplains(s.ledger, s.loopStage, s.loopStage, Loop, a.id, why, id, cause);
  }

  lemma OthersInvoke(tid: TimerIds, s: ClientState, a: Action, id: Id, cause: Option<Cause>)
    requires Enabled(s, a) && (a.InvokeFailed? || a.DropStopped?) && Explained(s, id, cause)
    ensures Explained(Next(tid, s, a), id, CauseAfter(s, a, id, cause))
  {
    NextParts(tid, s, a);
    HeldCause(s, id, cause);
    hide Next, Ascii, Invoke, Explains, StopAfter;
    if a.InvokeFailed? {
      InvokeOneExplains(s.ledger, s.loopStage, s.loopStage, Caller, a.id, Told(NotEncoded, a.id), id, cause);
    } else {
      InvokeOneExplains(s.ledger, s.loopStage, s.loopStage, Stopper, a.id, Told(Dropped, a.id), id, cause);
    }
  }

  lemma OthersExplain(tid: TimerIds, s: ClientState, a: Action, id: Id, cause: Option<Cause>)
    requires Enabled(s, a) && !a.Issue? && !Takes(a) && !Invokes(a) && Explained(s, id, cause) && LoopHolds(s)
    ensures Explained(Next(tid, s, a), id, CauseAfter(s, a, id, cause))
  {
    NextParts(tid, s, a);
    hide Next, Ascii, DueIds, Told;
  }

  lemma NextExplains(tid: TimerIds, s: ClientState, a: Action, id: Id, cause: Option<Cause>)
    requires Enabled(s, a) && Explained(s, id, cause) && Accounted(s)
    ensures Explained(Next(tid, s, a), id, CauseAfter(s, a, id, cause))
  {
    assert Balanced(s.ledger) && LoopHolds(s);
    hide Next, Enabled, Explained, Accounted, CauseAfter, LoopHolds, Balanced;
    if a.Issue? {
      IssueExplains(tid, s, a, id, cause);
    } else if a.TakeFailed? || a.SwapStopped? {
      CallerTakes(tid, s, a, id, cause);
    } else if a.TakeResponse? || a.TakeTimedOut? || a.SwapLost? {
      LoopTakes(tid, s, a, id, cause);
    } else if a.InvokeResponse? || a.InvokeTimedOut? {
      LoopInvokes(tid, s, a, id, cause);
    } else if a.DropLost? {
      LossInvokes(tid, s, a, id, cause);
    } else if a.InvokeFailed? || a.DropStopped? {
      OthersInvoke(tid, s, a, id, cause);
    } else {
      OthersExplain(tid, s, a, id, cause);
    }
  }

  lemma {:induction false} RunExplained(tid: TimerIds, actions: seq<Action>, id: Id)
    ensures Explained(Run(tid, actions), id, CauseOf(tid, actions, id))
  {
    if actions != [] {
      hide Next, Enabled, Explained, Accounted, CauseAt;
      var before, a := actions[..|actions| - 1], actions[|actions| - 1];
      RunExplained(tid, before, id);
      if Enabled(Run(tid, before), a) {
        RunAccounted(tid, before);
        NextExplains(tid, Run(tid, before), a, id, CauseOf(tid, before, id));
      }
    }
  }

  /**
   * In every run, whatever a callback was invoked with is what the first action to get to its call makes of it:
   * a response exactly as it came, or the client's own error with the code of that cause.
   */
  lemma DeliveredByCause(tid: TimerIds, actions: seq<Action>, s: ClientState, id: Id)
    requires s == Run(tid, actions) && id in s.ledger.delivered
    ensures var cause := CauseOf(tid, actions, id); cause.Some? && s.ledger.delivered[id] == Told(cause.value, id)
  {
    hide Run, CauseOf, Told;
    RunExplained(tid, actions, id);
  }

  // ---------------------------------------------------------------- every cause has its grounds

  /** The event behind a cause. */
  ghost predicate Ground(s: ClientState, a: Action, id: Id, cause: Cause) {
    Enabled(s, a) &&
    match cause
    case Refused => a.Issue? && a.id == id && (s.stopped || !s.connected)
    case NotEncoded => a.EncodeCall? && a.id == id && !a.ok
    case ByResponse(resp) => a.TakeResponse? && a.resp == resp && resp.requestId == id
    case TimedOut => a.Tick? && exists h :: h in s.timerOf && s.timerOf[h] == id && Times(TickFired(s.wheel, a.now, a.clock), h) > 0
    case Lost(code, msg) => a.NoticeLoss? && a.code == code && a.msg == msg
    case Dropped => a.SetStopped?
  }

  ghost predicate Grounded(tid: TimerIds, actions: seq<Action>, id: Id, cause: Cause) {
    exists k :: 0 <= k < |actions| && Ground(Run(tid, actions[..k]), actions[k], id, cause)
  }

  lemma GroundedGrows(tid: TimerIds, actions: seq<Action>, id: Id, cause: Cause)
    requires actions != []
    ensures var before, a := actions[..|actions| - 1], actions[|actions| - 1];
      Grounded(tid, before, id, cause) || Ground(Run(tid, before), a, id, cause) ==> Grounded(tid, actions, id, cause)
  {
    hide Ground, Run;
    var before := actions[..|actions| - 1];
    if k :| 0 <= k < |before| && Ground(Run(tid, before[..k]), before[k], id, cause) {
      assert actions[..k] == before[..k] && actions[k] == before[k];
    }
  }

  /** What the threads are about to act on, and the event it stems from. */
  predicate Heading(s: ClientState, id: Id, cause: Cause) {
    match cause
    case NotEncoded => AtStage(s, id, EncodeFailed)
    case TimedOut => (s.loopStage.Ticking? || s.loopStage.Firing?) && id in s.loopStage.due
    case Lost(code, msg) => s.loopStage == Losing(code, msg) || s.loopStage == ClientProtocol.Dropping(code, msg)
    case Dropped => s.stopStage == FlagSet
    case _ => false
  }

  lemma {:induction false} DueWasFired(fired: seq<TimerNode>, timerOf: map<nat, Id>, id: Id) returns (h: nat)
    requires id in DueIds(fired, timerOf)
    ensures h in timerOf && timerOf[h] == id && Times(fired, h) > 0
  {
    if fired[0].handle in timerOf && timerOf[fired[0].handle] == id {
      h := fired[0].handle;
    } else {
      h := DueWasFired(fired[1..], timerOf, id);
    }
  }

  lemma LoopHeads(s: ClientState, a: Action, id: Id, cause: Cause)
    requires Enabled(s, a) && !a.Tick?
    ensures match cause
      case TimedOut =>
        (LoopAfter(s, a).Ticking? || LoopAfter(s, a).Firing?) && id in LoopAfter(s, a).due ==> Heading(s, id, cause)
      case Lost(code, msg) =>
        LoopAfter(s, a) == Losing(code, msg) || LoopAfter(s, a) == ClientProtocol.Dropping(code, msg) ==>
          Heading(s, id, cause) || Ground(s, a, id, cause)
      case _ => true
  {
  }

  lemma FailureHeads(tid: TimerIds, s: ClientState, a: Action, id: Id)
    requires Enabled(s, a) && AtStage(Next(tid, s, a), id, EncodeFailed)
    ensures AtStage(s, id, EncodeFailed) || Ground(s, a, id, NotEncoded)
  {
    assert Next(tid, s, a).calls == CallsAfter(s, a);
    hide Next, CallsAfter;
    StagesAfter(s, a, id);
  }

  lemma TickHeads(tid: TimerIds, s: ClientState, a: Action, id: Id, cause: Cause)
    requires Enabled(s, a) && a.Tick? && cause != NotEncoded && Heading(Next(tid, s, a), id, cause)
    ensures Heading(s, id, cause) || Ground(s, a, id, cause)
  {
    NextParts(tid, s, a);
    hide Next, TickFired, Times;
    if cause == TimedOut { var h := DueWasFired(TickFired(s.wheel, a.now, a.clock), s.timerOf, id); }
  }

  lemma NextHeading(tid: TimerIds, s: ClientState, a: Action, id: Id, cause: Cause)
    requires Enabled(s, a) && Heading(Next(tid, s, a), id, cause)
    ensures Heading(s, id, cause) || Ground(s, a, id, cause)
  {
    if cause == NotEncoded {
      FailureHeads(tid, s, a, id);
    } else if a.Tick? {
      TickHeads(tid, s, a, id, cause);
    } else {
      NextParts(tid, s, a);
      LoopHeads(s, a, id, cause);
      hide Next, LoopAfter, DueIds;
    }
  }

  lemma CauseHeads(s: ClientState, a: Action, id: Id)
    requires Enabled(s, a) && CauseAt(s, a, id).Some?
    ensures var cause := CauseAt(s, a, id).value; Heading(s, id, cause) || Ground(s, a, id, cause)
  {
  }

  lemma {:induction false} HeadingGrounded(tid: TimerIds, actions: seq<Action>, id: Id, cause: Cause)
    requires Heading(Run(tid, actions), id, cause)
    ensures Grounded(tid, actions, id, cause)
  {
    if actions != [] {
      hide Next, Enabled, Heading, Ground, Grounded;
      var before, a := actions[..|actions| - 1], actions[|actions| - 1];
      GroundedGrows(tid, actions, id, cause);
      if Enabled(Run(tid, before), a) { NextHeading(tid, Run(tid, before), a, id, cause); }
      if Heading(Run(tid, before), id, cause) { HeadingGrounded(tid, before, id, cause); }
    }
  }

  /**
   * And the cause is real: the call was refused at a stopped or unconnected client, its request did not encode, the
   * response was taken from the wire with its id, a node of its timer fired, the loss was noticed with that code, or
   * Stop was called.
   */
  lemma {:induction false} CauseIsGrounded(tid: TimerIds, actions: seq<Action>, id: Id)
    requires CauseOf(tid, actions, id).Some?
    ensures Grounded(tid, actions, id, CauseOf(tid, actions, id).value)
  {
    hide Enabled, Heading, Ground, Grounded, CauseAt, Run;
    var before, a := actions[..|actions| - 1], actions[|actions| - 1];
    var cause := CauseOf(tid, actions, id).value;
    GroundedGrows(tid, actions, id, cause);
    if CauseOf(tid, before, id).Some? {
      CauseIsGrounded(tid, before, id);
    } else {
      CauseHeads(Run(tid, before), a, id);
      if Heading(Run(tid, before), id, cause) { HeadingGrounded(tid, before, id, cause); }
    }
  }
}
