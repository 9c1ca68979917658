/**
 * The object of RpcClients and the interleaved protocol are the same client: what a method does in one go is what the
 * protocol's actions do one after the other, in the calls, the callbacks and their responses, the functors handed to
 * the loop and the timers removed.
 */
module ClientAgreement {
  import opened Basics
  import opened Envelope
  import opened ErrorCodes
  import opened EventLoops
  import opened TimingWheel
  import opened Codec
  import opened RpcCodec
  import opened CallLedger
  import opened RpcClients
  import P = ClientProtocol
  import opened ClientTheorems

  function Invoked<C>(invocations: seq<Invocation<C>>, id: Id): nat {
    if invocations == [] then 0 else
      Invoked(invocations[..|invocations| - 1], id) + One(invocations[|invocations| - 1].id == id)
  }

  /** What the callback of `id` was last invoked with. */
  function LastResponse<C>(invocations: seq<Invocation<C>>, id: Id): Option<RpcResponse> {
    if invocations == [] then None else
      var last := invocations[|invocations| - 1];
      if last.id == id then Some(last.response) else LastResponse(invocations[..|invocations| - 1], id)
  }

  ghost predicate SameCall<C>(l: Ledger, pending: map<Id, C>, invocations: seq<Invocation<C>>, id: Id) {
    && (id in l.pending <==> id in pending)
    && l.invoked[id] == Invoked(invocations, id)
    && (if id in l.delivered then Some(l.delivered[id]) else None) == LastResponse(invocations, id)
  }

  /** Object and protocol agree on every call, on what each callback was told, and on the two flags. */
  ghost predicate Agrees<C>(c: Core<C>, s: P.ClientState) {
    && c.stopped == s.stopped && c.connected == s.connected
    && forall id: Id :: SameCall(s.ledger, c.pending, c.invocations, id)
  }

  lemma InvokedNext<C>(invocations: seq<Invocation<C>>, last: Invocation<C>, id: Id)
    ensures Invoked(invocations + [last], id) == Invoked(invocations, id) + One(last.id == id)
    ensures LastResponse(invocations + [last], id) ==
      if last.id == id then Some(last.response) else LastResponse(invocations, id)
  {
    assert (invocations + [last])[..|invocations|] == invocations;
  }

  // ---------------------------------------------------------------- the ledger's operations

  lemma TakeAgrees<C>(l: Ledger, pending: map<Id, C>, invocations: seq<Invocation<C>>, o: Owner, x: Id, id: Id)
    requires SameCall(l, pending, invocations, id)
    ensures SameCall(TakeOne(l, o, x), pending - {x}, invocations, id)
  {
  }

  lemma InvokeAgrees<C>(l: Ledger, pending: map<Id, C>, invocations: seq<Invocation<C>>, o: Owner, x: Id, callback: C,
                        resp: RpcResponse, id: Id)
    requires SameCall(l, pending, invocations, id) && x in l.Held(o)
    ensures SameCall(Invoke(l, o, x, resp), pending, invocations + [Invocation(x, callback, resp)], id)
  {
    InvokedNext(invocations, Invocation(x, callback, resp), id);
  }

  lemma RefuseAgrees<C>(l: Ledger, pending: map<Id, C>, invocations: seq<Invocation<C>>, x: Id, callback: C,
                        resp: RpcResponse, id: Id)
    requires SameCall(l, pending, invocations, id)
    ensures SameCall(Refuse(l, x, resp), pending, invocations + [Invocation(x, callback, resp)], id)
  {
    InvokedNext(invocations, Invocation(x, callback, resp), id);
  }

  // ---------------------------------------------------------------- a response

  /** The three steps of the loop in handling a response. */
  ghost function AfterResponse(tid: TimerIds, s: P.ClientState, resp: RpcResponse): P.ClientState
    requires s.loopStage == P.Idle
  {
    var taken := P.Next(tid, s, P.TakeResponse(resp));
    assert taken.loopStage == P.Responding(resp);
    var disarmed := P.Next(tid, taken, P.DisarmResponse);
    assert disarmed.loopStage == P.Disarmed(resp);
    P.Next(tid, disarmed, P.InvokeResponse)
  }

  lemma ResponseSteps(tid: TimerIds, s: P.ClientState, resp: RpcResponse)
    requires s.loopStage == P.Idle
    ensures var r := AfterResponse(tid, s, resp);
      && r.ledger == Invoke(TakeOne(s.ledger, Loop, resp.requestId), Loop, resp.requestId, resp)
      && r.wheel == AfterRemove(s.wheel, tid(resp.requestId))
      && r.loopStage == P.Idle && r.stopped == s.stopped && r.connected == s.connected && r.queue == s.queue
  {
    hide Invoke, TakeOne, AfterRemove;
  }

  /** A response handled by the object is the protocol's three steps, timer removal included. */
  lemma RespondedAgrees<C>(tid: TimerIds, c: Core<C>, s: P.ClientState, resp: RpcResponse)
    requires Agrees(c, s) && s.loopStage == P.Idle && s.ledger.Held(Loop) == {}
    ensures var c', s' := Responded(tid, c, resp), AfterResponse(tid, s, resp);
      && Agrees(c', s') && s'.loopStage == P.Idle && s'.ledger.Held(Loop) == {}
      && c'.posted == c.posted + [RemoveTimer(tid(resp.requestId))]
      && s'.wheel == AfterRemove(s.wheel, tid(resp.requestId))
  {
    ResponseSteps(tid, s, resp);
    hide AfterResponse, AfterRemove;
    var x, taken := resp.requestId, TakeOne(s.ledger, Loop, resp.requestId);
    forall id: Id ensures SameCall(Invoke(taken, Loop, x, resp), Responded(tid, c, resp).pending, Responded(tid, c, resp).invocations, id) {
      assert SameCall(s.ledger, c.pending, c.invocations, id) && SameCall(s.ledger, c.pending, c.invocations, x);
      TakeAgrees(s.ledger, c.pending, c.invocations, Loop, x, id);
      hide SameCall;
      if x in c.pending {
        InvokeAgrees(taken, c.pending - {x}, c.invocations, Loop, x, c.pending[x], resp, id);
      } else {
        assert c.pending - {x} == c.pending;
      }
    }
  }

  // ---------------------------------------------------------------- a call

  /** The protocol's actions one after the other. */
  ghost function Then(tid: TimerIds, s: P.ClientState, actions: seq<P.Action>): P.ClientState {
    if actions == [] then s else
      var before := Then(tid, s, actions[..|actions| - 1]);
      var a := actions[|actions| - 1];
      if P.Enabled(before, a) then P.Next(tid, before, a) else before
  }

  /** What the thread in CallRaw does. */
  function CallSteps(refused: bool, id: Id, timeoutMs: int, encoded: bool): seq<P.Action> {
    if refused then [P.Issue(id, timeoutMs)]
    else if encoded then [P.Issue(id, timeoutMs), P.ArmCall(id), P.EncodeCall(id, true), P.SendCall(id, false)]
    else [P.Issue(id, timeoutMs), P.ArmCall(id), P.EncodeCall(id, false), P.TakeFailed(id), P.DisarmFailed(id), P.InvokeFailed(id)]
  }

  /** What it hands to the loop, in the object's words and in the protocol's. */
  function CallPosts(tid: TimerIds, c: Core, request: RpcRequest, timeoutMs: int): seq<Posted> {
    var id, encoded := request.requestId, Encode(RequestPrinter(), request);
    if c.stopped || !c.connected then []
    else if encoded.Some? then [AddTimer(tid(id), id, timeoutMs), Send(encoded.value)]
    else [AddTimer(tid(id), id, timeoutMs), RemoveTimer(tid(id))]
  }

  function CallPushes(refused: bool, id: Id, encoded: bool): seq<P.Functor> {
    if refused then [] else if encoded then [P.Arm(id), P.Transmit(id)] else [P.Arm(id), P.Disarm(id)]
  }

  lemma ThenNext(tid: TimerIds, s: P.ClientState, actions: seq<P.Action>, a: P.Action)
    ensures var before := Then(tid, s, actions);
      Then(tid, s, actions + [a]) == if P.Enabled(before, a) then P.Next(tid, before, a) else before
  {
    assert (actions + [a])[..|actions|] == actions;
  }

  /** Where CallRaw has got to since `s`: the call's stage, the ledger, and what was handed to the loop. */
  ghost predicate Reached(s: P.ClientState, r: P.ClientState, id: Id, stage: P.Stage, l: Ledger, pushes: seq<P.Functor>) {
    && r.ledger == l && P.AtStage(r, id, stage) && r.queue.Enqueued() == s.queue.Enqueued() + pushes
    && r.stopped == s.stopped && r.connected == s.connected && r.loopStage == s.loopStage && r.wheel == s.wheel
  }

  lemma IssueReaches(tid: TimerIds, s: P.ClientState, id: Id, timeoutMs: int)
    requires P.Enabled(s, P.Issue(id, timeoutMs))
    ensures var a := P.Issue(id, timeoutMs);
      Reached(s, P.Next(tid, s, a), id, if s.stopped || !s.connected then P.Returned else P.BeforeTimer, P.LedgerAfter(s, a), [])
  {
    assert s.queue.Enqueued() + [] == s.queue.Enqueued();
    hide P.LedgerAfter;
  }

  /** CallRaw's thread leaves the loop, the wheel and the connection alone. */
  lemma CallerIsQuiet(tid: TimerIds, r: P.ClientState, a: P.Action)
    requires P.Enabled(r, a) && P.Moved(a).Some?
    ensures P.LoopAfter(r, a) == r.loopStage && P.WheelAfter(tid, r, a) == r.wheel
    ensures P.ConnectedAfter(r, a) == r.connected && !a.SetStopped?
  {
  }

  lemma StepReaches(tid: TimerIds, s: P.ClientState, r: P.ClientState, id: Id, stage: P.Stage, l: Ledger,
                    pushes: seq<P.Functor>, a: P.Action)
    requires Reached(s, r, id, stage, l, pushes) && P.Enabled(r, a) && P.Moved(a).Some? && P.Moved(a).value.0 == id
    ensures var pushed := if P.PushedBy(a).Some? then [P.PushedBy(a).value] else [];
      Reached(s, P.Next(tid, r, a), id, P.Moved(a).value.1, P.LedgerAfter(r, a), pushes + pushed)
  {
    EnqueuedAfter(r, a);
    CallerIsQuiet(tid, r, a);
    var pushed := if P.PushedBy(a).Some? then [P.PushedBy(a).value] else [];
    assert s.queue.Enqueued() + pushes + pushed == s.queue.Enqueued() + (pushes + pushed);
    assert P.CallsAfter(r, a)[id].stage == P.Moved(a).value.1;
    hide P.LedgerAfter, P.CallsAfter, P.QueueAfter, P.LoopAfter, P.WheelAfter, P.TimerOfAfter, P.ConnectedAfter, P.StopAfter,
         P.PushedBy;
  }

  /** The stage a caller's action starts from. */
  function From(a: P.Action): Option<P.Stage> {
    match a
    case ArmCall(_) => Some(P.BeforeTimer)
    case EncodeCall(_, _) => Some(P.BeforeEncode)
    case SendCall(_, _) => Some(P.BeforeSend)
    case TakeFailed(_) => Some(P.EncodeFailed)
    case DisarmFailed(_) => Some(P.FailTaken)
    case InvokeFailed(_) => Some(P.FailDisarmed)
    case _ => None
  }

  /** What the action makes of the ledger. */
  function Booked(a: P.Action, l: Ledger): Ledger {
    match a
    case TakeFailed(id) => TakeOne(l, Caller, id)
    case InvokeFailed(id) =>
      Invoke(l, Caller, id, RpcResponse(id, CLIENT_ENCODE_FAILED, Ascii("encode request failed"), []))
    case _ => l
  }

  function PushedList(a: P.Action): seq<P.Functor> { if P.PushedBy(a).Some? then [P.PushedBy(a).value] else [] }

  lemma OneMore(tid: TimerIds, s: P.ClientState, actions: seq<P.Action>, id: Id, l: Ledger, pushes: seq<P.Functor>, a: P.Action)
    requires P.Moved(a).Some? && P.Moved(a).value.0 == id && From(a).Some?
    requires Reached(s, Then(tid, s, actions), id, From(a).value, l, pushes)
    ensures Reached(s, Then(tid, s, actions + [a]), id, P.Moved(a).value.1, Booked(a, l), pushes + PushedList(a))
  {
    var r := Then(tid, s, actions);
    assert P.Enabled(r, a) && P.LedgerAfter(r, a) == Booked(a, l);
    hide Then, P.LedgerAfter, Booked, P.Enabled;
    ThenNext(tid, s, actions, a);
    StepReaches(tid, s, r, id, From(a).value, l, pushes, a);
  }

  lemma Begin(tid: TimerIds, s: P.ClientState, id: Id, timeoutMs: int)
    requires P.Enabled(s, P.Issue(id, timeoutMs))
    ensures var refused := s.stopped || !s.connected;
      Reached(s, Then(tid, s, [P.Issue(id, timeoutMs)]), id, if refused then P.Returned else P.BeforeTimer,
              if refused then Refuse(s.ledger, id, RpcResponse(id, CLIENT_NOT_RUNNING, Ascii("client stopped/disconnected"), []))
              else Register(s.ledger, id), [])
  {
    var begin: seq<P.Action> := [];
    assert Then(tid, s, begin) == s && begin + [P.Issue(id, timeoutMs)] == [P.Issue(id, timeoutMs)];
    hide Then, Ascii, Register, Refuse;
    ThenNext(tid, s, begin, P.Issue(id, timeoutMs));
    IssueReaches(tid, s, id, timeoutMs);
  }

  /** The ledger after a call that did not encode. */
  function Failed(l: Ledger, id: Id): Ledger {
    var taken := TakeOne(Register(l, id), Caller, id);
    Invoke(taken, Caller, id, RpcResponse(id, CLIENT_ENCODE_FAILED, Ascii("encode request failed"), []))
  }

  lemma SentRun(tid: TimerIds, s: P.ClientState, id: Id, timeoutMs: int)
    requires P.Enabled(s, P.Issue(id, timeoutMs)) && !s.stopped && s.connected
    ensures Reached(s, Then(tid, s, CallSteps(false, id, timeoutMs, true)), id, P.Returned, Register(s.ledger, id),
                    [P.Arm(id), P.Transmit(id)])
  {
    hide Then, Reached, P.Enabled, Register;
    var l, acts := Register(s.ledger, id), [P.Issue(id, timeoutMs)];
    Begin(tid, s, id, timeoutMs);
    OneMore(tid, s, acts, id, l, [], P.ArmCall(id));
    OneMore(tid, s, acts + [P.ArmCall(id)], id, l, [] + [P.Arm(id)], P.EncodeCall(id, true));
    acts := acts + [P.ArmCall(id)] + [P.EncodeCall(id, true)];
    OneMore(tid, s, acts, id, l, [] + [P.Arm(id)] + [], P.SendCall(id, false));
    assert acts + [P.SendCall(id, false)] == CallSteps(false, id, timeoutMs, true);
    assert [] + [P.Arm(id)] + [] + [P.Transmit(id)] == [P.Arm(id), P.Transmit(id)];
  }

  lemma FailedRun(tid: TimerIds, s: P.ClientState, id: Id, timeoutMs: int)
    requires P.Enabled(s, P.Issue(id, timeoutMs)) && !s.stopped && s.connected
    ensures Reached(s, Then(tid, s, CallSteps(false, id, timeoutMs, false)), id, P.Returned, Failed(s.ledger, id),
                    [P.Arm(id), P.Disarm(id)])
  {
    hide Then, Reached, P.Enabled, Register, TakeOne, Invoke, Ascii;
    var l, acts := Register(s.ledger, id), [P.Issue(id, timeoutMs)];
    Begin(tid, s, id, timeoutMs);
    OneMore(tid, s, acts, id, l, [], P.ArmCall(id));
    OneMore(tid, s, acts + [P.ArmCall(id)], id, l, [] + [P.Arm(id)], P.EncodeCall(id, false));
    acts := acts + [P.ArmCall(id)] + [P.EncodeCall(id, false)];
    OneMore(tid, s, acts, id, l, [] + [P.Arm(id)] + [], P.TakeFailed(id));
    OneMore(tid, s, acts + [P.TakeFailed(id)], id, TakeOne(l, Caller, id), [] + [P.Arm(id)] + [] + [], P.DisarmFailed(id));
    acts := acts + [P.TakeFailed(id)] + [P.DisarmFailed(id)];
    OneMore(tid, s, acts, id, TakeOne(l, Caller, id), [] + [P.Arm(id)] + [] + [] + [P.Disarm(id)], P.InvokeFailed(id));
    assert acts + [P.InvokeFailed(id)] == CallSteps(false, id, timeoutMs, false);
    assert [] + [P.Arm(id)] + [] + [] + [P.Disarm(id)] + [] == [P.Arm(id), P.Disarm(id)];
  }

  lemma RegisterAgrees<C>(l: Ledger, pending: map<Id, C>, invocations: seq<Invocation<C>>, x: Id, callback: C, id: Id)
    requires SameCall(l, pending, invocations, id)
    ensures SameCall(Register(l, x), pending[x := callback], invocations, id)
  {
  }

  /**
   * CallRaw of the object is the caller's actions of the protocol, in all three outcomes: same calls, same callbacks
   * with the same responses, and the same functors in the same order.
   */
  lemma CalledAgrees<C>(tid: TimerIds, c: Core<C>, s: P.ClientState, request: RpcRequest, callback: C, timeoutMs: int)
    requires Agrees(c, s) && P.Enabled(s, P.Issue(request.requestId, timeoutMs))
    ensures var id, encoded := request.requestId, Encode(RequestPrinter(), request).Some?;
      var refused := c.stopped || !c.connected;
      var c', s' := Called(tid, c, request, callback, timeoutMs), Then(tid, s, CallSteps(refused, id, timeoutMs, encoded));
      && Agrees(c', s') && P.AtStage(s', id, P.Returned) && s'.wheel == s.wheel
      && c'.posted == c.posted + CallPosts(tid, c, request, timeoutMs)
      && s'.queue.Enqueued() == s.queue.Enqueued() + CallPushes(refused, id, encoded)
  {
    var x, encoded := request.requestId, Encode(RequestPrinter(), request);
    hide Then, P.Enabled;
    if c.stopped || !c.connected {
      RefusedAgrees(tid, c, s, request, callback, timeoutMs);
    } else if encoded.Some? {
      SentAgrees(tid, c, s, request, callback, timeoutMs);
    } else {
      FailedAgrees(tid, c, s, request, callback, timeoutMs);
    }
  }

  lemma RefusedAgrees<C>(tid: TimerIds, c: Core<C>, s: P.ClientState, request: RpcRequest, callback: C, timeoutMs: int)
    requires Agrees(c, s) && P.Enabled(s, P.Issue(request.requestId, timeoutMs)) && (c.stopped || !c.connected)
    ensures var c', s' := Called(tid, c, request, callback, timeoutMs), Then(tid, s, CallSteps(true, request.requestId, timeoutMs, false));
      && Agrees(c', s') && P.AtStage(s', request.requestId, P.Returned) && s'.wheel == s.wheel
      && c'.posted == c.posted + [] && s'.queue.Enqueued() == s.queue.Enqueued() + []
  {
    var x := request.requestId;
    Begin(tid, s, x, timeoutMs);
    hide Then, P.Enabled, Ascii, Refuse;
    var resp := RpcResponse(x, CLIENT_NOT_RUNNING, Ascii("client stopped/disconnected"), []);
    forall id: Id ensures SameCall(Refuse(s.ledger, x, resp), c.pending, c.invocations + [Invocation(x, callback, resp)], id) {
      assert SameCall(s.ledger, c.pending, c.invocations, id);
      hide SameCall;
      RefuseAgrees(s.ledger, c.pending, c.invocations, x, callback, resp, id);
    }
  }

  lemma SentAgrees<C>(tid: TimerIds, c: Core<C>, s: P.ClientState, request: RpcRequest, callback: C, timeoutMs: int)
    requires Agrees(c, s) && P.Enabled(s, P.Issue(request.requestId, timeoutMs)) && !c.stopped && c.connected
    requires Encode(RequestPrinter(), request).Some?
    ensures var x := request.requestId;
      var c', s' := Called(tid, c, request, callback, timeoutMs), Then(tid, s, CallSteps(false, x, timeoutMs, true));
      && Agrees(c', s') && P.AtStage(s', x, P.Returned) && s'.wheel == s.wheel
      && c'.posted == c.posted + [AddTimer(tid(x), x, timeoutMs), Send(Encode(RequestPrinter(), request).value)]
      && s'.queue.Enqueued() == s.queue.Enqueued() + [P.Arm(x), P.Transmit(x)]
  {
    var x := request.requestId;
    SentRun(tid, s, x, timeoutMs);
    hide Then, P.Enabled, Register, Encode;
    var l, pending := Register(s.ledger, x), c.pending[x := callback];
    forall id: Id ensures SameCall(l, pending, c.invocations, id) {
      assert SameCall(s.ledger, c.pending, c.invocations, id);
      hide SameCall;
      RegisterAgrees(s.ledger, c.pending, c.invocations, x, callback, id);
    }
    var timer, frame := AddTimer(tid(x), x, timeoutMs), Send(Encode(RequestPrinter(), request).value);
    assert c.posted + [timer] + [frame] == c.posted + [timer, frame];
  }

  lemma FailedAgrees<C>(tid: TimerIds, c: Core<C>, s: P.ClientState, request: RpcRequest, callback: C, timeoutMs: int)
    requires Agrees(c, s) && P.Enabled(s, P.Issue(request.requestId, timeoutMs)) && !c.stopped && c.connected
    requires Encode(RequestPrinter(), request).None?
    ensures var x := request.requestId;
      var c', s' := Called(tid, c, request, callback, timeoutMs), Then(tid, s, CallSteps(false, x, timeoutMs, false));
      && Agrees(c', s') && P.AtStage(s', x, P.Returned) && s'.wheel == s.wheel
      && c'.posted == c.posted + [AddTimer(tid(x), x, timeoutMs), RemoveTimer(tid(x))]
      && s'.queue.Enqueued() == s.queue.Enqueued() + [P.Arm(x), P.Disarm(x)]
  {
    var x := request.requestId;
    FailedRun(tid, s, x, timeoutMs);
    hide Then, P.Enabled, Encode, Ascii;
    var resp := RpcResponse(x, CLIENT_ENCODE_FAILED, Ascii("encode request failed"), []);
    var taken := TakeOne(Register(s.ledger, x), Caller, x);
    assert c.pending[x := callback] - {x} == c.pending - {x};
    forall id: Id ensures SameCall(Failed(s.ledger, x), c.pending - {x}, c.invocations + [Invocation(x, callback, resp)], id) {
      assert SameCall(s.ledger, c.pending, c.invocations, id);
      assert x in taken.Held(Caller);
      hide SameCall, Register, TakeOne, Invoke;
      RegisterAgrees(s.ledger, c.pending, c.invocations, x, callback, id);
      TakeAgrees(Register(s.ledger, x), c.pending[x := callback], c.invocations, Caller, x, id);
      InvokeAgrees(taken, c.pending - {x}, c.invocations, Caller, x, callback, resp, id);
    }
    var timer, removal := AddTimer(tid(x), x, timeoutMs), RemoveTimer(tid(x));
    assert c.posted + [timer] + [removal] == c.posted + [timer, removal];
  }

  // ---------------------------------------------------------------- dropping what is pending

  lemma TakeAllAgrees<C>(l: Ledger, pending: map<Id, C>, invocations: seq<Invocation<C>>, o: Owner, id: Id)
    requires SameCall(l, pending, invocations, id)
    ensures SameCall(TakeAll(l, o), map[], invocations, id)
  {
  }

  /** The callbacks still to be invoked of those swapped out. */
  function Left<C>(tmp: map<Id, C>, order: seq<Id>): set<Id> { set id | id in tmp && id !in order }

  lemma LeftNext<C>(tmp: map<Id, C>, order: seq<Id>)
    requires order != []
    ensures Left(tmp, order) == Left(tmp, order[..|order| - 1]) - {order[|order| - 1]}
  {
    assert order == order[..|order| - 1] + [order[|order| - 1]];
  }

  /** The walk of the thread in Stop over the callbacks it has swapped out. */
  function StopDrops(order: seq<Id>): seq<P.Action> { seq(|order|, i requires 0 <= i < |order| => P.DropStopped(order[i])) }

  function Disarms(order: seq<Id>): seq<P.Functor> { seq(|order|, i requires 0 <= i < |order| => P.Disarm(order[i])) }

  lemma StopDropStep<C>(tid: TimerIds, c: Core<C>, s: P.ClientState, x: Id, callback: C)
    requires Agrees(c, s) && s.stopStage == P.Swapped && x in s.ledger.Held(Stopper)
    ensures var resp := RpcResponse(x, CLIENT_NOT_RUNNING, Ascii("rpc client stopped"), []);
      var c', s' := c.(posted := c.posted + [RemoveTimer(tid(x))], invocations := c.invocations + [Invocation(x, callback, resp)]),
        P.Next(tid, s, P.DropStopped(x));
      && Agrees(c', s') && s'.stopStage == P.Swapped && s'.ledger.Held(Stopper) == s.ledger.Held(Stopper) - {x}
      && s'.queue.Enqueued() == s.queue.Enqueued() + [P.Disarm(x)] && s'.wheel == s.wheel
  {
    var resp := RpcResponse(x, CLIENT_NOT_RUNNING, Ascii("rpc client stopped"), []);
    EnqueuedAfter(s, P.DropStopped(x));
    NextParts(tid, s, P.DropStopped(x));
    var l, invocations := Invoke(s.ledger, Stopper, x, resp), c.invocations + [Invocation(x, callback, resp)];
    hide Ascii;
    forall id: Id ensures SameCall(l, c.pending, invocations, id) {
      assert SameCall(s.ledger, c.pending, c.invocations, id);
      hide SameCall;
      InvokeAgrees(s.ledger, c.pending, c.invocations, Stopper, x, callback, resp, id);
    }
  }

  /** What the thread in Stop has done once it has walked over `order`. */
  ghost predicate Walked<C>(tid: TimerIds, c: Core<C>, s: P.ClientState, tmp: map<Id, C>, order: seq<Id>)
    requires forall id | id in order :: id in tmp
  {
    var r := Then(tid, s, StopDrops(order));
    && Agrees(DroppedFrom(tid, c, tmp, order, CLIENT_NOT_RUNNING, Ascii("rpc client stopped")), r)
    && r.stopStage == P.Swapped && r.ledger.Held(Stopper) == Left(tmp, order)
    && r.queue.Enqueued() == s.queue.Enqueued() + Disarms(order) && r.wheel == s.wheel
  }

  lemma WalkNext<C>(tid: TimerIds, c: Core<C>, s: P.ClientState, tmp: map<Id, C>, order: seq<Id>)
    requires order != [] && (forall id | id in order :: id in tmp) && order[|order| - 1] !in order[..|order| - 1]
    requires forall id | id in order[..|order| - 1] :: id in tmp
    requires Walked(tid, c, s, tmp, order[..|order| - 1])
    ensures Walked(tid, c, s, tmp, order)
  {
    var front, x := order[..|order| - 1], order[|order| - 1];
    var before := Then(tid, s, StopDrops(front));
    var c1 := DroppedFrom(tid, c, tmp, front, CLIENT_NOT_RUNNING, Ascii("rpc client stopped"));
    assert x in Left(tmp, front);
    LeftNext(tmp, order);
    assert StopDrops(order) == StopDrops(front) + [P.DropStopped(x)];
    assert Disarms(order) == Disarms(front) + [P.Disarm(x)];
    hide Agrees, Ascii, Then, P.Next, Left;
    ThenNext(tid, s, StopDrops(front), P.DropStopped(x));
    StopDropStep(tid, c1, before, x, tmp[x]);
    assert s.queue.Enqueued() + Disarms(front) + [P.Disarm(x)] == s.queue.Enqueued() + (Disarms(front) + [P.Disarm(x)]);
  }

  lemma {:induction false} WalkAgrees<C>(tid: TimerIds, c: Core<C>, s: P.ClientState, tmp: map<Id, C>, order: seq<Id>)
    requires Agrees(c, s) && s.stopStage == P.Swapped && s.ledger.Held(Stopper) == tmp.Keys
    requires (forall id | id in order :: id in tmp) && forall i, j | 0 <= i < j < |order| :: order[i] != order[j]
    ensures Walked(tid, c, s, tmp, order)
  {
    if order == [] {
      assert StopDrops(order) == [] && Disarms(order) == [] && Left(tmp, order) == tmp.Keys;
      assert s.queue.Enqueued() + [] == s.queue.Enqueued();
    } else {
      WalkAgrees(tid, c, s, tmp, order[..|order| - 1]);
      hide Walked;
      WalkNext(tid, c, s, tmp, order);
    }
  }

  ghost function Flagged(tid: TimerIds, s: P.ClientState): P.ClientState
    requires s.stopStage == P.NotStopped
  {
    P.Next(tid, P.Next(tid, s, P.SetStopped), P.SwapStopped)
  }

  lemma FlaggedState(tid: TimerIds, s: P.ClientState)
    requires s.stopStage == P.NotStopped
    ensures var r := Flagged(tid, s);
      && r.ledger == TakeAll(s.ledger, Stopper) && r.stopped && r.connected == s.connected && r.stopStage == P.Swapped
      && r.queue == s.queue && r.wheel == s.wheel
  {
    hide TakeAll;
  }

  lemma FlaggedAgrees<C>(tid: TimerIds, c: Core<C>, s: P.ClientState)
    requires Agrees(c, s) && s.stopStage == P.NotStopped && s.ledger.Held(Stopper) == {}
    ensures Agrees(c.(stopped := true, pending := map[]), Flagged(tid, s))
    ensures Flagged(tid, s).ledger.Held(Stopper) == c.pending.Keys
  {
    FlaggedState(tid, s);
    hide Flagged;
    var l, none := TakeAll(s.ledger, Stopper), map[];
    forall id: Id ensures SameCall(l, none, c.invocations, id) && (id in l.Held(Stopper) <==> id in c.pending) {
      assert SameCall(s.ledger, c.pending, c.invocations, id);
      TakeAllMoves(s.ledger, Stopper, id);
      TakeAllAgrees(s.ledger, c.pending, c.invocations, Stopper, id);
      hide TakeAll;
    }
  }

  lemma ThenQuits(tid: TimerIds, r: P.ClientState)
    requires r.stopStage == P.Swapped && r.ledger.Held(Stopper) == {}
    ensures P.Enabled(r, P.Disconnect)
    ensures var t := P.Next(tid, r, P.Disconnect);
      && P.Enabled(t, P.Quit) && P.Next(tid, t, P.Quit).quit && t.wheel == r.wheel
      && t.queue.Enqueued() == r.queue.Enqueued() + [P.Teardown]
  {
    EnqueuedAfter(r, P.Disconnect);
  }

  /**
   * Stop of the object is that thread's actions of the protocol up to Quit: the same callbacks with the same error in
   * the same order, a timer removal for each and then the disconnection queued for the loop.
   */
  lemma StopAgrees<C>(tid: TimerIds, c: Core<C>, s: P.ClientState, order: seq<Id>)
    requires Agrees(c, s) && s.stopStage == P.NotStopped && s.ledger.Held(Stopper) == {} && Lists(order, c.pending)
    ensures var dropped := Dropped(tid, c.(stopped := true), order, CLIENT_NOT_RUNNING, Ascii("rpc client stopped"));
      var r := Then(tid, Flagged(tid, s), StopDrops(order));
      && Agrees(dropped, r) && P.Enabled(r, P.Disconnect)
      && var t := P.Next(tid, r, P.Disconnect);
        && P.Enabled(t, P.Quit) && P.Next(tid, t, P.Quit).quit && t.wheel == s.wheel
        && t.queue.Enqueued() == s.queue.Enqueued() + Disarms(order) + [P.Teardown]
  {
    FlaggedState(tid, s);
    FlaggedAgrees(tid, c, s);
    var flagged := Flagged(tid, s);
    WalkAgrees(tid, c.(stopped := true, pending := map[]), flagged, c.pending, order);
    var r := Then(tid, flagged, StopDrops(order));
    assert Left(c.pending, order) == {};
    hide Agrees, Flagged, Then, DroppedFrom, Ascii, P.Next, P.Enabled;
    ThenQuits(tid, r);
  }

  // ---------------------------------------------------------------- the connection is lost

  function LossDrops(order: seq<Id>): seq<P.Action> { seq(|order|, i requires 0 <= i < |order| => P.DropLost(order[i])) }

  /** The wheel with the timers of `order` removed, one after the other. */
  function WithoutTimers(tid: TimerIds, w: P.SoundWheel, order: seq<Id>): P.SoundWheel {
    if order == [] then w else AfterRemove(WithoutTimers(tid, w, order[..|order| - 1]), tid(order[|order| - 1]))
  }

  lemma LossDropStep<C>(tid: TimerIds, c: Core<C>, s: P.ClientState, x: Id, callback: C, code: int32, msg: Bytes)
    requires Agrees(c, s) && s.loopStage == P.Dropping(code, msg) && x in s.ledger.Held(Loop)
    ensures var resp := RpcResponse(x, code, msg, []);
      var c', s' := c.(posted := c.posted + [RemoveTimer(tid(x))], invocations := c.invocations + [Invocation(x, callback, resp)]),
        P.Next(tid, s, P.DropLost(x));
      && Agrees(c', s') && s'.loopStage == P.Dropping(code, msg) && s'.ledger.Held(Loop) == s.ledger.Held(Loop) - {x}
      && s'.queue == s.queue && s'.wheel == AfterRemove(s.wheel, tid(x))
  {
    var resp := RpcResponse(x, code, msg, []);
    NextParts(tid, s, P.DropLost(x));
    var l, invocations := Invoke(s.ledger, Loop, x, resp), c.invocations + [Invocation(x, callback, resp)];
    hide AfterRemove;
    forall id: Id ensures SameCall(l, c.pending, invocations, id) {
      assert SameCall(s.ledger, c.pending, c.invocations, id);
      hide SameCall;
      InvokeAgrees(s.ledger, c.pending, c.invocations, Loop, x, callback, resp, id);
    }
  }

  /** What the loop has done once it has walked over `order`. */
  ghost predicate LossWalked<C>(tid: TimerIds, c: Core<C>, s: P.ClientState, tmp: map<Id, C>, order: seq<Id>, code: int32,
                                msg: Bytes)
    requires forall id | id in order :: id in tmp
  {
    var r := Then(tid, s, LossDrops(order));
    && Agrees(DroppedFrom(tid, c, tmp, order, code, msg), r)
    && r.loopStage == P.Dropping(code, msg) && r.ledger.Held(Loop) == Left(tmp, order)
    && r.queue == s.queue && r.wheel == WithoutTimers(tid, s.wheel, order)
  }

  lemma LossWalkNext<C>(tid: TimerIds, c: Core<C>, s: P.ClientState, tmp: map<Id, C>, order: seq<Id>, code: int32, msg: Bytes)
    requires order != [] && (forall id | id in order :: id in tmp) && order[|order| - 1] !in order[..|order| - 1]
    requires forall id | id in order[..|order| - 1] :: id in tmp
    requires LossWalked(tid, c, s, tmp, order[..|order| - 1], code, msg)
    ensures LossWalked(tid, c, s, tmp, order, code, msg)
  {
    var front, x := order[..|order| - 1], order[|order| - 1];
    var before := Then(tid, s, LossDrops(front));
    assert x in Left(tmp, front);
    LeftNext(tmp, order);
    assert LossDrops(order) == LossDrops(front) + [P.DropLost(x)];
    hide Agrees, Then, P.Next, Left, AfterRemove;
    ThenNext(tid, s, LossDrops(front), P.DropLost(x));
    LossDropStep(tid, DroppedFrom(tid, c, tmp, front, code, msg), before, x, tmp[x], code, msg);
  }

  lemma {:induction false} LossWalkAgrees<C>(tid: TimerIds, c: Core<C>, s: P.ClientState, tmp: map<Id, C>, order: seq<Id>,
                                             code: int32, msg: Bytes)
    requires Agrees(c, s) && s.loopStage == P.Dropping(code, msg) && s.ledger.Held(Loop) == tmp.Keys
    requires (forall id | id in order :: id in tmp) && forall i, j | 0 <= i < j < |order| :: order[i] != order[j]
    ensures LossWalked(tid, c, s, tmp, order, code, msg)
  {
    if order == [] {
      assert LossDrops(order) == [] && Left(tmp, order) == tmp.Keys;
    } else {
      LossWalkAgrees(tid, c, s, tmp, order[..|order| - 1], code, msg);
      hide LossWalked;
      LossWalkNext(tid, c, s, tmp, order, code, msg);
    }
  }

  ghost function Noticed(tid: TimerIds, s: P.ClientState, code: int32, msg: Bytes): P.ClientState
    requires P.Enabled(s, P.NoticeLoss(code, msg))
  {
    P.Next(tid, P.Next(tid, s, P.NoticeLoss(code, msg)), P.SwapLost)
  }

  lemma NoticedState(tid: TimerIds, s: P.ClientState, code: int32, msg: Bytes)
    requires P.Enabled(s, P.NoticeLoss(code, msg))
    ensures var r := Noticed(tid, s, code, msg);
      && r.ledger == TakeAll(s.ledger, Loop) && r.stopped == s.stopped && r.connected == s.connected
      && r.loopStage == P.Dropping(code, msg) && r.queue == s.queue && r.wheel == s.wheel
  {
    hide TakeAll;
  }

  lemma NoticedAgrees<C>(tid: TimerIds, c: Core<C>, s: P.ClientState, code: int32, msg: Bytes)
    requires Agrees(c, s) && P.Enabled(s, P.NoticeLoss(code, msg)) && s.ledger.Held(Loop) == {}
    ensures Agrees(c.(pending := map[]), Noticed(tid, s, code, msg))
    ensures Noticed(tid, s, code, msg).ledger.Held(Loop) == c.pending.Keys
  {
    NoticedState(tid, s, code, msg);
    hide Noticed;
    var l, none := TakeAll(s.ledger, Loop), map[];
    forall id: Id ensures SameCall(l, none, c.invocations, id) && (id in l.Held(Loop) <==> id in c.pending) {
      assert SameCall(s.ledger, c.pending, c.invocations, id);
      TakeAllMoves(s.ledger, Loop, id);
      TakeAllAgrees(s.ledger, c.pending, c.invocations, Loop, id);
      hide TakeAll;
    }
  }

  /**
   * A loss handled by the object of a client that is not stopped is the loop's steps of the protocol: every pending
   * call told of it with its code, in the order of the walk, and its timer taken out of the wheel.
   */
  lemma LossAgrees<C>(tid: TimerIds, c: Core<C>, s: P.ClientState, order: seq<Id>, code: int32, msg: Bytes)
    requires Agrees(c, s) && P.Enabled(s, P.NoticeLoss(code, msg)) && s.ledger.Held(Loop) == {} && Lists(order, c.pending)
    ensures var r := Then(tid, Noticed(tid, s, code, msg), LossDrops(order));
      && Agrees(Dropped(tid, c, order, code, msg), r) && r.ledger.Held(Loop) == {} && r.queue == s.queue
      && r.wheel == WithoutTimers(tid, s.wheel, order) && forall disconnected :: P.Enabled(r, P.EndLoss(disconnected))
  {
    NoticedState(tid, s, code, msg);
    NoticedAgrees(tid, c, s, code, msg);
    var noticed := Noticed(tid, s, code, msg);
    LossWalkAgrees(tid, c.(pending := map[]), noticed, c.pending, order, code, msg);
    assert Left(c.pending, order) == {};
    hide Agrees, Noticed, Then, DroppedFrom, WithoutTimers;
  }
}
