/**
 * A run of the whole system is a run of the client and a run of the server, so everything proved of either holds in
 * it; and what a callback is told, error codes included, is accounted for from end to end.
 */
module SystemRuns {
  import opened Basics
  import opened Envelope
  import opened ErrorCodes
  import opened Codec
  import opened RpcCodec
  import MC = MessageChannel
  import opened CallLedger
  import C = ClientProtocol
  import CT = ClientTheorems
  import opened ClientOutcomes
  import S = ServerProtocol
  import ST = ServerTheorems
  import SR = ServerReplies
  import opened RpcSystem
  import opened EndToEnd

  // ---------------------------------------------------------------- projections

  function ClientActs(w: World, actions: seq<Action>): seq<C.Action> {
    if actions == [] then [] else
      var before, a := actions[..|actions| - 1], actions[|actions| - 1];
      var s := Run(w, before);
      ClientActs(w, before) + (if Enabled(s, a) && ClientStep(s, a).Some? then [ClientStep(s, a).value] else [])
  }

  function ServerActs(w: World, actions: seq<Action>): seq<S.Action> {
    if actions == [] then [] else
      var before, a := actions[..|actions| - 1], actions[|actions| - 1];
      var s := Run(w, before);
      ServerActs(w, before) + (if Enabled(s, a) && ServerStep(s, a).Some? then [ServerStep(s, a).value] else [])
  }

  lemma ClientStepRuns(tid: TimerIds, actions: seq<C.Action>, step: C.Action)
    requires C.Enabled(C.Run(tid, actions), step)
    ensures C.Run(tid, actions + [step]) == C.Next(tid, C.Run(tid, actions), step)
  {
    assert (actions + [step])[..|actions|] == actions;
    hide C.Enabled, C.Next;
  }

  lemma ServerStepRuns(threads: nat, maxQueue: nat, actions: seq<S.Action>, step: S.Action)
    requires S.Enabled(S.Run(threads, maxQueue, actions), step)
    ensures S.Run(threads, maxQueue, actions + [step]) == S.Next(S.Run(threads, maxQueue, actions), step)
  {
    assert (actions + [step])[..|actions|] == actions;
    hide S.Enabled, S.Next;
  }

  /** The client in a run of the system has made a run of its own, and so has the server. */
  lemma {:induction false} Projections(w: World, actions: seq<Action>)
    ensures Run(w, actions).client == C.Run(w.tid, ClientActs(w, actions))
    ensures Run(w, actions).server == S.Run(w.threads, w.maxQueue, ServerActs(w, actions))
  {
    hide Enabled, ClientStep, ServerStep, C.Enabled, C.Next, S.Enabled, S.Next, UpAfter, DownAfter;
    if actions != [] {
      var before, a := actions[..|actions| - 1], actions[|actions| - 1];
      Projections(w, before);
      var s := Run(w, before);
      assert ClientActs(w, before) + [] == ClientActs(w, before) && ServerActs(w, before) + [] == ServerActs(w, before);
      if Enabled(s, a) {
        if ClientStep(s, a).Some? { ClientStepRuns(w.tid, ClientActs(w, before), ClientStep(s, a).value); }
        if ServerStep(s, a).Some? {
          ServerStepRuns(w.threads, w.maxQueue, ServerActs(w, before), ServerStep(s, a).value);
        }
      }
    }
  }

  // ---------------------------------------------------------------- answers come over the wire

  function CauseIn(w: World, actions: seq<Action>, id: Id): Option<Cause> { CauseOf(w.tid, ClientActs(w, actions), id) }

  lemma CauseNext(w: World, actions: seq<Action>, id: Id)
    requires actions != []
    ensures var before, a := actions[..|actions| - 1], actions[|actions| - 1];
      var s := Run(w, before);
      CauseIn(w, actions, id) ==
        if CauseIn(w, before, id).Some? || !Enabled(s, a) || ClientStep(s, a).None? then CauseIn(w, before, id)
        else CauseAt(s.client, ClientStep(s, a).value, id)
  {
    hide Enabled, ClientStep, C.Enabled, CauseAt, Run;
    var before := actions[..|actions| - 1];
    Projections(w, before);
    assert ClientActs(w, before) + [] == ClientActs(w, before);
    if Enabled(Run(w, before), actions[|actions| - 1]) && ClientStep(Run(w, before), actions[|actions| - 1]).Some? {
      var acts, step := ClientActs(w, before), ClientStep(Run(w, before), actions[|actions| - 1]).value;
      assert (acts + [step])[..|acts|] == acts;
    }
  }

  lemma AnsweredTaken(s: System, a: Action, id: Id, resp: RpcResponse)
    requires Enabled(s, a) && ClientStep(s, a).Some?
    requires CauseAt(s.client, ClientStep(s, a).value, id) == Some(ByResponse(resp))
    ensures resp in s.down.rx.dispatched && resp.requestId == id
  {
    hide C.Enabled;
  }

  lemma DispatchedStays(w: World, s: System, a: Action, resp: RpcResponse)
    requires Enabled(s, a) && resp in s.down.rx.dispatched
    ensures resp in Next(w, s, a).down.rx.dispatched
  {
    hide Enabled, C.Next, S.Next, UpAfter, ClientAfter, ServerAfter, MC.Step, DownEvent;
    if DownEvent(s, a).Some? { ChannelGrows(ResponsePrinter(), ResponseParser(w.utf8), s.down, DownEvent(s, a).value); }
  }

  lemma {:induction false} AnswerCrossed(w: World, actions: seq<Action>, id: Id, resp: RpcResponse)
    requires CauseIn(w, actions, id) == Some(ByResponse(resp))
    ensures resp in Run(w, actions).down.rx.dispatched && resp.requestId == id
  {
    hide Enabled, Next, ClientStep, CauseAt, CauseIn;
    if actions == [] {
      NoCauseYet(w, id);
    } else {
      var before, a := actions[..|actions| - 1], actions[|actions| - 1];
      CauseNext(w, actions, id);
      if CauseIn(w, before, id) == Some(ByResponse(resp)) {
        AnswerCrossed(w, before, id, resp);
      } else {
        AnsweredTaken(Run(w, before), a, id, resp);
      }
      if Enabled(Run(w, before), a) { DispatchedStays(w, Run(w, before), a, resp); }
    }
  }

  lemma NoCauseYet(w: World, id: Id)
    ensures CauseIn(w, [], id) == None
  {
  }

  /** The `i`th body the server ran is that of the call's own request, and its outcome calls for this response. */
  ghost predicate Earned(s: System, id: Id, resp: RpcResponse, i: nat) {
    && i < |s.server.ran| && s.server.ran[i].sent
    && Ours(s.server.jobs, s.server.ran[i].task) && id in s.requests
    && s.server.jobs[s.server.ran[i].task].request == s.requests[id]
    && SR.Calls(s.requests[id], s.server.ran[i].body, [resp])
  }

  lemma AnswerEarned(w: World, s: System, id: Id, resp: RpcResponse) returns (i: nat)
    requires Linked(w, s) && resp in s.down.sent && resp.requestId == id
    requires resp.code != SERVER_SHUTTING_DOWN && resp.code != SERVER_BUSY
    ensures Earned(s, id, resp, i)
  {
    hide ClientSound, ST.Invariant, ChannelsSound, Recorded;
    DispatchedWasSent(w, s);
    var k :| 0 <= k < |s.down.sent| && s.down.sent[k] == resp;
    assert Origin(s.server.jobs, s.server.ran, s.down.sent[k]);
    var t: nat :| Ours(s.server.jobs, t) && ST.Backed(s.server.jobs, s.server.ran, t, resp);
    var request := s.server.jobs[t].request;
    var body :| S.Ran(t, body, true) in s.server.ran && S.ReplyOf(request, body) == Some(resp);
    i :| 0 <= i < |s.server.ran| && s.server.ran[i] == S.Ran(t, body, true);
    RequestOwned(w, s, t);
    ReplyCalled(request, body, resp);
  }

  lemma ReplyCalled(request: RpcRequest, body: S.Body, resp: RpcResponse)
    requires S.ReplyOf(request, body) == Some(resp)
    ensures SR.Calls(request, body, [resp]) && resp.requestId == request.requestId
  {
  }

  lemma RequestOwned(w: World, s: System, t: nat)
    requires Received(s) && Sends(s.up.sent, s.requests, s.client.queue.executed) && s.up.rx.dispatched <= s.up.sent
    requires Ours(s.server.jobs, t)
    ensures Own(s.requests, s.server.jobs[t].request)
  {
    var request := s.server.jobs[t].request;
    var m :| 0 <= m < s.handled && s.up.rx.dispatched[m] == request;
    assert s.up.sent[m] == request;
    assert Own(s.requests, s.up.sent[m]);
  }

  /**
   * Whatever the callback of a call was invoked with, it was invoked once, and with an error of the client's own with
   * the code of what completed the call, or with a response to this call exactly as the server sent it: a refusal, or
   * what the outcome of the body run for this very request calls for, success or error.
   */
  lemma EveryAnswerAccounted(w: World, actions: seq<Action>, s: System, id: Id)
    requires s == Run(w, actions) && id in s.client.ledger.delivered
    ensures s.client.ledger.invoked[id] == 1
    ensures var cause, told := CauseIn(w, actions, id), s.client.ledger.delivered[id];
      && cause.Some? && told == Told(cause.value, id)
      && (cause.value.ByResponse? ==>
            && told in s.down.sent && told.requestId == id
            && (told.code == SERVER_SHUTTING_DOWN || told.code == SERVER_BUSY || exists i :: Earned(s, id, told, i)))
  {
    hide Run, CauseOf, Told, ClientActs, Earned;
    RunLinked(w, actions);
    Projections(w, actions);
    DeliveredByCause(w.tid, ClientActs(w, actions), s.client, id);
    LinkedDelivers(w, s, id);
    var told := s.client.ledger.delivered[id];
    var cause := CauseIn(w, actions, id).value;
    if cause.ByResponse? {
      assert told == cause.resp by { assert Told(cause, id) == cause.resp by { ToldAnswer(cause, id); } }
      AnswerCrossed(w, actions, id, told);
      if told.code != SERVER_SHUTTING_DOWN && told.code != SERVER_BUSY {
        var i := AnswerEarned(w, s, id, told);
      }
    }
  }

  lemma ToldAnswer(cause: Cause, id: Id)
    requires cause.ByResponse?
    ensures Told(cause, id) == cause.resp
  {
  }

  lemma LinkedDelivers(w: World, s: System, id: Id)
    requires Linked(w, s) && id in s.client.ledger.delivered
    ensures s.client.ledger.invoked[id] == 1 && s.down.rx.dispatched <= s.down.sent
  {
    hide Recorded, Sends, Received, Answered, Delivers, ST.Invariant;
    InvokedOnce(w, s.client, id);
    DispatchedWasSent(w, s);
  }

  // ---------------------------------------------------------------- whatever is to be sent is sent

  /** The server has something to say on this connection, it encodes, and the connection is up. */
  ghost predicate Speaks(s: System, a: Action, r: RpcResponse) {
    && Enabled(s, a) && (a.Serve? || a.Server?)
    && (var e := S.Emitted(s.server, ServerStep(s, a).value); e == S.To(OURS, r) || e == S.ToEveryone(r))
    && s.down.tx.connected && MC.Carries(ResponsePrinter(), r, a.n)
  }

  /** The client's loop runs the functor that sends `r`, it encodes, and the connection is up. */
  ghost predicate Asks(s: System, a: Action, r: RpcRequest) {
    && Enabled(s, a) && a.TransmitNext?
    && s.client.queue.batch[0] == C.Transmit(r.requestId) && Own(s.requests, r)
    && s.up.tx.connected && MC.Carries(RequestPrinter(), r, a.n)
  }

  lemma NextSentDown(w: World, s: System, a: Action, r: RpcResponse)
    requires Enabled(s, a)
    ensures r in Next(w, s, a).down.sent <==> r in s.down.sent || Speaks(s, a, r)
  {
    hide C.Next, S.Next, C.Enabled, S.Enabled, UpAfter, ClientAfter, ServerAfter, MC.Step, MC.Carries, S.Emitted;
    if DownEvent(s, a).Some? {
      MC.StepSends(ResponsePrinter(), ResponseParser(w.utf8), s.down, DownEvent(s, a).value);
    }
  }

  lemma NextSentUp(w: World, s: System, a: Action, r: RpcRequest)
    requires Enabled(s, a) && Recorded(s)
    ensures r in Next(w, s, a).up.sent <==> r in s.up.sent || Asks(s, a, r)
  {
    assert a.TransmitNext? ==> s.client.queue.batch[0].Transmit?;
    hide C.Next, S.Next, C.Enabled, S.Enabled, DownAfter, ClientAfter, ServerAfter, MC.Step, MC.Carries;
    if UpEvent(s, a).Some? {
      MC.StepSends(RequestPrinter(), RequestParser(w.utf8), s.up, UpEvent(s, a).value);
    }
  }

  ghost predicate Spoke(w: World, actions: seq<Action>, r: RpcResponse) {
    exists k :: 0 <= k < |actions| && Speaks(Run(w, actions[..k]), actions[k], r)
  }

  lemma SpokeGrows(w: World, actions: seq<Action>, r: RpcResponse)
    requires actions != []
    ensures var before := actions[..|actions| - 1];
      Spoke(w, actions, r) <==> Spoke(w, before, r) || Speaks(Run(w, before), actions[|actions| - 1], r)
  {
    hide Speaks, Run;
    var n := |actions| - 1;
    assert forall k | 0 <= k < n :: actions[..k] == actions[..n][..k] && actions[k] == actions[..n][k];
  }

  /**
   * What is sent down the connection is exactly what the server had to say on it while it was up: every reply to a
   * request of this connection, every refusal and the notice, as far as they encode, and nothing else.
   */
  lemma {:induction false} SentDownIff(w: World, actions: seq<Action>, r: RpcResponse)
    ensures r in Run(w, actions).down.sent <==> Spoke(w, actions, r)
  {
    hide Enabled, Next, Speaks, Spoke;
    if actions == [] {
      assert !Spoke(w, [], r) by { NoneSpoke(w, r); }
    } else {
      var before, a := actions[..|actions| - 1], actions[|actions| - 1];
      SentDownIff(w, before, r);
      SpokeGrows(w, actions, r);
      SpeakingEnabled(Run(w, before), a, r);
      if Enabled(Run(w, before), a) { NextSentDown(w, Run(w, before), a, r); }
    }
  }

  lemma NoneSpoke(w: World, r: RpcResponse)
    ensures !Spoke(w, [], r)
  {
  }

  lemma SpeakingEnabled(s: System, a: Action, r: RpcResponse)
    ensures Speaks(s, a, r) ==> Enabled(s, a)
  {
    hide Enabled;
  }

  ghost predicate Asked(w: World, actions: seq<Action>, r: RpcRequest) {
    exists k :: 0 <= k < |actions| && Asks(Run(w, actions[..k]), actions[k], r)
  }

  lemma AskedGrows(w: World, actions: seq<Action>, r: RpcRequest)
    requires actions != []
    ensures var before := actions[..|actions| - 1];
      Asked(w, actions, r) <==> Asked(w, before, r) || Asks(Run(w, before), actions[|actions| - 1], r)
  {
    hide Asks, Run;
    var n := |actions| - 1;
    assert forall k | 0 <= k < n :: actions[..k] == actions[..n][..k] && actions[k] == actions[..n][k];
  }

  /** And what is sent up is exactly what the client's loop ran the sending of, each call's own request. */
  lemma {:induction false} SentUpIff(w: World, actions: seq<Action>, r: RpcRequest)
    ensures r in Run(w, actions).up.sent <==> Asked(w, actions, r)
  {
    hide Enabled, Next, Asks, Asked, Linked;
    if actions == [] {
      assert !Asked(w, [], r) by { NoneAsked(w, r); }
    } else {
      var before, a := actions[..|actions| - 1], actions[|actions| - 1];
      SentUpIff(w, before, r);
      AskedGrows(w, actions, r);
      AskingEnabled(Run(w, before), a, r);
      if Enabled(Run(w, before), a) {
        RunRecorded(w, before);
        NextSentUp(w, Run(w, before), a, r);
      }
    }
  }

  lemma NoneAsked(w: World, r: RpcRequest)
    ensures !Asked(w, [], r)
  {
  }

  lemma RunRecorded(w: World, actions: seq<Action>)
    ensures Recorded(Run(w, actions))
  {
    hide Run, Linked, Recorded;
    RunLinked(w, actions);
    LinkedParts(w, Run(w, actions));
  }

  lemma AskingEnabled(s: System, a: Action, r: RpcRequest)
    ensures Asks(s, a, r) ==> Enabled(s, a)
  {
    hide Enabled;
  }
}
