/** What a caller may conclude from a successful callback, in every run of the whole system. */
module EndToEnd {
  import opened Basics
  import opened Envelope
  import opened ErrorCodes
  import opened EventLoops
  import opened Codec
  import opened RpcCodec
  import opened RpcServices
  import MC = MessageChannel
  import opened CallLedger
  import C = ClientProtocol
  import CT = ClientTheorems
  import TM = ClientTimers
  import S = ServerProtocol
  import ST = ServerTheorems
  import opened RpcSystem

  // ---------------------------------------------------------------- the parts keep their own invariants

  ghost predicate ClientSound(w: World, c: C.ClientState) {
    CT.Accounted(c) && CT.HandedOver(c) && CT.ErrorsAreErrors(c) && TM.TimersSound(w.tid, c)
  }

  lemma NextKeepsClient(w: World, s: System, a: Action)
    requires Enabled(s, a) && ClientSound(w, s.client)
    ensures ClientSound(w, ClientAfter(w, s, a))
  {
    hide Enabled, C.Next, C.Enabled, CT.Accounted, CT.HandedOver, CT.ErrorsAreErrors, TM.TimersSound, ClientStep;
    if ClientStep(s, a).Some? {
      var step := ClientStep(s, a).value;
      CT.NextKeepsAccounted(w.tid, s.client, step);
      CT.NextKeepsHandedOver(w.tid, s.client, step);
      CT.NextKeepsErrors(w.tid, s.client, step);
      TM.NextKeepsTimersSound(w.tid, s.client, step);
    }
  }

  lemma NextKeepsServer(s: System, a: Action)
    requires Enabled(s, a) && ST.Invariant(s.server)
    ensures ST.Invariant(ServerAfter(s, a))
  {
    hide Enabled, S.Next, S.Enabled, ST.Invariant, ServerStep;
    if ServerStep(s, a).Some? { ST.NextKeepsInvariant(s.server, ServerStep(s, a).value); }
  }

  ghost predicate ChannelsSound(w: World, s: System) {
    && MC.Invariant(RequestPrinter(), RequestParser(w.utf8), s.up)
    && MC.Invariant(ResponsePrinter(), ResponseParser(w.utf8), s.down)
  }

  lemma NextKeepsChannels(w: World, s: System, a: Action)
    requires Enabled(s, a) && ChannelsSound(w, s)
    ensures ChannelsSound(w, Next(w, s, a))
  {
    hide Enabled, MC.Invariant, MC.Step, UpEvent, DownEvent, ClientAfter, ServerAfter;
    if UpEvent(s, a).Some? {
      MC.StepKeepsInvariant(RequestPrinter(), RequestParser(w.utf8), s.up, UpEvent(s, a).value);
    }
    if DownEvent(s, a).Some? {
      MC.StepKeepsInvariant(ResponsePrinter(), ResponseParser(w.utf8), s.down, DownEvent(s, a).value);
    }
  }

  /** Channels only grow: what was sent or dispatched stays. */
  lemma ChannelGrows<M>(printer: Printer<M>, parse: Parser<M>, c: MC.Channel<M>, e: MC.Event<M>)
    ensures var c' := MC.Step(printer, parse, c, e);
      && c.rx.dispatched <= c'.rx.dispatched
      && (c'.sent == c.sent || (e.SendMessage? && c'.sent == c.sent + [e.m]))
  {
    hide DecodeAll, Encode;
  }

  /** What each end dispatched is a prefix of what the other sent. */
  lemma DispatchedWasSent(w: World, s: System)
    requires ChannelsSound(w, s)
    ensures s.up.rx.dispatched <= s.up.sent && s.down.rx.dispatched <= s.down.sent
  {
    hide MC.Invariant;
    RequestsFaithful(w.utf8);
    ResponsesFaithful(w.utf8);
    MC.DispatchedIsPrefix(RequestPrinter(), RequestParser(w.utf8), s.up);
    MC.DispatchedIsPrefix(ResponsePrinter(), ResponseParser(w.utf8), s.down);
  }

  // ---------------------------------------------------------------- client to wire

  /** Requests on the wire are the calls' own, one per call, each by a functor the loop has run. */
  ghost predicate Sends(sent: seq<RpcRequest>, requests: map<Id, RpcRequest>, executed: seq<C.Functor>) {
    && (forall i | 0 <= i < |sent| :: Own(requests, sent[i]) && C.Transmit(sent[i].requestId) in executed)
    && DistinctIds(sent)
  }

  predicate Own(requests: map<Id, RpcRequest>, r: RpcRequest) { r.requestId in requests && requests[r.requestId] == r }

  ghost predicate DistinctIds(sent: seq<RpcRequest>) {
    forall i, j | 0 <= i < j < |sent| :: sent[i].requestId != sent[j].requestId
  }

  predicate Recorded(s: System) {
    && s.requests.Keys == s.client.ledger.issued
    && (forall id | id in s.requests :: s.requests[id].requestId == id)
    && [] !in s.requests
  }

  lemma NextKeepsRecorded(w: World, s: System, a: Action)
    requires Enabled(s, a) && Recorded(s)
    ensures Recorded(Next(w, s, a))
  {
    hide C.Enabled, UpAfter, DownAfter, ServerAfter, C.LedgerAfter, C.CallsAfter, C.QueueAfter, C.WheelAfter,
         C.TimerOfAfter, C.LoopAfter, C.StopAfter, C.ConnectedAfter;
    if ClientStep(s, a).Some? { CT.IssuedAfter(s.client, ClientStep(s, a).value); }
  }

  lemma ExecutedAfter(c: C.ClientState, a: C.Action)
    requires C.Enabled(c, a)
    ensures C.QueueAfter(c, a).executed == c.queue.executed + (if a.RunFunctor? then [c.queue.batch[0]] else [])
  {
    assert c.queue.executed + [] == c.queue.executed;
  }

  lemma AppendKeepsSends(sent: seq<RpcRequest>, requests: map<Id, RpcRequest>, executed: seq<C.Functor>, r: RpcRequest)
    requires Sends(sent, requests, executed) && Own(requests, r) && C.Transmit(r.requestId) !in executed
    ensures Sends(sent + [r], requests, executed + [C.Transmit(r.requestId)])
  {
    var all := sent + [r];
    forall i | 0 <= i < |all|
      ensures Own(requests, all[i]) && C.Transmit(all[i].requestId) in executed + [C.Transmit(r.requestId)]
    {
      assert i < |sent| ==> all[i] == sent[i];
    }
    forall i, j | 0 <= i < j < |all| ensures all[i].requestId != all[j].requestId {
      assert all[i] == sent[i];
    }
  }

  lemma SendsGrow(sent: seq<RpcRequest>, requests: map<Id, RpcRequest>, requests': map<Id, RpcRequest>,
                  executed: seq<C.Functor>, executed': seq<C.Functor>)
    requires Sends(sent, requests, executed) && executed <= executed'
    requires forall id | id in requests :: id in requests' && requests'[id] == requests[id]
    ensures Sends(sent, requests', executed')
  {
  }

  lemma NextKeepsSends(w: World, s: System, a: Action)
    requires Enabled(s, a) && Sends(s.up.sent, s.requests, s.client.queue.executed) && Recorded(s) && CT.HandedOver(s.client)
    ensures var s' := Next(w, s, a); Sends(s'.up.sent, s'.requests, s'.client.queue.executed)
  {
    hide Sends, MC.Step, DownAfter, ServerAfter, CT.HandedOver, C.LedgerAfter, C.CallsAfter, C.QueueAfter,
         C.WheelAfter, C.TimerOfAfter, C.LoopAfter, C.StopAfter, C.ConnectedAfter;
    assert a.TransmitNext? ==> s.client.queue.batch != [];
    hide C.Enabled;
    var s' := Next(w, s, a);
    if UpEvent(s, a).Some? { ChannelGrows(RequestPrinter(), RequestParser(w.utf8), s.up, UpEvent(s, a).value); }
    if ClientStep(s, a).Some? { ExecutedAfter(s.client, ClientStep(s, a).value); }
    if a.TransmitNext? {
      CT.FrontIsNew(s.client);
      var r := s.requests[s.client.queue.batch[0].id];
      AppendKeepsSends(s.up.sent, s.requests, s.client.queue.executed, r);
      SendsGrow(s.up.sent, s.requests, s.requests, s.client.queue.executed, s'.client.queue.executed);
    } else {
      SendsGrow(s.up.sent, s.requests, s'.requests, s.client.queue.executed, s'.client.queue.executed);
    }
  }

  // ---------------------------------------------------------------- wire to server

  predicate Ours(jobs: seq<S.Job>, t: nat) { t < |jobs| && jobs[t].conn == OURS }

  /** The server's jobs from this connection are requests dispatched and dealt with, no request twice. */
  ghost predicate JobsFrom(read: seq<RpcRequest>, jobs: seq<S.Job>, loop: S.LoopStage) {
    && (forall t: nat | Ours(jobs, t) :: jobs[t].request in read)
    && (loop.PastGate? && loop.job.conn == OURS ==>
          && loop.job.request in read
          && forall t: nat | Ours(jobs, t) :: jobs[t].request.requestId != loop.job.request.requestId)
    && (forall t: nat, u: nat | Ours(jobs, t) && Ours(jobs, u) && t != u ::
          jobs[t].request.requestId != jobs[u].request.requestId)
  }

  lemma ServerLoopAfter(s: S.ServerState, a: S.Action)
    requires S.Enabled(s, a)
    ensures var s' := S.Next(s, a);
      if a.Receive? then s'.jobs == s.jobs && s'.loop == (if s.stopped then S.Idle else S.PastGate(a.job)) && !s.loop.PastGate?
      else if a == S.Submit then (s'.jobs == s.jobs || s'.jobs == s.jobs + [s.loop.job]) && s'.loop == S.Idle
      else s'.jobs == s.jobs && (s'.loop == s.loop || !s'.loop.PastGate?)
  {
    hide S.PoolAfter, S.QueueAfter, S.MainAfter;
  }

  lemma ReceiveKeepsJobs(read: seq<RpcRequest>, jobs: seq<S.Job>, loop: S.LoopStage, r: RpcRequest)
    requires JobsFrom(read, jobs, loop) && !loop.PastGate? && DistinctIds(read + [r])
    ensures JobsFrom(read + [r], jobs, S.PastGate(S.Job(OURS, r))) && JobsFrom(read + [r], jobs, S.Idle)
  {
    var all := read + [r];
    forall t: nat | Ours(jobs, t) ensures jobs[t].request.requestId != r.requestId {
      var i :| 0 <= i < |read| && read[i] == jobs[t].request;
      assert all[i] == read[i] && all[|read|] == r;
    }
  }

  lemma SubmitKeepsJobs(read: seq<RpcRequest>, jobs: seq<S.Job>, job: S.Job)
    requires JobsFrom(read, jobs, S.PastGate(job))
    ensures JobsFrom(read, jobs + [job], S.Idle) && JobsFrom(read, jobs, S.Idle)
  {
    var all := jobs + [job];
    forall t: nat | Ours(all, t) ensures all[t].request in read {
      assert t < |jobs| ==> Ours(jobs, t);
    }
    forall t: nat, u: nat | Ours(all, t) && Ours(all, u) && t != u
      ensures all[t].request.requestId != all[u].request.requestId
    {
      assert t < |jobs| ==> Ours(jobs, t);
      assert u < |jobs| ==> Ours(jobs, u);
    }
  }

  lemma OtherKeepsJobs(read: seq<RpcRequest>, jobs: seq<S.Job>, loop: S.LoopStage, loop': S.LoopStage)
    requires JobsFrom(read, jobs, loop) && (loop'.PastGate? ==> loop' == loop || loop'.job.conn != OURS)
    ensures JobsFrom(read, jobs, loop')
  {
  }

  ghost predicate Received(s: System) {
    s.handled <= |s.up.rx.dispatched| && JobsFrom(s.up.rx.dispatched[..s.handled], s.server.jobs, s.server.loop)
  }

  lemma NextKeepsReceived(w: World, s: System, a: Action)
    requires Enabled(s, a) && Received(s) && DistinctIds(s.up.sent) && s.up.rx.dispatched <= s.up.sent
    ensures Received(Next(w, s, a))
  {
    var s' := Next(w, s, a);
    if UpEvent(s, a).Some? { ChannelGrows(RequestPrinter(), RequestParser(w.utf8), s.up, UpEvent(s, a).value); }
    if ServerStep(s, a).Some? { ServerLoopAfter(s.server, ServerStep(s, a).value); }
    var read := s.up.rx.dispatched[..s.handled];
    assert s'.up.rx.dispatched[..s.handled] == read;
    hide JobsFrom, S.Next, C.Next, MC.Step, S.Enabled, C.Enabled, DownAfter, ClientAfter;
    if a.Serve? {
      var r := s.up.rx.dispatched[s.handled];
      assert s'.up.rx.dispatched[..s'.handled] == read + [r];
      assert forall i | 0 <= i < |read + [r]| :: (read + [r])[i] == s.up.sent[i];
      ReceiveKeepsJobs(read, s.server.jobs, s.server.loop, r);
    } else if a.Server? && a.act == S.Submit {
      assert s.server.loop.PastGate? by { SubmitPastGate(s.server); }
      SubmitKeepsJobs(read, s.server.jobs, s.server.loop.job);
    } else {
      OtherKeepsJobs(read, s.server.jobs, s.server.loop, s'.server.loop);
    }
  }

  lemma SubmitPastGate(s: S.ServerState)
    requires S.Enabled(s, S.Submit)
    ensures s.loop.PastGate?
  {
  }

  // ---------------------------------------------------------------- server to wire

  /** A response on this connection: a refusal, or the outcome of a body run for a job of this connection. */
  ghost predicate Origin(jobs: seq<S.Job>, ran: seq<S.Ran>, r: RpcResponse) {
    || r.code == SERVER_SHUTTING_DOWN || r.code == SERVER_BUSY
    || exists t: nat :: Ours(jobs, t) && ST.Backed(jobs, ran, t, r)
  }

  lemma OriginGrows(jobs: seq<S.Job>, jobs': seq<S.Job>, ran: seq<S.Ran>, ran': seq<S.Ran>, r: RpcResponse)
    requires Origin(jobs, ran, r) && jobs <= jobs' && ran <= ran'
    ensures Origin(jobs', ran', r)
  {
    hide ST.Backed;
    if r.code != SERVER_SHUTTING_DOWN && r.code != SERVER_BUSY {
      var t: nat :| Ours(jobs, t) && ST.Backed(jobs, ran, t, r);
      ST.BackedGrows(jobs, jobs', ran, ran', t, r);
      assert Ours(jobs', t);
    }
  }

  lemma EmittedHasOrigin(s: S.ServerState, a: S.Action)
    requires S.Enabled(s, a) && ST.RepliesBacked(s) && SentHere(S.Emitted(s, a)).Some?
    ensures Origin(s.jobs, s.ran, SentHere(S.Emitted(s, a)).value)
  {
    hide ST.Backed;
    if a == S.RunFunctor && s.queue.batch[0].Reply? {
      QueueLaws(s.queue, S.GoAway);
      var f := s.queue.batch[0];
      assert s.queue.Enqueued()[|s.queue.executed|] == f;
      assert Ours(s.jobs, f.task);
    }
  }

  ghost predicate Answered(s: System) {
    forall i | 0 <= i < |s.down.sent| :: Origin(s.server.jobs, s.server.ran, s.down.sent[i])
  }

  lemma ServerHistoryGrows(s: S.ServerState, a: S.Action)
    requires S.Enabled(s, a)
    ensures s.jobs <= S.Next(s, a).jobs && s.ran <= S.Next(s, a).ran
  {
    hide S.PoolAfter, S.QueueAfter, S.MainAfter;
  }

  lemma NextKeepsAnswered(w: World, s: System, a: Action)
    requires Enabled(s, a) && Answered(s) && ST.RepliesBacked(s.server)
    ensures Answered(Next(w, s, a))
  {
    var s' := Next(w, s, a);
    if DownEvent(s, a).Some? { ChannelGrows(ResponsePrinter(), ResponseParser(w.utf8), s.down, DownEvent(s, a).value); }
    if ServerStep(s, a).Some? {
      ServerHistoryGrows(s.server, ServerStep(s, a).value);
      if SentHere(S.Emitted(s.server, ServerStep(s, a).value)).Some? { EmittedHasOrigin(s.server, ServerStep(s, a).value); }
    }
    hide Origin, S.Next, C.Next, MC.Step, S.Enabled, C.Enabled, UpAfter, ClientAfter, ST.RepliesBacked, S.Emitted;
    forall i | 0 <= i < |s'.down.sent| ensures Origin(s'.server.jobs, s'.server.ran, s'.down.sent[i]) {
      OriginGrows(s.server.jobs, s'.server.jobs, s.server.ran, s'.server.ran, s'.down.sent[i]);
    }
  }

  // ---------------------------------------------------------------- wire to callback

  predicate HoldsResponse(c: C.ClientState, r: RpcResponse) { c.loopStage == C.Responding(r) || c.loopStage == C.Disarmed(r) }

  /** Responses in the client's hands came over the wire; a success handed to a callback is such a response to its call. */
  ghost predicate Delivers(s: System) {
    && (forall r: RpcResponse | HoldsResponse(s.client, r) :: r in s.down.sent)
    && (forall id: Id | id in s.client.ledger.delivered && s.client.ledger.delivered[id].code == OK ::
          s.client.ledger.delivered[id] in s.down.sent && s.client.ledger.delivered[id].requestId == id)
  }

  lemma HeldAfter(c: C.ClientState, a: C.Action, r: RpcResponse)
    requires C.Enabled(c, a) && (C.LoopAfter(c, a) == C.Responding(r) || C.LoopAfter(c, a) == C.Disarmed(r))
    ensures HoldsResponse(c, r) || a == C.TakeResponse(r)
  {
    hide C.DueIds;
  }

  lemma NextKeepsDelivers(w: World, s: System, a: Action)
    requires Enabled(s, a) && Delivers(s) && CT.ErrorsAreErrors(s.client) && s.down.rx.dispatched <= s.down.sent
    ensures Delivers(Next(w, s, a))
  {
    var s' := Next(w, s, a);
    if DownEvent(s, a).Some? { ChannelGrows(ResponsePrinter(), ResponseParser(w.utf8), s.down, DownEvent(s, a).value); }
    assert s.down.sent <= s'.down.sent;
    if ClientStep(s, a).Some? {
      var step := ClientStep(s, a).value;
      assert step.TakeResponse? ==> a.TakeNext? && step.resp in s.down.sent;
      hide MC.Step, S.Next, S.Enabled, C.Enabled, CT.ErrorsAreErrors, UpAfter, DownAfter, ServerAfter, C.LedgerAfter,
           C.CallsAfter, C.QueueAfter, C.WheelAfter, C.TimerOfAfter, C.LoopAfter, C.StopAfter, C.ConnectedAfter;
      forall r: RpcResponse | HoldsResponse(s'.client, r) ensures r in s'.down.sent { HeldAfter(s.client, step, r); }
      forall id: Id | id in s'.client.ledger.delivered && s'.client.ledger.delivered[id].code == OK
        ensures s'.client.ledger.delivered[id] in s'.down.sent && s'.client.ledger.delivered[id].requestId == id
      {
        CT.SuccessComesFromResponse(s.client, step, id);
        assert HoldsResponse(s.client, s'.client.ledger.delivered[id]) ==> s'.client.ledger.delivered[id] in s.down.sent;
      }
    }
  }

  // ---------------------------------------------------------------- every run

  ghost predicate Linked(w: World, s: System) {
    && ClientSound(w, s.client) && ST.Invariant(s.server) && ChannelsSound(w, s)
    && Recorded(s) && Sends(s.up.sent, s.requests, s.client.queue.executed)
    && Received(s) && Answered(s) && Delivers(s)
  }

  lemma NextKeepsLinked(w: World, s: System, a: Action)
    requires Enabled(s, a) && Linked(w, s)
    ensures Linked(w, Next(w, s, a))
  {
    assert ST.RepliesBacked(s.server) && CT.HandedOver(s.client) && CT.ErrorsAreErrors(s.client) by {
      hide Enabled, ST.RepliesBacked, CT.HandedOver, CT.ErrorsAreErrors, TM.TimersSound, ChannelsSound, Recorded,
           Sends, Received,
           Answered, Delivers;
    }
    assert DistinctIds(s.up.sent) by { assert Sends(s.up.sent, s.requests, s.client.queue.executed); }
    hide Enabled, ClientSound, ST.Invariant, ChannelsSound, Recorded, Sends, Received, Answered, Delivers,
         ClientAfter, ServerAfter, UpAfter, DownAfter,
      DistinctIds, ST.RepliesBacked, CT.HandedOver, CT.ErrorsAreErrors;
    DispatchedWasSent(w, s);
    NextKeepsClient(w, s, a);
    NextKeepsServer(s, a);
    NextKeepsChannels(w, s, a);
    NextKeepsRecorded(w, s, a);
    NextKeepsSends(w, s, a);
    NextKeepsReceived(w, s, a);
    NextKeepsAnswered(w, s, a);
    NextKeepsDelivers(w, s, a);
  }

  lemma {:induction false} RunLinked(w: World, actions: seq<Action>)
    ensures Linked(w, Run(w, actions))
  {
    hide Next, Enabled, Linked;
    if actions == [] {
      StartLinked(w);
    } else {
      RunLinked(w, actions[..|actions| - 1]);
      var s := Run(w, actions[..|actions| - 1]);
      if Enabled(s, actions[|actions| - 1]) { NextKeepsLinked(w, s, actions[|actions| - 1]); }
    }
  }

  lemma StartClientSound(w: World)
    ensures ClientSound(w, Start(w).client)
  {
    TM.InitialTimers(w.tid);
    hide TM.TimersSound;
  }

  lemma StartChannels(w: World)
    ensures ChannelsSound(w, Start(w))
  {
  }

  lemma StartHistory(w: World)
    ensures var s := Start(w);
      Recorded(s) && Sends(s.up.sent, s.requests, s.client.queue.executed) && Received(s) && Answered(s) && Delivers(s)
  {
  }

  lemma StartLinked(w: World)
    ensures Linked(w, Start(w))
  {
    ST.InitialInvariant(w.threads, w.maxQueue);
    StartClientSound(w);
    StartChannels(w);
    StartHistory(w);
    hide ST.Invariant, ClientSound, ChannelsSound, Recorded, Sends, Received, Answered, Delivers;
  }

  // ---------------------------------------------------------------- the end-to-end theorem

  /** The `i`th body the server ran is the handler for call `id` of this client. */
  predicate RunsFor(server: S.ServerState, i: nat, id: Id) {
    && i < |server.ran|
    && Ours(server.jobs, server.ran[i].task)
    && server.jobs[server.ran[i].task].request.requestId == id
    && server.ran[i].body.Executed?
  }

  lemma {:induction false} RanTwice(ran: seq<S.Ran>, i: nat, j: nat)
    requires i < j < |ran| && ran[i].task == ran[j].task
    ensures ST.TimesRan(ran, ran[i].task) >= 2
  {
    var n := |ran| - 1;
    if j < n { RanTwice(ran[..n], i, j); } else { RanOnce(ran[..n], i); }
  }

  lemma {:induction false} RanOnce(ran: seq<S.Ran>, i: nat)
    requires i < |ran|
    ensures ST.TimesRan(ran, ran[i].task) >= 1
  {
    if i < |ran| - 1 { RanOnce(ran[..|ran| - 1], i); }
  }

  lemma OncePerTask(s: S.ServerState, t: nat)
    requires ST.Invariant(s)
    ensures ST.TimesRan(s.ran, t) <= 1
  {
    ST.Once(s.pool.accepted, |s.pool.accepted|, t);
    ST.JustRanAtMost(s.pool.workers, t);
    ST.BooksBound(s.pool, t);
  }

  /** The handler of each call runs at most once, however the threads interleave and the bytes are cut. */
  lemma HandlerAtMostOnce(w: World, actions: seq<Action>, s: System, id: Id, i: nat, j: nat)
    requires s == Run(w, actions) && RunsFor(s.server, i, id) && RunsFor(s.server, j, id)
    ensures i == j
  {
    RunLinked(w, actions);
    hide Run, ClientSound, ST.Invariant, ChannelsSound, Recorded, Sends, Answered, Delivers;
    var t, u := s.server.ran[i].task, s.server.ran[j].task;
    OncePerTask(s.server, t);
    assert t == u;
    if i < j { RanTwice(s.server.ran, i, j); } else if j < i { RanTwice(s.server.ran, j, i); }
  }

  /** A successful response comes from a handler that returned it. */
  lemma SuccessWasReturned(jobs: seq<S.Job>, ran: seq<S.Ran>, r: RpcResponse) returns (i: nat, result: RpcResponse)
    requires Origin(jobs, ran, r) && r.code == OK
    ensures i < |ran| && Ours(jobs, ran[i].task) && ran[i].body == S.Executed(Returned(result))
    ensures r == result.(requestId := jobs[ran[i].task].request.requestId)
  {
    var t: nat :| Ours(jobs, t) && ST.Backed(jobs, ran, t, r);
    var body :| S.Ran(t, body, true) in ran && S.ReplyOf(jobs[t].request, body) == Some(r);
    i :| 0 <= i < |ran| && ran[i] == S.Ran(t, body, true);
    result := body.outcome.response;
  }

  /** Which execution a callback's success is due to. */
  ghost predicate DueTo(s: System, id: Id, i: nat) {
    && RunsFor(s.server, i, id)
    && id in s.requests && s.server.jobs[s.server.ran[i].task].request == s.requests[id]
    && s.server.ran[i].body.outcome.Returned?
    && id in s.client.ledger.delivered
    && s.client.ledger.delivered[id] == s.server.ran[i].body.outcome.response.(requestId := id)
  }

  /**
   * End to end: if the callback of a call was invoked with code 0, it was invoked once, the call's
   * handler ran exactly once, on exactly the call's request, and what was delivered is exactly
   * what that execution returned. No response of another call, connection or run gets through.
   */
  lemma SuccessMeansExecutedOnce(w: World, actions: seq<Action>, s: System, id: Id) returns (i: nat)
    requires s == Run(w, actions)
    requires id in s.client.ledger.delivered && s.client.ledger.delivered[id].code == OK
    ensures s.client.ledger.invoked[id] == 1
    ensures DueTo(s, id, i)
    ensures forall j: nat | RunsFor(s.server, j, id) :: j == i
  {
    RunLinked(w, actions);
    var result;
    i, result := SuccessFound(w, s, id);
    forall j: nat | RunsFor(s.server, j, id) ensures j == i { HandlerAtMostOnce(w, actions, s, id, i, j); }
    InvokedOnce(w, s.client, id);
  }

  lemma InvokedOnce(w: World, c: C.ClientState, id: Id)
    requires ClientSound(w, c) && id in c.ledger.delivered
    ensures c.ledger.invoked[id] == 1
  {
    assert Tally(c.ledger, id) == One(id in c.ledger.issued);
  }

  lemma SuccessFound(w: World, s: System, id: Id) returns (i: nat, result: RpcResponse)
    requires Linked(w, s) && id in s.client.ledger.delivered && s.client.ledger.delivered[id].code == OK
    ensures DueTo(s, id, i)
  {
    hide ClientSound, ST.Invariant, ChannelsSound, Recorded, Origin;
    DispatchedWasSent(w, s);
    var r := s.client.ledger.delivered[id];
    var k :| 0 <= k < |s.down.sent| && s.down.sent[k] == r;
    i, result := SuccessWasReturned(s.server.jobs, s.server.ran, r);
    var request := s.server.jobs[s.server.ran[i].task].request;
    var m :| 0 <= m < s.handled && s.up.rx.dispatched[m] == request;
    assert s.up.sent[m] == request;
    assert Own(s.requests, s.up.sent[m]);
  }

  /** A step of the client's loop in handling a response without an id, such as the shutdown notice. */
  predicate Noticing(s: System, a: Action) {
    && Enabled(s, a)
    && (match a
        case TakeNext => s.down.rx.dispatched[s.taken].requestId == []
        case Client(step) => (step.DisarmResponse? || step.InvokeResponse?) && s.client.loopStage.resp.requestId == []
        case _ => false)
  }

  /**
   * Handling the shutdown notice, which has no id, completes no call, from taking it to invoking whatever it
   * answers; and removing its timer takes no pending call's timer away if timer ids are distinct.
   */
  lemma NoticeCompletesNoCall(w: World, actions: seq<Action>, s: System, a: Action)
    requires s == Run(w, actions) && Noticing(s, a)
    ensures Next(w, s, a).client.ledger == s.client.ledger
    ensures TM.Distinct(w.tid, s.client) ==>
      forall h: nat, id: Id | id in s.client.ledger.pending && TM.HasTimer(w.tid, s.client, h, id) ::
        TM.HasTimer(w.tid, Next(w, s, a).client, h, id)
  {
    assert Enabled(s, a);
    hide Run, Linked, Next, Enabled, Noticing, TM.Distinct, TM.HasTimer;
    RunLinked(w, actions);
    LinkedParts(w, s);
    NoticeStep(w, s, a);
    if TM.Distinct(w.tid, s.client) {
      forall h: nat, id: Id | id in s.client.ledger.pending && TM.HasTimer(w.tid, s.client, h, id)
        ensures TM.HasTimer(w.tid, Next(w, s, a).client, h, id)
      {
        NoticeKeepsTimer(w, s, a, h, id);
      }
    }
  }

  lemma NoticeStep(w: World, s: System, a: Action)
    requires Noticing(s, a) && Recorded(s) && CT.Accounted(s.client)
    ensures Next(w, s, a).client.ledger == s.client.ledger
  {
    PendingIssued(s.client);
    HeldIssued(s.client, []);
    hide CT.Accounted, UpAfter, DownAfter, ServerAfter, C.WheelAfter, C.TimerOfAfter, C.LoopAfter, C.QueueAfter,
         C.CallsAfter;
    assert [] !in s.client.ledger.issued;
  }

  lemma NoticeKeepsTimer(w: World, s: System, a: Action, h: nat, id: Id)
    requires Noticing(s, a) && TM.TimersSound(w.tid, s.client) && TM.Distinct(w.tid, s.client)
    requires id in s.client.ledger.pending && TM.HasTimer(w.tid, s.client, h, id)
    ensures TM.HasTimer(w.tid, Next(w, s, a).client, h, id)
  {
    hide C.Enabled, UpAfter, DownAfter, ServerAfter, TM.HasTimer, TM.Distinct, TM.NodesSound, TM.RemovalsSafe, Balanced,
      C.LedgerAfter, C.CallsAfter, C.QueueAfter, C.WheelAfter, C.TimerOfAfter;
    TM.HasTimerAfter(w.tid, s.client, ClientStep(s, a).value, h, id);
  }

  lemma LinkedParts(w: World, s: System)
    requires Linked(w, s)
    ensures Recorded(s) && CT.Accounted(s.client) && TM.TimersSound(w.tid, s.client)
  {
    hide Recorded, CT.Accounted, TM.TimersSound;
  }

  lemma HeldIssued(c: C.ClientState, id: Id)
    requires CT.Accounted(c)
    ensures id in c.ledger.Held(Loop) ==> id in c.ledger.issued
  {
    assert Tally(c.ledger, id) == One(id in c.ledger.issued);
  }

  lemma PendingIssued(c: C.ClientState)
    requires CT.Accounted(c)
    ensures c.ledger.pending <= c.ledger.issued
  {
    forall id | id in c.ledger.pending ensures id in c.ledger.issued { TM.PendingIsIssued(c.ledger, id); }
  }
}
