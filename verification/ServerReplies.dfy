/**
 * Every task that ran is answered (code/rpc/rpc_server.cc): exactly once, with what its body came to, on its
 * request's connection, and before a graceful stop closes it.
 */
module ServerReplies {
  import opened Basics
  import opened Envelope
  import opened ErrorCodes
  import opened EventLoops
  import opened RpcServices
  import Pool = PoolProtocol
  import opened ServerProtocol
  import opened ServerTheorems

  // ---------------------------------------------------------------- from the body that ran to the queued response

  /** The responses queued for task `t`, in order. */
  function RepliesTo(q: seq<Functor>, t: Task): seq<RpcResponse> {
    if q == [] then [] else
      var f := q[|q| - 1];
      RepliesTo(q[..|q| - 1], t) + (if f.Reply? && f.task == t then [f.response] else [])
  }

  function AsList(r: Option<RpcResponse>): seq<RpcResponse> { if r.Some? then [r.value] else [] }

  /** What the bodies run for task `t` and passed on have come to, in order. */
  function AnswersTo(ran: seq<Ran>, t: Task, request: RpcRequest): seq<RpcResponse> {
    if ran == [] then [] else
      var last := ran[|ran| - 1];
      AnswersTo(ran[..|ran| - 1], t, request)
        + (if last.task == t && last.sent then AsList(ReplyOf(request, last.body)) else [])
  }

  lemma RepliesToNext(q: seq<Functor>, f: Functor, t: Task)
    ensures RepliesTo(q + [f], t) == RepliesTo(q, t) + (if f.Reply? && f.task == t then [f.response] else [])
  {
    assert (q + [f])[..|q|] == q;
  }

  lemma AnswersToNext(ran: seq<Ran>, last: Ran, t: Task, request: RpcRequest)
    ensures AnswersTo(ran + [last], t, request) == AnswersTo(ran, t, request)
      + (if last.task == t && last.sent then AsList(ReplyOf(request, last.body)) else [])
  {
    assert (ran + [last])[..|ran|] == ran;
  }

  ghost predicate RanKnown(s: ServerState) { forall i | 0 <= i < |s.ran| :: s.ran[i].task < |s.jobs| }

  /** What is queued for a task is what its body came to; nothing is queued for a number that is no task. */
  ghost predicate Answers(s: ServerState, t: Task) {
    RepliesTo(s.queue.Enqueued(), t) == if t < |s.jobs| then AnswersTo(s.ran, t, s.jobs[t].request) else []
  }

  lemma {:induction false} NeverRanNoAnswer(ran: seq<Ran>, t: Task, request: RpcRequest)
    requires TimesRan(ran, t) == 0
    ensures AnswersTo(ran, t, request) == []
  {
    hide ReplyOf;
    if ran != [] { NeverRanNoAnswer(ran[..|ran| - 1], t, request); }
  }

  lemma {:induction false} UnknownNeverRan(ran: seq<Ran>, t: Task)
    requires forall i | 0 <= i < |ran| :: ran[i].task != t
    ensures TimesRan(ran, t) == 0
  {
    if ran != [] { UnknownNeverRan(ran[..|ran| - 1], t); }
  }

  /** What one action adds to the bodies run and to the queue. */
  lemma RunTaskPushes(s: ServerState, a: Action, t: Task)
    requires Enabled(s, a)
    ensures var pushed := PushedBy(s, a);
      if a.RunTask? then
        var task := s.pool.workers[a.w].task;
        && task < |s.jobs| && Next(s, a).ran == s.ran + [Ran(task, a.body, a.sent)]
        && (if pushed.Some? && pushed.value.Reply? && pushed.value.task == t then [pushed.value.response] else [])
          == (if task == t && a.sent then AsList(ReplyOf(s.jobs[task].request, a.body)) else [])
      else Next(s, a).ran == s.ran && (pushed.Some? ==> !pushed.value.Reply?)
  {
    hide PoolAfter, QueueAfter, MainAfter, LoopAfter, ReplyOf;
  }

  lemma NextKeepsAnswers(s: ServerState, a: Action, t: Task)
    requires Enabled(s, a) && Numbered(s) && RanKnown(s) && Answers(s, t)
    ensures Answers(Next(s, a), t)
  {
    var s', pushed, q := Next(s, a), PushedBy(s, a), s.queue.Enqueued();
    EnqueuedAfter(s, a);
    NextKeepsNumbered(s, a);
    RunTaskPushes(s, a, t);
    hide Next, Enabled, PushedBy, Numbered, ReplyOf, AnswersTo, RepliesTo;
    assert q + [] == q && RepliesTo(q, t) + [] == RepliesTo(q, t);
    if pushed.Some? { RepliesToNext(q, pushed.value, t); }
    if t < |s'.jobs| {
      var request := s'.jobs[t].request;
      if a.RunTask? { AnswersToNext(s.ran, s'.ran[|s.ran|], t, request); }
      assert AnswersTo(s.ran, t, request) + [] == AnswersTo(s.ran, t, request);
      if t >= |s.jobs| {
        UnknownNeverRan(s.ran, t);
        NeverRanNoAnswer(s.ran, t, request);
      }
    }
  }

  lemma NextKeepsRanKnown(s: ServerState, a: Action)
    requires Enabled(s, a) && Numbered(s) && RanKnown(s)
    ensures RanKnown(Next(s, a))
  {
    NextKeepsNumbered(s, a);
    RunTaskPushes(s, a, 0);
    hide Next, Enabled, PushedBy, Numbered;
  }

  lemma {:induction false} RunAnswers(threads: nat, maxQueue: nat, actions: seq<Action>, t: Task)
    ensures Answers(Run(threads, maxQueue, actions), t) && RanKnown(Run(threads, maxQueue, actions))
  {
    hide Next, Enabled, Answers, RanKnown, Pool.Invariant;
    if actions == [] {
      NothingAtFirst(threads, maxQueue, t);
    } else {
      var s, a := Run(threads, maxQueue, actions[..|actions| - 1]), actions[|actions| - 1];
      RunAnswers(threads, maxQueue, actions[..|actions| - 1], t);
      RunInvariant(threads, maxQueue, actions[..|actions| - 1]);
      if Enabled(s, a) {
        NextKeepsAnswers(s, a, t);
        NextKeepsRanKnown(s, a);
      }
    }
  }

  lemma NothingAtFirst(threads: nat, maxQueue: nat, t: Task)
    ensures Answers(Initial(threads, maxQueue), t) && RanKnown(Initial(threads, maxQueue))
  {
  }

  lemma {:induction false} OnlyAnswer(ran: seq<Ran>, i: nat, request: RpcRequest)
    requires i < |ran| && TimesRan(ran, ran[i].task) <= 1
    ensures AnswersTo(ran, ran[i].task, request) == if ran[i].sent then AsList(ReplyOf(request, ran[i].body)) else []
  {
    hide ReplyOf;
    var t, n := ran[i].task, |ran| - 1;
    if i == n {
      NeverRanNoAnswer(ran[..n], t, request);
    } else {
      SomeRun(ran[..n], i);
      OnlyAnswer(ran[..n], i, request);
      assert AnswersTo(ran[..n], t, request) + [] == AnswersTo(ran[..n], t, request);
    }
  }

  lemma {:induction false} SomeRun(ran: seq<Ran>, i: nat)
    requires i < |ran|
    ensures TimesRan(ran, ran[i].task) >= 1
  {
    if i < |ran| - 1 { SomeRun(ran[..|ran| - 1], i); }
  }

  /** The response a body that ran calls for, as the service fills it in. */
  predicate Calls(request: RpcRequest, body: Body, replies: seq<RpcResponse>) {
    var id := request.requestId;
    match body
    case Executed(Returned(r)) => replies == [r.(requestId := id)]
    case Executed(Threw(r, what)) => replies == [RpcResponse(id, SERVER_INTERNAL_ERROR, what, r.body)]
    case NotFound =>
      var key := MakeMethodKey(request.serviceName, request.methodName);
      replies == [RpcResponse(id, SERVER_SERVICE_NOT_FOUND, Ascii("Service not found: ") + key, [])]
    case _ => replies == []
  }

  /**
   * In every run, for every body that has run: if its response could be passed on, the loop has been handed exactly
   * one response for its task, the one its outcome calls for, and none if it skipped or threw something else; and
   * none at all if it could not be passed on.
   */
  lemma AnsweredOnce(threads: nat, maxQueue: nat, actions: seq<Action>, s: ServerState, i: nat)
    requires s == Run(threads, maxQueue, actions) && i < |s.ran|
    ensures var Ran(t, body, sent) := s.ran[i];
      && t < |s.jobs|
      && var replies := RepliesTo(s.queue.Enqueued(), t);
        if sent then Calls(s.jobs[t].request, body, replies) else replies == []
  {
    var t := s.ran[i].task;
    assert forall request, body :: Calls(request, body, AsList(ReplyOf(request, body)));
    hide Run, ReplyOf, Calls, MakeMethodKey, Ascii;
    RunAnswers(threads, maxQueue, actions, t);
    BodyAtMostOnce(threads, maxQueue, actions, s, t);
    assert s.ran[i].task < |s.jobs|;
    OnlyAnswer(s.ran, i, s.jobs[t].request);
  }

  // ---------------------------------------------------------------- before the connections are closed

  lemma {:induction false} RepliesQueued(q: seq<Functor>, t: Task, r: RpcResponse)
    ensures r in RepliesTo(q, t) <==> Reply(t, r) in q
  {
    if q != [] {
      RepliesQueued(q[..|q| - 1], t, r);
      assert q == q[..|q| - 1] + [q[|q| - 1]];
    }
  }

  lemma {:induction false} RanAt(ran: seq<Ran>, t: Task) returns (i: nat)
    requires TimesRan(ran, t) >= 1
    ensures i < |ran| && ran[i].task == t
  {
    i := |ran| - 1;
    if ran[i].task != t { i := RanAt(ran[..i], t); }
  }

  lemma DrainedRan(s: ServerState, t: Task) returns (i: nat)
    requires Invariant(s) && HasWaited(s) && t < s.atDrain
    ensures i < |s.ran| && s.ran[i].task == t
  {
    assert s.pool.finished[t] >= 1 && TimesRan(s.ran, t) >= 1;
    i := RanAt(s.ran, t);
  }

  lemma StopMeansWaited(s: ServerState, j: nat)
    requires Invariant(s) && j < |s.queue.executed| && s.queue.executed[j] == StopInLoop
    ensures HasWaited(s) && s.atStop <= s.atDrain <= |s.jobs|
  {
    QueueLaws(s.queue, GoAway);
    assert StopInLoop in s.queue.Enqueued();
    hide Pool.Invariant;
  }

  /** What is queued for a task waited for is run before the functor that closes the connections. */
  lemma RunBeforeStop(s: ServerState, j: nat, t: Task, r: RpcResponse)
    requires OrderedStop(s) && j < |s.queue.executed| && s.queue.executed[j] == StopInLoop
    requires t < s.atDrain && Reply(t, r) in s.queue.Enqueued()
    ensures Reply(t, r) in s.queue.executed[..j]
  {
    QueueLaws(s.queue, GoAway);
    var q := s.queue.Enqueued();
    assert q[j] == StopInLoop;
    var i :| 0 <= i < |q| && q[i] == Reply(t, r);
    assert i < j;
    assert s.queue.executed[i] == q[i];
  }

  /**
   * When the loop closes the connections, every task accepted before WaitForTasks returned, which includes every one
   * accepted before Stop was called, has run its body, and the loop has already handed over the response that the
   * outcome calls for, unless it could not be passed on.
   */
  lemma RepliesBeforeClose(threads: nat, maxQueue: nat, actions: seq<Action>, s: ServerState, j: nat, t: Task)
    returns (i: nat)
    requires s == Run(threads, maxQueue, actions)
    requires j < |s.queue.executed| && s.queue.executed[j] == StopInLoop && t < s.atDrain
    ensures s.atStop <= s.atDrain <= |s.jobs|
    ensures i < |s.ran| && s.ran[i].task == t
    ensures s.ran[i].sent ==> exists replies :: Calls(s.jobs[t].request, s.ran[i].body, replies) && forall r | r in replies :: Reply(t, r) in s.queue.executed[..j]
  {
    RunInvariant(threads, maxQueue, actions);
    StopMeansWaited(s, j);
    i := DrainedRan(s, t);
    assert OrderedStop(s);
    AnsweredOnce(threads, maxQueue, actions, s, i);
    hide Run, Invariant, OrderedStop, Calls, RepliesTo;
    var replies := RepliesTo(s.queue.Enqueued(), t);
    forall r | r in replies ensures Reply(t, r) in s.queue.executed[..j] {
      RepliesQueued(s.queue.Enqueued(), t, r);
      RunBeforeStop(s, j, t, r);
    }
  }

  // ---------------------------------------------------------------- from the queue to the connection

  /** What the loop has passed on in running functors, one entry for each. */
  function Spoken(threads: nat, maxQueue: nat, actions: seq<Action>): seq<Emission> {
    if actions == [] then [] else
      var before, a := actions[..|actions| - 1], actions[|actions| - 1];
      var s := Run(threads, maxQueue, before);
      Spoken(threads, maxQueue, before) + (if Enabled(s, a) && a == RunFunctor then [Emitted(s, a)] else [])
  }

  /** A response goes to the connection of its task's request; the notice goes to everyone, without an id. */
  predicate Says(f: Functor, jobs: seq<Job>, e: Emission) {
    match f
    case Reply(t, response) => t < |jobs| && e == To(jobs[t].conn, response)
    case GoAway => e == ToEveryone(RpcResponse([], SERVER_SHUTTING_DOWN, Ascii("server shutting down"), []))
    case _ => e == Silence
  }

  lemma FunctorSays(s: ServerState)
    requires Enabled(s, RunFunctor) && RepliesBacked(s)
    ensures Says(s.queue.batch[0], s.jobs, Emitted(s, RunFunctor))
    ensures Next(s, RunFunctor).queue.executed == s.queue.executed + [s.queue.batch[0]]
  {
    QueueLaws(s.queue, GoAway);
    assert s.queue.Enqueued()[|s.queue.executed|] == s.queue.batch[0];
    hide PoolAfter, MainAfter, Ascii;
  }

  lemma ExecutedStays(s: ServerState, a: Action)
    requires Enabled(s, a) && a != RunFunctor
    ensures Next(s, a).queue.executed == s.queue.executed
  {
    hide PoolAfter, MainAfter, PushedBy;
  }

  /** In every run the loop has said, for each functor it ran, exactly what that functor is for. */
  lemma {:induction false} SaysWhatItRan(threads: nat, maxQueue: nat, actions: seq<Action>)
    ensures var s, spoken := Run(threads, maxQueue, actions), Spoken(threads, maxQueue, actions);
      |spoken| == |s.queue.executed| && forall i | 0 <= i < |spoken| :: Says(s.queue.executed[i], s.jobs, spoken[i])
  {
    hide Next, Enabled, Emitted, Says, Invariant;
    if actions != [] {
      var before, a := actions[..|actions| - 1], actions[|actions| - 1];
      SaysWhatItRan(threads, maxQueue, before);
      var s, spoken := Run(threads, maxQueue, before), Spoken(threads, maxQueue, before);
      if Enabled(s, a) {
        RunInvariant(threads, maxQueue, before);
        SaysStays(s, a, spoken);
        if a == RunFunctor { FunctorSays(s); } else { ExecutedStays(s, a); }
      }
      assert spoken + [] == spoken;
    }
  }

  lemma SaysStays(s: ServerState, a: Action, spoken: seq<Emission>)
    requires Enabled(s, a) && Invariant(s) && |spoken| == |s.queue.executed|
    requires forall i | 0 <= i < |spoken| :: Says(s.queue.executed[i], s.jobs, spoken[i])
    ensures RepliesBacked(s)
    ensures forall i | 0 <= i < |spoken| :: Says(s.queue.executed[i], Next(s, a).jobs, spoken[i])
    ensures a == RunFunctor ==> Next(s, a).jobs == s.jobs
  {
    NextKeepsNumbered(s, a);
    hide Invariant, Enabled, Pool.Invariant, PoolAfter, QueueAfter, MainAfter, Ascii;
  }

  // ---------------------------------------------------------------- what Stop itself asks of the loop

  function OneIf(b: bool): nat { if b then 1 else 0 }

  /** How far Stop must have come to have queued one of its functors. */
  function QueuedAt(f: Functor): nat {
    match f
    case StopAccepting => 2
    case GoAway => 3
    case StopInLoop => 6
    case _ => 12
  }

  ghost predicate AskedFor(s: ServerState, f: Functor) {
    multiset(s.queue.Enqueued())[f] == OneIf(Rank(s.main) >= QueuedAt(f))
  }

  lemma MainMoves(s: ServerState, a: Action, f: Functor)
    requires Enabled(s, a) && !f.Reply?
    ensures PushedBy(s, a) == Some(f) <==> Rank(s.main) < QueuedAt(f) <= Rank(MainAfter(s, a))
    ensures Rank(s.main) <= Rank(MainAfter(s, a))
  {
    hide ReplyOf;
  }

  lemma CountNext(q: seq<Functor>, f: Functor, g: Functor)
    ensures multiset(q + [f])[g] == multiset(q)[g] + OneIf(f == g)
  {
  }

  lemma NextKeepsAskedFor(s: ServerState, a: Action, f: Functor)
    requires Enabled(s, a) && AskedFor(s, f) && !f.Reply?
    ensures AskedFor(Next(s, a), f)
  {
    EnqueuedAfter(s, a);
    MainMoves(s, a, f);
    assert Next(s, a).main == MainAfter(s, a);
    hide Next, Enabled, PushedBy, MainAfter, Rank, QueuedAt;
    var q := s.queue.Enqueued();
    assert q + [] == q;
    if PushedBy(s, a).Some? { CountNext(q, PushedBy(s, a).value, f); }
  }

  /** Each of the three functors of a graceful stop is queued exactly once, when Stop gets to it. */
  lemma {:induction false} StopAsksOnce(threads: nat, maxQueue: nat, actions: seq<Action>, f: Functor)
    requires !f.Reply?
    ensures var s := Run(threads, maxQueue, actions);
      multiset(s.queue.Enqueued())[f] == OneIf(Rank(s.main) >= QueuedAt(f))
  {
    if actions != [] {
      hide Next, Enabled, Rank, QueuedAt;
      var s, a := Run(threads, maxQueue, actions[..|actions| - 1]), actions[|actions| - 1];
      StopAsksOnce(threads, maxQueue, actions[..|actions| - 1], f);
      if Enabled(s, a) { NextKeepsAskedFor(s, a, f); }
    }
  }
}
