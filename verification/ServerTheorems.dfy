/** What every run of the server keeps: the gate, the books of the tasks, and the order of a graceful stop. */
module ServerTheorems {
  import opened Basics
  import opened Envelope
  import opened ErrorCodes
  import opened EventLoops
  import opened ThreadPools
  import Pool = PoolProtocol
  import opened ServerProtocol

  // ---------------------------------------------------------------- the stages of Stop

  function Rank(m: MainStage): nat {
    match m
    case Serving => 0
    case FlagSet => 1
    case NotAccepting => 2
    case Announced => 3
    case Waiting(_) => 4
    case Waited => 5
    case StopQueued => 6
    case QuitSet => 7
    case LoopJoined => 8
    case ClosedPool => 9
    case WokePool => 10
    case Done => 11
  }

  /** After the join the loop thread has left, or there never was one. */
  predicate LoopGone(s: ServerState) { Rank(s.main) >= 8 ==> s.loop == Exited || s.loop == NotStarted }

  lemma NextKeepsLoopGone(s: ServerState, a: Action)
    requires Enabled(s, a) && LoopGone(s) && (s.stopped <==> Rank(s.main) >= 1)
    ensures LoopGone(Next(s, a))
  {
    hide PoolAfter, QueueAfter, PushedBy;
  }

  /** What holds by how far Stop has come. */
  predicate Staged(s: ServerState) {
    && (s.stopped <==> Rank(s.main) >= 1)
    && WaiterThere(s)
    && LoopGone(s)
    && PoolShut(s)
    && WorkersGone(s)
  }

  predicate PoolShut(s: ServerState) {
    && (s.pool.core.closed <==> Rank(s.main) >= 9)
    && (s.pool.broadcast <==> Rank(s.main) >= 10)
  }

  lemma NextKeepsPoolShut(s: ServerState, a: Action)
    requires Enabled(s, a) && PoolShut(s)
    ensures PoolShut(Next(s, a))
  {
    hide QueueAfter, PushedBy, Pool.Next, LoopAfter;
    if PoolStep(s, a).Some? { PoolStaged(s.pool, PoolStep(s, a).value); }
  }

  predicate WaiterThere(s: ServerState) {
    && |s.pool.waiters| == (if Rank(s.main) >= 4 then 1 else 0)
    && (s.main.Waiting? ==> s.main.waiter == 0)
  }

  lemma NextKeepsWaiterThere(s: ServerState, a: Action)
    requires Enabled(s, a) && WaiterThere(s)
    ensures WaiterThere(Next(s, a))
  {
    hide QueueAfter, PushedBy, Pool.Next, LoopAfter;
    if PoolStep(s, a).Some? { PoolStaged(s.pool, PoolStep(s, a).value); }
  }

  predicate WorkersGone(s: ServerState) {
    s.main == Done ==> forall w | 0 <= w < |s.pool.workers| :: s.pool.workers[w] == Pool.Exited
  }

  lemma NextKeepsWorkersGone(s: ServerState, a: Action)
    requires Enabled(s, a) && WorkersGone(s)
    ensures WorkersGone(Next(s, a))
  {
    hide QueueAfter, PushedBy, Pool.Next, LoopAfter;
    if PoolStep(s, a).Some? { PoolStaged(s.pool, PoolStep(s, a).value); }
  }

  lemma PoolStaged(p: Pool.PoolState, a: Pool.Action)
    requires Pool.Enabled(p, a)
    ensures |Pool.Next(p, a).workers| == |p.workers|
    ensures |Pool.Next(p, a).waiters| == |p.waiters| + (if a.Arrive? then 1 else 0)
    ensures Pool.Next(p, a).core.closed == (p.core.closed || a.CloseFlag?)
    ensures Pool.Next(p, a).broadcast == (p.broadcast || a.Broadcast?)
    ensures forall w | 0 <= w < |p.workers| && p.workers[w] == Pool.Exited :: Pool.Next(p, a).workers[w] == Pool.Exited
  {
  }

  lemma NextKeepsStaged(s: ServerState, a: Action)
    requires Enabled(s, a) && Staged(s)
    ensures Staged(Next(s, a))
  {
    NextKeepsLoopGone(s, a);
    NextKeepsWorkersGone(s, a);
    NextKeepsWaiterThere(s, a);
    NextKeepsPoolShut(s, a);
    hide PoolAfter, QueueAfter, PushedBy, LoopAfter, LoopGone, WorkersGone, WaiterThere, PoolShut;
  }

  // ---------------------------------------------------------------- the pool inside the server

  /** Tasks are numbered as they are accepted. */
  ghost predicate Numbered(s: ServerState) {
    && |s.pool.accepted| == |s.jobs|
    && forall i | 0 <= i < |s.pool.accepted| :: s.pool.accepted[i] == i
  }

  lemma PoolAccepts(p: Pool.PoolState, a: Pool.Action)
    requires Pool.Enabled(p, a)
    ensures Pool.Next(p, a).accepted == p.accepted || (a.Submit? && Pool.Next(p, a).accepted == p.accepted + [a.task])
  {
  }

  lemma NextKeepsNumbered(s: ServerState, a: Action)
    requires Enabled(s, a) && Numbered(s)
    ensures Numbered(Next(s, a)) && s.jobs <= Next(s, a).jobs
  {
    hide QueueAfter, PushedBy, MainAfter, Pool.Next;
    if PoolStep(s, a).Some? { PoolAccepts(s.pool, PoolStep(s, a).value); }
  }

  lemma NextKeepsPool(s: ServerState, a: Action)
    requires Enabled(s, a) && Pool.Invariant(s.pool)
    ensures Pool.Invariant(Next(s, a).pool)
  {
    hide QueueAfter, PushedBy, MainAfter, Pool.Next, Pool.Invariant;
    if PoolStep(s, a).Some? { Pool.NextKeepsInvariant(s.pool, PoolStep(s, a).value); }
  }

  lemma {:induction false} Once(accepted: seq<Task>, n: nat, t: Task)
    requires n == |accepted| && forall i | 0 <= i < |accepted| :: accepted[i] == i
    ensures multiset(accepted)[t] == if t < n then 1 else 0
  {
    if n > 0 {
      Once(accepted[..n - 1], n - 1, t);
      assert accepted == accepted[..n - 1] + [n - 1];
    }
  }

  // ---------------------------------------------------------------- bodies run

  function TimesRan(ran: seq<Ran>, t: Task): nat {
    if ran == [] then 0 else TimesRan(ran[..|ran| - 1], t) + (if ran[|ran| - 1].task == t then 1 else 0)
  }

  /** Tasks whose body has run but which are not yet counted as done. */
  function JustRan(ws: seq<Pool.Worker>, t: Task): nat {
    if ws == [] then 0 else RanOne(ws[0], t) + JustRan(ws[1..], t)
  }

  function RanOne(w: Pool.Worker, t: Task): nat { if w == Pool.Ran(t) then 1 else 0 }

  lemma {:induction false} JustRanUpdate(ws: seq<Pool.Worker>, w: nat, x: Pool.Worker, t: Task)
    requires w < |ws|
    ensures JustRan(ws[w := x], t) == JustRan(ws, t) - RanOne(ws[w], t) + RanOne(x, t)
  {
    hide RanOne;
    if w == 0 {
      assert ws[0 := x][1..] == ws[1..];
    } else {
      JustRanUpdate(ws[1..], w - 1, x, t);
      assert ws[w := x][1..] == ws[1..][w - 1 := x];
    }
  }

  lemma {:induction false} JustRanRoused(ws: seq<Pool.Worker>, t: Task)
    ensures JustRan(Pool.Roused(ws), t) == JustRan(ws, t)
  {
    if ws != [] {
      JustRanRoused(ws[1..], t);
      assert RanOne(Pool.Roused(ws)[0], t) == RanOne(ws[0], t);
      hide RanOne;
      assert Pool.Roused(ws)[1..] == Pool.Roused(ws[1..]);
    }
  }

  lemma {:induction false} JustRanInHand(ws: seq<Pool.Worker>, w: nat, t: Task)
    requires w < |ws| && ws[w] == Pool.Running(t)
    ensures JustRan(ws, t) + 1 <= Pool.InHand(ws)[t]
  {
    if w == 0 {
      JustRanAtMost(ws[1..], t);
    } else {
      JustRanInHand(ws[1..], w - 1, t);
    }
  }

  lemma {:induction false} JustRanAtMost(ws: seq<Pool.Worker>, t: Task)
    ensures JustRan(ws, t) <= Pool.InHand(ws)[t]
  {
    if ws != [] { JustRanAtMost(ws[1..], t); }
  }

  /** A body has run once if its task is finished or about to be counted, and otherwise not at all. */
  ghost predicate BodiesCounted(s: ServerState) {
    forall t: Task :: TimesRan(s.ran, t) == s.pool.finished[t] + JustRan(s.pool.workers, t)
  }

  lemma PoolCounts(p: Pool.PoolState, a: Pool.Action, t: Task)
    requires Pool.Enabled(p, a)
    ensures var p' := Pool.Next(p, a);
      p'.finished[t] + JustRan(p'.workers, t)
      == p.finished[t] + JustRan(p.workers, t) + (if a.RunBody? && p.workers[a.w].task == t then 1 else 0)
  {
    var p' := Pool.Next(p, a);
    match a {
      case NotifyOne(w) => if Pool.Sleeps(p.workers) { JustRanUpdate(p.workers, w, Pool.Woken, t); }
      case Acquire(w) => JustRanUpdate(p.workers, w, p'.workers[w], t);
      case RunBody(w) => JustRanUpdate(p.workers, w, p'.workers[w], t);
      case Complete(w) => JustRanUpdate(p.workers, w, Pool.Ready, t);
      case SpuriousWakeup(w) => JustRanUpdate(p.workers, w, Pool.Woken, t);
      case Broadcast => JustRanRoused(p.workers, t);
      case _ =>
    }
  }

  lemma NextKeepsCounted(s: ServerState, a: Action)
    requires Enabled(s, a) && BodiesCounted(s)
    ensures BodiesCounted(Next(s, a))
  {
    hide QueueAfter, PushedBy, MainAfter, Pool.Next, JustRan;
    var s' := Next(s, a);
    assert a.RunTask? ==> s'.ran[..|s.ran|] == s.ran;
    forall t: Task ensures TimesRan(s'.ran, t) == s'.pool.finished[t] + JustRan(s'.pool.workers, t) {
      if PoolStep(s, a).Some? { PoolCounts(s.pool, PoolStep(s, a).value, t); }
    }
  }

  // ---------------------------------------------------------------- the gate

  /** After `stopped_` is set, at most one further request is accepted: one already past the gate. */
  predicate Gated(s: ServerState) {
    s.stopped ==> s.atStop <= |s.pool.accepted| && |s.pool.accepted| + (if s.loop.PastGate? then 1 else 0) <= s.atStop + 1
  }

  lemma NextKeepsGated(s: ServerState, a: Action)
    requires Enabled(s, a) && Gated(s) && (s.stopped <==> s.main != Serving)
    ensures Gated(Next(s, a))
  {
    hide QueueAfter, PushedBy, MainAfter, Pool.Next;
    if PoolStep(s, a).Some? { PoolAccepts(s.pool, PoolStep(s, a).value); }
  }

  // ---------------------------------------------------------------- after WaitForTasks

  predicate HasWaited(s: ServerState) {
    || Rank(s.main) >= 5
    || (s.main.Waiting? && s.main.waiter < |s.pool.waiters| && s.pool.waiters[s.main.waiter] == Pool.Returned)
  }

  /** Everything accepted before WaitForTasks returned has finished. */
  ghost predicate WaitedFor(s: ServerState) {
    HasWaited(s) ==>
      && s.atStop <= s.atDrain <= |s.pool.accepted|
      && forall t: Task | t < s.atDrain :: s.pool.finished[t] >= 1
  }

  lemma PoolFinishes(p: Pool.PoolState, a: Pool.Action)
    requires Pool.Enabled(p, a)
    ensures forall t: Task :: p.finished[t] <= Pool.Next(p, a).finished[t]
    ensures forall i | 0 <= i < |p.waiters| && Pool.Next(p, a).waiters[i] == Pool.Returned ::
      p.waiters[i] == Pool.Returned || (a == Pool.Check(i) && Drained(p.core))
    ensures a.Arrive? ==> Pool.Next(p, a).waiters[|p.waiters|] == Pool.Calling
    ensures a.Check? ==> p.waiters[a.i] != Pool.Returned && Pool.Next(p, a).finished == p.finished
  {
  }

  lemma DrainedFinished(s: ServerState, t: Task)
    requires Numbered(s) && Pool.Invariant(s.pool) && Drained(s.pool.core) && t < |s.pool.accepted|
    ensures s.pool.finished[t] == 1
  {
    Pool.DrainedMeansFinished(s.pool);
    Once(s.pool.accepted, |s.pool.accepted|, t);
  }

  /** It returns in a step of the waiting thread that finds the pool drained. */
  lemma WaitEnds(s: ServerState, a: Action)
    requires Enabled(s, a) && Staged(s) && !HasWaited(s) && HasWaited(Next(s, a))
    ensures Drained(s.pool.core) && Next(s, a).atDrain == |s.pool.accepted| && Next(s, a).pool.accepted == s.pool.accepted
    ensures s.stopped && Next(s, a).atStop == s.atStop && Next(s, a).pool.finished == s.pool.finished
  {
    hide QueueAfter, PushedBy, Pool.Next;
    if PoolStep(s, a).Some? {
      PoolFinishes(s.pool, PoolStep(s, a).value);
      PoolAccepts(s.pool, PoolStep(s, a).value);
    }
  }

  lemma WaitStaysOver(s: ServerState, a: Action)
    requires Enabled(s, a) && Staged(s) && HasWaited(s)
    ensures Next(s, a).atDrain == s.atDrain && Next(s, a).atStop == s.atStop
    ensures |s.pool.accepted| <= |Next(s, a).pool.accepted|
    ensures forall t: Task :: s.pool.finished[t] <= Next(s, a).pool.finished[t]
  {
    hide QueueAfter, PushedBy, Pool.Next;
    if PoolStep(s, a).Some? {
      PoolFinishes(s.pool, PoolStep(s, a).value);
      PoolAccepts(s.pool, PoolStep(s, a).value);
    }
  }

  lemma NextKeepsWaitedFor(s: ServerState, a: Action)
    requires Enabled(s, a) && WaitedFor(s) && Numbered(s) && Pool.Invariant(s.pool) && Staged(s) && Gated(s)
    ensures WaitedFor(Next(s, a))
  {
    hide Next, Enabled, Pool.Invariant, Numbered, HasWaited, Staged;
    if HasWaited(s) {
      WaitStaysOver(s, a);
    } else if HasWaited(Next(s, a)) {
      WaitEnds(s, a);
      forall t: Task | t < |s.pool.accepted| ensures s.pool.finished[t] >= 1 { DrainedFinished(s, t); }
    }
  }

  // ---------------------------------------------------------------- what is queued for the loop

  lemma EnqueuedAfter(s: ServerState, a: Action)
    requires Enabled(s, a)
    ensures Next(s, a).queue.Enqueued() ==
      s.queue.Enqueued() + (if PushedBy(s, a).Some? then [PushedBy(s, a).value] else [])
  {
    assert a == SwapFunctors || a == RunFunctor ==> PushedBy(s, a) == None;
    hide PoolAfter, PushedBy, MainAfter;
    QueueLaws(s.queue, if PushedBy(s, a).Some? then PushedBy(s, a).value else GoAway);
    assert s.queue.Enqueued() + [] == s.queue.Enqueued();
  }

  /** A queued response is that of a body that ran, for the request of its task. */
  ghost predicate Backed(jobs: seq<Job>, ran: seq<Ran>, t: Task, response: RpcResponse) {
    t < |jobs| && exists body :: Ran(t, body, true) in ran && ReplyOf(jobs[t].request, body) == Some(response)
  }

  ghost predicate RepliesBacked(s: ServerState) {
    forall t: Task, r: RpcResponse | Reply(t, r) in s.queue.Enqueued() :: Backed(s.jobs, s.ran, t, r)
  }

  lemma BackedGrows(jobs: seq<Job>, jobs': seq<Job>, ran: seq<Ran>, ran': seq<Ran>, t: Task, r: RpcResponse)
    requires Backed(jobs, ran, t, r) && jobs <= jobs' && ran <= ran'
    ensures Backed(jobs', ran', t, r)
  {
    var body :| Ran(t, body, true) in ran && ReplyOf(jobs[t].request, body) == Some(r);
    assert Ran(t, body, true) in ran' && jobs'[t] == jobs[t];
  }

  lemma PushedIsBacked(s: ServerState, a: Action, t: Task, r: RpcResponse)
    requires Enabled(s, a) && PushedBy(s, a) == Some(Reply(t, r))
    ensures Backed(s.jobs, Next(s, a).ran, t, r) && a.RunTask? && s.pool.workers[a.w].task == t
  {
    hide PoolAfter, QueueAfter, MainAfter, ReplyOf;
    var ran := Ran(s.pool.workers[a.w].task, a.body, a.sent);
    assert Next(s, a).ran == s.ran + [ran];
  }

  lemma NextKeepsBacked(s: ServerState, a: Action)
    requires Enabled(s, a) && RepliesBacked(s) && Numbered(s)
    ensures RepliesBacked(Next(s, a))
  {
    var s' := Next(s, a);
    NextKeepsNumbered(s, a);
    EnqueuedAfter(s, a);
    assert s.ran <= s'.ran;
    hide Next, Enabled, Backed, PushedBy, Numbered;
    forall t: Task, r: RpcResponse | Reply(t, r) in s'.queue.Enqueued() ensures Backed(s'.jobs, s'.ran, t, r) {
      if Reply(t, r) in s.queue.Enqueued() {
        BackedGrows(s.jobs, s'.jobs, s.ran, s'.ran, t, r);
      } else {
        PushedIsBacked(s, a, t, r);
        BackedGrows(s.jobs, s'.jobs, s'.ran, s'.ran, t, r);
      }
    }
  }

  /** No response of a task that WaitForTasks waited for is queued behind the functor that closes the connections. */
  ghost predicate StopComesLast(q: seq<Functor>, drained: nat) {
    forall j, i | 0 <= j < i < |q| && q[j] == StopInLoop && q[i].Reply? :: q[i].task >= drained
  }

  ghost predicate OrderedStop(s: ServerState) {
    && StopComesLast(s.queue.Enqueued(), s.atDrain)
    && (StopInLoop in s.queue.Enqueued() ==> Rank(s.main) >= 6)
  }

  lemma AppendKeepsOrder(q: seq<Functor>, f: Functor, drained: nat)
    requires StopComesLast(q, drained) && (f.Reply? && StopInLoop in q ==> f.task >= drained)
    ensures StopComesLast(q + [f], drained)
  {
    var r := q + [f];
    forall j, i | 0 <= j < i < |r| && r[j] == StopInLoop && r[i].Reply? ensures r[i].task >= drained {
      assert r[j] == q[j];
    }
  }

  lemma NoStopNoOrder(q: seq<Functor>, drained: nat)
    requires StopInLoop !in q
    ensures StopComesLast(q, drained)
  {
  }

  /** A body that is about to run belongs to a task that has not finished. */
  lemma RunningUnfinished(s: ServerState, w: nat)
    requires Numbered(s) && Pool.Invariant(s.pool) && w < |s.pool.workers| && s.pool.workers[w].Running?
    ensures var t := s.pool.workers[w].task; s.pool.finished[t] == 0 && JustRan(s.pool.workers, t) == 0
  {
    var t := s.pool.workers[w].task;
    Once(s.pool.accepted, |s.pool.accepted|, t);
    Pool.AtMostOnce(s.pool, t);
    JustRanInHand(s.pool.workers, w, t);
  }

  lemma LateReply(s: ServerState, a: Action, t: Task, r: RpcResponse)
    requires Enabled(s, a) && Numbered(s) && Pool.Invariant(s.pool) && WaitedFor(s) && Rank(s.main) >= 6
    requires PushedBy(s, a) == Some(Reply(t, r))
    ensures t >= s.atDrain
  {
    PushedIsBacked(s, a, t, r);
    RunningUnfinished(s, a.w);
  }

  lemma DrainStays(s: ServerState, a: Action)
    requires Enabled(s, a)
    ensures Next(s, a).atDrain == s.atDrain || s.main.Waiting?
    ensures Rank(Next(s, a).main) >= Rank(s.main)
    ensures a == QueueStopInLoop ==> Rank(Next(s, a).main) >= 6
    ensures PushedBy(s, a) == Some(StopInLoop) <==> a == QueueStopInLoop
  {
  }

  lemma NextKeepsOrder(s: ServerState, a: Action)
    requires Enabled(s, a) && OrderedStop(s) && Numbered(s) && Pool.Invariant(s.pool) && WaitedFor(s)
    ensures OrderedStop(Next(s, a))
  {
    EnqueuedAfter(s, a);
    DrainStays(s, a);
    hide Next, Enabled, PushedBy, StopComesLast, Pool.Invariant, WaitedFor, Numbered;
    var q, s' := s.queue.Enqueued(), Next(s, a);
    assert q + [] == q;
    if StopInLoop !in q { NoStopNoOrder(q, s'.atDrain); }
    if PushedBy(s, a).Some? {
      var f := PushedBy(s, a).value;
      if f.Reply? && StopInLoop in q { LateReply(s, a, f.task, f.response); }
      AppendKeepsOrder(q, f, s'.atDrain);
    }
  }

  // ---------------------------------------------------------------- every run

  ghost predicate Invariant(s: ServerState) {
    && Staged(s) && Numbered(s) && Pool.Invariant(s.pool) && BodiesCounted(s) && Gated(s)
    && WaitedFor(s) && RepliesBacked(s) && OrderedStop(s)
  }

  lemma NextKeepsInvariant(s: ServerState, a: Action)
    requires Enabled(s, a) && Invariant(s)
    ensures Invariant(Next(s, a))
  {
    assert s.stopped <==> s.main != Serving;
    hide Next, Enabled, Staged, Numbered, Pool.Invariant, BodiesCounted, Gated, WaitedFor, RepliesBacked, OrderedStop;
    NextKeepsStaged(s, a);
    NextKeepsNumbered(s, a);
    NextKeepsPool(s, a);
    NextKeepsCounted(s, a);
    NextKeepsGated(s, a);
    NextKeepsWaitedFor(s, a);
    NextKeepsBacked(s, a);
    NextKeepsOrder(s, a);
  }

  lemma {:induction false} NobodyRan(ws: seq<Pool.Worker>, t: Task)
    requires forall w | 0 <= w < |ws| :: !ws[w].Ran?
    ensures JustRan(ws, t) == 0
  {
    if ws != [] { NobodyRan(ws[1..], t); }
  }

  lemma InitialInvariant(threads: nat, maxQueue: nat)
    ensures Invariant(Initial(threads, maxQueue))
  {
    var s := Initial(threads, maxQueue);
    assert s.pool == Pool.Run(threads, maxQueue, []);
    Pool.RunInvariant(threads, maxQueue, []);
    forall t: Task ensures TimesRan(s.ran, t) == s.pool.finished[t] + JustRan(s.pool.workers, t) {
      NobodyRan(s.pool.workers, t);
    }
    hide Pool.Invariant;
  }

  lemma {:induction false} RunInvariant(threads: nat, maxQueue: nat, actions: seq<Action>)
    ensures Invariant(Run(threads, maxQueue, actions))
    ensures |Run(threads, maxQueue, actions).pool.workers| == threads
  {
    hide Next, Enabled, Invariant;
    if actions == [] {
      InitialInvariant(threads, maxQueue);
    } else {
      RunInvariant(threads, maxQueue, actions[..|actions| - 1]);
      var s := Run(threads, maxQueue, actions[..|actions| - 1]);
      if Enabled(s, actions[|actions| - 1]) {
        NextKeepsInvariant(s, actions[|actions| - 1]);
        WorkersStay(s, actions[|actions| - 1]);
      }
    }
  }

  lemma WorkersStay(s: ServerState, a: Action)
    requires Enabled(s, a)
    ensures |Next(s, a).pool.workers| == |s.pool.workers|
  {
    hide QueueAfter, PushedBy, MainAfter, Pool.Next;
    if PoolStep(s, a).Some? { PoolStaged(s.pool, PoolStep(s, a).value); }
  }

  // ---------------------------------------------------------------- graceful stop

  /** However many requests arrive, at most one more is accepted once Stop has set its flag. */
  lemma AtMostOneAfterStop(threads: nat, maxQueue: nat, actions: seq<Action>, s: ServerState)
    requires s == Run(threads, maxQueue, actions) && s.stopped
    ensures s.atStop <= |s.jobs| <= s.atStop + 1
  {
    RunInvariant(threads, maxQueue, actions);
  }

  /** No task's body ever runs twice, and none runs that was not accepted. */
  lemma BodyAtMostOnce(threads: nat, maxQueue: nat, actions: seq<Action>, s: ServerState, t: Task)
    requires s == Run(threads, maxQueue, actions)
    ensures TimesRan(s.ran, t) <= if t < |s.jobs| then 1 else 0
  {
    RunInvariant(threads, maxQueue, actions);
    Once(s.pool.accepted, |s.pool.accepted|, t);
    Pool.AtMostOnce(s.pool, t);
    JustRanAtMost(s.pool.workers, t);
    BooksBound(s.pool, t);
  }

  lemma BooksBound(p: Pool.PoolState, t: Task)
    requires Pool.Invariant(p)
    ensures p.finished[t] + Pool.InHand(p.workers)[t] <= multiset(p.accepted)[t]
  {
    assert multiset(p.accepted) == multiset(p.started) + multiset(p.core.tasks);
  }

  /** When Stop has returned, the body of every accepted task has run exactly once. */
  lemma EveryTaskRanOnce(threads: nat, maxQueue: nat, actions: seq<Action>, s: ServerState, t: Task)
    requires threads > 0 && s == Run(threads, maxQueue, actions) && s.main == Done && t < |s.jobs|
    ensures TimesRan(s.ran, t) == 1
  {
    RunInvariant(threads, maxQueue, actions);
    Pool.JoinedMeansFinished(s.pool);
    Once(s.pool.accepted, |s.pool.accepted|, t);
    NobodyRan(s.pool.workers, t);
  }

  /** Everything pushed on the loop's queue, in the order it was pushed. */
  function Pushes(threads: nat, maxQueue: nat, actions: seq<Action>): seq<Functor> {
    if actions == [] then [] else
      var before, a := actions[..|actions| - 1], actions[|actions| - 1];
      var s := Run(threads, maxQueue, before);
      Pushes(threads, maxQueue, before)
        + (if Enabled(s, a) && PushedBy(s, a).Some? then [PushedBy(s, a).value] else [])
  }

  lemma {:induction false} EnqueuedIsPushes(threads: nat, maxQueue: nat, actions: seq<Action>)
    ensures Run(threads, maxQueue, actions).queue.Enqueued() == Pushes(threads, maxQueue, actions)
  {
    hide Next, Enabled, PushedBy;
    if actions != [] {
      EnqueuedIsPushes(threads, maxQueue, actions[..|actions| - 1]);
      var s, a := Run(threads, maxQueue, actions[..|actions| - 1]), actions[|actions| - 1];
      if Enabled(s, a) { EnqueuedAfter(s, a); }
      assert s.queue.Enqueued() + [] == s.queue.Enqueued();
    }
  }

  /**
   * What the loop has run is a prefix of what was pushed, whatever threads pushed and however often the
   * queue was swapped: nothing is lost in between, run twice or run out of order.
   */
  lemma ExecutedIsPrefix(threads: nat, maxQueue: nat, actions: seq<Action>, s: ServerState)
    requires s == Run(threads, maxQueue, actions)
    ensures s.queue.executed <= Pushes(threads, maxQueue, actions)
  {
    hide Run;
    EnqueuedIsPushes(threads, maxQueue, actions);
    QueueLaws(s.queue, GoAway);
  }

  // ---------------------------------------------------------------- every request is taken or refused

  function Count(b: bool): nat { if b then 1 else 0 }

  predicate Refuses(s: ServerState, a: Action) {
    Enabled(s, a) && (a.Receive? || a == Submit) && Emitted(s, a).To?
  }

  function Arrivals(threads: nat, maxQueue: nat, actions: seq<Action>): nat {
    if actions == [] then 0 else
      var before, a := actions[..|actions| - 1], actions[|actions| - 1];
      Arrivals(threads, maxQueue, before) + Count(a.Receive? && Enabled(Run(threads, maxQueue, before), a))
  }

  function Refusals(threads: nat, maxQueue: nat, actions: seq<Action>): nat {
    if actions == [] then 0 else
      var before := actions[..|actions| - 1];
      Refusals(threads, maxQueue, before) + Count(Refuses(Run(threads, maxQueue, before), actions[|actions| - 1]))
  }

  lemma StepAccounts(s: ServerState, a: Action)
    requires Enabled(s, a)
    ensures var s' := Next(s, a);
      |s'.jobs| + Count(s'.loop.PastGate?) + Count(Refuses(s, a)) == |s.jobs| + Count(s.loop.PastGate?) + Count(a.Receive?)
  {
    hide QueueAfter, PushedBy, MainAfter, Ascii;
    assert a.Receive? ==> s.loop == Idle;
  }

  /** Every request that arrives becomes a task, is refused with one response, or is just between the two. */
  lemma {:induction false} RequestsAccounted(threads: nat, maxQueue: nat, actions: seq<Action>)
    ensures var s := Run(threads, maxQueue, actions);
      Arrivals(threads, maxQueue, actions) == |s.jobs| + Refusals(threads, maxQueue, actions) + Count(s.loop.PastGate?)
  {
    if actions != [] {
      hide Next, Enabled, Emitted;
      RequestsAccounted(threads, maxQueue, actions[..|actions| - 1]);
      var s, a := Run(threads, maxQueue, actions[..|actions| - 1]), actions[|actions| - 1];
      if Enabled(s, a) { StepAccounts(s, a); }
    }
  }

  /** Requests are refused exactly behind the gate or at a full or closed pool; otherwise they go on to become tasks. */
  lemma RefusedIff(s: ServerState, a: Action)
    requires Enabled(s, a) && (a.Receive? || a == Submit)
    ensures Refuses(s, a) <==> if a.Receive? then s.stopped else s.pool.core.closed || |s.pool.core.tasks| >= s.pool.maxQueue
    ensures !Refuses(s, a) ==>
      if a.Receive? then Next(s, a).loop == PastGate(a.job)
      else Next(s, a).jobs == s.jobs + [s.loop.job] && Next(s, a).pool.core.tasks == s.pool.core.tasks + [|s.jobs|]
  {
    hide QueueAfter, PushedBy, MainAfter, Ascii;
  }

  /** A refusal goes to the connection the request came on, with its id and the reason, and changes no task. */
  lemma RefusalAnswersItsRequest(s: ServerState, a: Action)
    requires Refuses(s, a)
    ensures var job := if a.Receive? then a.job else s.loop.job;
      && Emitted(s, a).conn == job.conn && Emitted(s, a).response.requestId == job.request.requestId
      && Emitted(s, a).response.code == (if s.stopped && a.Receive? then SERVER_SHUTTING_DOWN else SERVER_BUSY)
      && Next(s, a).jobs == s.jobs && Next(s, a).pool == s.pool && Next(s, a).loop == Idle
    ensures a == Submit ==> s.pool.core.closed || |s.pool.core.tasks| >= s.pool.maxQueue
  {
    hide QueueAfter, PushedBy, MainAfter, Ascii;
  }
}
