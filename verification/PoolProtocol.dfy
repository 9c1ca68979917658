/**
 * The thread pool as an interleaving of its threads, with both wait sets explicit:
 * no wakeup is lost, no task is lost or run twice, and the pool never gets stuck.
 */
module PoolProtocol {
  import opened ThreadPools

  type Task = nat

  /** `Ready` and `Woken` workers are on their way to the mutex; `Ran` is between the task and the mutex. */
  datatype Worker = Ready | Asleep | Woken | Running(task: Task) | Ran(task: Task) | Exited

  datatype Waiter = Calling | Waiting | Notified | Returned

  /**
   * `notifies`: submitters that have pushed and not yet called `notify_one`. `broadcast`: the
   * destructor's `notify_all` has happened. The last three fields are history.
   */
  datatype PoolState = PoolState(
    core: Core<Task>,
    maxQueue: nat,
    workers: seq<Worker>,
    waiters: seq<Waiter>,
    notifies: nat,
    broadcast: bool,
    accepted: seq<Task>,
    started: seq<Task>,
    finished: multiset<Task>)

  datatype Action =
    | Submit(task: Task)
    | NotifyOne(w: nat)        // wakes w, or nobody if nobody sleeps
    | Acquire(w: nat)
    | RunBody(w: nat)
    | Complete(w: nat)
    | SpuriousWakeup(w: nat)
    | CloseFlag
    | Broadcast
    | Arrive                   // somebody calls WaitForTasks
    | Check(i: nat)
    | SpuriousNotify(i: nat)

  predicate Sleeps(ws: seq<Worker>) { exists w :: 0 <= w < |ws| && ws[w] == Asleep }

  predicate Enabled(s: PoolState, a: Action) {
    match a
    case Submit(_) => true
    case NotifyOne(w) =>
      s.notifies > 0 && (if Sleeps(s.workers) then w < |s.workers| && s.workers[w] == Asleep else true)
    case Acquire(w) => w < |s.workers| && (s.workers[w] == Ready || s.workers[w] == Woken)
    case RunBody(w) => w < |s.workers| && s.workers[w].Running?
    case Complete(w) => w < |s.workers| && s.workers[w].Ran? && s.core.active > 0
    case SpuriousWakeup(w) => w < |s.workers| && s.workers[w] == Asleep
    case CloseFlag => true
    case Broadcast => s.core.closed
    case Arrive => true
    case Check(i) => i < |s.waiters| && (s.waiters[i] == Calling || s.waiters[i] == Notified)
    case SpuriousNotify(i) => i < |s.waiters| && s.waiters[i] == Waiting
  }

  function Roused(ws: seq<Worker>): seq<Worker> {
    seq(|ws|, w requires 0 <= w < |ws| => if ws[w] == Asleep then Woken else ws[w])
  }

  function AllNotified(ws: seq<Waiter>): seq<Waiter> {
    seq(|ws|, i requires 0 <= i < |ws| => if ws[i] == Waiting then Notified else ws[i])
  }

  function Next(s: PoolState, a: Action): PoolState
    requires Enabled(s, a)
  {
    match a
    case Submit(task) =>
      var (core, r) := Submitted(s.core, task, s.maxQueue);
      if r == Accepted then s.(core := core, notifies := s.notifies + 1, accepted := s.accepted + [task]) else s
    case NotifyOne(w) =>
      s.(notifies := s.notifies - 1, workers := if Sleeps(s.workers) then s.workers[w := Woken] else s.workers)
    case Acquire(w) =>
      var (core, d) := Acquired(s.core);
      (match d
       case Sleep => s.(workers := s.workers[w := Asleep])
       case Leave => s.(workers := s.workers[w := Exited])
       case Take(task) => s.(core := core, workers := s.workers[w := Running(task)], started := s.started + [task]))
    case RunBody(w) => s.(workers := s.workers[w := Ran(s.workers[w].task)])
    case Complete(w) =>
      var (core, notify) := Completed(s.core);
      s.(core := core, workers := s.workers[w := Ready], finished := s.finished + multiset{s.workers[w].task},
         waiters := if notify then AllNotified(s.waiters) else s.waiters)
    case SpuriousWakeup(w) => s.(workers := s.workers[w := Woken])
    case CloseFlag => s.(core := s.core.(closed := true))
    case Broadcast => s.(workers := Roused(s.workers), broadcast := true)
    case Arrive => s.(waiters := s.waiters + [Calling])
    case Check(i) => s.(waiters := s.waiters[i := if Drained(s.core) then Returned else Waiting])
    case SpuriousNotify(i) => s.(waiters := s.waiters[i := Notified])
  }

  function Initial(threads: nat, maxQueue: nat): PoolState {
    PoolState(Core([], 0, false), maxQueue, seq(threads, _ => Ready), [], 0, false, [], [], multiset{})
  }

  function Run(threads: nat, maxQueue: nat, actions: seq<Action>): PoolState {
    if actions == [] then Initial(threads, maxQueue) else
      var s := Run(threads, maxQueue, actions[..|actions| - 1]);
      var a := actions[|actions| - 1];
      if Enabled(s, a) then Next(s, a) else s
  }

  // ---------------------------------------------------------------- counting workers

  /** Workers that will look at the queue without being notified. */
  function AwakeIdle(ws: seq<Worker>): nat {
    if ws == [] then 0 else (if ws[0] == Ready || ws[0] == Woken then 1 else 0) + AwakeIdle(ws[1..])
  }

  /** The tasks between being popped and being counted as done. */
  function InHand(ws: seq<Worker>): multiset<Task> {
    if ws == [] then multiset{} else HandOne(ws[0]) + InHand(ws[1..])
  }

  function IdleOne(w: Worker): nat { if w == Ready || w == Woken then 1 else 0 }

  function HandOne(w: Worker): multiset<Task> { if w.Running? || w.Ran? then multiset{w.task} else multiset{} }

  lemma {:induction false} AwakeIdleUpdate(ws: seq<Worker>, w: nat, x: Worker)
    requires w < |ws|
    ensures AwakeIdle(ws[w := x]) == AwakeIdle(ws) - IdleOne(ws[w]) + IdleOne(x)
  {
    if w == 0 {
      assert ws[0 := x][1..] == ws[1..];
    } else {
      AwakeIdleUpdate(ws[1..], w - 1, x);
      assert ws[w := x][1..] == ws[1..][w - 1 := x];
    }
  }

  /** Workers with a task in hand. */
  function Busy(ws: seq<Worker>): nat {
    if ws == [] then 0 else BusyOne(ws[0]) + Busy(ws[1..])
  }

  function BusyOne(w: Worker): nat { if w.Running? || w.Ran? then 1 else 0 }

  lemma {:induction false} BusyUpdate(ws: seq<Worker>, w: nat, x: Worker)
    requires w < |ws|
    ensures Busy(ws[w := x]) == Busy(ws) - BusyOne(ws[w]) + BusyOne(x)
  {
    if w == 0 {
      assert ws[0 := x][1..] == ws[1..];
    } else {
      BusyUpdate(ws[1..], w - 1, x);
      assert ws[w := x][1..] == ws[1..][w - 1 := x];
    }
  }

  lemma {:induction false} InHandUpdate(ws: seq<Worker>, w: nat, x: Worker, t: Task)
    requires w < |ws|
    ensures InHand(ws[w := x])[t] + HandOne(ws[w])[t] == InHand(ws)[t] + HandOne(x)[t]
  {
    hide HandOne;
    if w == 0 {
      assert ws[0 := x][1..] == ws[1..];
    } else {
      InHandUpdate(ws[1..], w - 1, x, t);
      assert ws[w := x][1..] == ws[1..][w - 1 := x];
    }
  }

  lemma RousedHead(ws: seq<Worker>)
    requires ws != []
    ensures Roused(ws) != [] && Roused(ws)[1..] == Roused(ws[1..])
    ensures HandOne(Roused(ws)[0]) == HandOne(ws[0]) && BusyOne(Roused(ws)[0]) == BusyOne(ws[0])
  {
  }

  lemma {:induction false} RousedInHand(ws: seq<Worker>)
    ensures InHand(Roused(ws)) == InHand(ws)
  {
    hide HandOne, Roused;
    if ws == [] {
      RousedEmpty();
    } else {
      RousedInHand(ws[1..]);
      RousedHead(ws);
    }
  }

  lemma {:induction false} RousedBusy(ws: seq<Worker>)
    ensures Busy(Roused(ws)) == Busy(ws)
  {
    hide BusyOne, Roused;
    if ws == [] {
      RousedEmpty();
    } else {
      RousedBusy(ws[1..]);
      RousedHead(ws);
    }
  }

  lemma RousedEmpty()
    ensures Roused([]) == []
  {
  }

  lemma {:induction false} BusyMember(ws: seq<Worker>)
    ensures Busy(ws) > 0 <==> exists w :: 0 <= w < |ws| && BusyOne(ws[w]) == 1
  {
    if ws != [] {
      BusyMember(ws[1..]);
      if w :| 0 <= w < |ws[1..]| && BusyOne(ws[1..][w]) == 1 {
        assert ws[w + 1] == ws[1..][w];
      }
      if w :| 0 <= w < |ws| && BusyOne(ws[w]) == 1 {
        assert w > 0 ==> ws[1..][w - 1] == ws[w];
      }
    }
  }

  lemma {:induction false} AwakeIdleMember(ws: seq<Worker>)
    ensures AwakeIdle(ws) > 0 <==> exists w :: 0 <= w < |ws| && IdleOne(ws[w]) == 1
  {
    if ws != [] {
      AwakeIdleMember(ws[1..]);
      if w :| 0 <= w < |ws[1..]| && IdleOne(ws[1..][w]) == 1 {
        assert ws[w + 1] == ws[1..][w];
      }
      if w :| 0 <= w < |ws| && IdleOne(ws[w]) == 1 {
        assert w > 0 ==> ws[1..][w - 1] == ws[w];
      }
    }
  }

  // ---------------------------------------------------------------- the invariant

  /** While a worker sleeps, every queued task has a notification on its way or a worker that will look. */
  predicate NoLostWakeup(s: PoolState) {
    Sleeps(s.workers) ==> |s.core.tasks| <= s.notifies + AwakeIdle(s.workers)
  }

  /** Nobody stays in `WaitForTasks`, unnotified, once there is nothing left to wait for. */
  predicate NoLostWaiter(s: PoolState) {
    Drained(s.core) ==> forall i | 0 <= i < |s.waiters| :: s.waiters[i] != Waiting
  }

  /** Accepted tasks are queued, in hand or finished, in acceptance order up to the start. */
  ghost predicate Books(tasks: seq<Task>, active: nat, maxQueue: nat, hands: multiset<Task>, busy: nat,
                        accepted: seq<Task>, started: seq<Task>, finished: multiset<Task>)
  {
    && accepted == started + tasks
    && (forall t: Task :: multiset(started)[t] == finished[t] + hands[t])
    && active == busy
    && |tasks| <= maxQueue
  }

  ghost predicate Conserved(s: PoolState) {
    Books(s.core.tasks, s.core.active, s.maxQueue, InHand(s.workers), Busy(s.workers), s.accepted, s.started, s.finished)
  }

  predicate Closing(s: PoolState) {
    && (s.broadcast ==> s.core.closed && !Sleeps(s.workers))
    && (forall w | 0 <= w < |s.workers| :: s.workers[w] == Exited ==> s.core.closed && s.core.tasks == [])
  }

  ghost predicate Invariant(s: PoolState) {
    NoLostWakeup(s) && NoLostWaiter(s) && Conserved(s) && Closing(s)
  }

  lemma NextKeepsWakeup(s: PoolState, a: Action)
    requires Enabled(s, a) && NoLostWakeup(s)
    ensures NoLostWakeup(Next(s, a))
  {
    var s' := Next(s, a);
    if s'.workers != s.workers && |s'.workers| == |s.workers| && !a.Broadcast? {
      var w := a.w;
      AwakeIdleUpdate(s.workers, w, s'.workers[w]);
    }
  }

  lemma NextKeepsWaiter(s: PoolState, a: Action)
    requires Enabled(s, a) && NoLostWaiter(s)
    ensures NoLostWaiter(Next(s, a))
  {
  }

  /** A worker changing state without taking or finishing a task. */
  lemma SameHands(s: PoolState, w: nat, x: Worker, notifies: nat)
    requires Conserved(s) && w < |s.workers|
    requires HandOne(s.workers[w]) == HandOne(x) && BusyOne(s.workers[w]) == BusyOne(x)
    ensures Conserved(s.(workers := s.workers[w := x], notifies := notifies))
  {
    hide HandOne, InHand, Busy, BusyOne;
    BusyUpdate(s.workers, w, x);
    forall t: Task ensures InHand(s.workers[w := x])[t] == InHand(s.workers)[t] {
      InHandUpdate(s.workers, w, x, t);
    }
  }

  lemma SplitQueue(started: seq<Task>, tasks: seq<Task>)
    requires tasks != []
    ensures started + tasks == started + [tasks[0]] + tasks[1..]
    ensures forall t: Task :: multiset(started + [tasks[0]])[t] == multiset(started)[t] + (if t == tasks[0] then 1 else 0)
  {
    assert tasks == [tasks[0]] + tasks[1..];
  }

  lemma TakeStep(s: PoolState, w: nat)
    requires Enabled(s, Acquire(w)) && s.core.tasks != []
    ensures w < |s.workers|
    ensures var task, s' := s.core.tasks[0], Next(s, Acquire(w));
      && s'.workers == s.workers[w := Running(task)] && s'.started == s.started + [task]
      && s'.core.tasks == s.core.tasks[1..] && s'.core.active == s.core.active + 1
      && s'.maxQueue == s.maxQueue && s'.accepted == s.accepted && s'.finished == s.finished
      && HandOne(s.workers[w]) == multiset{} && HandOne(Running(task)) == multiset{task}
      && BusyOne(s.workers[w]) == 0 && BusyOne(Running(task)) == 1
  {
  }

  lemma TakeKeepsConserved(s: PoolState, w: nat)
    requires Enabled(s, Acquire(w)) && Conserved(s) && s.core.tasks != []
    ensures Conserved(Next(s, Acquire(w)))
  {
    TakeStep(s, w);
    hide Next, Enabled, InHand, Busy, HandOne, BusyOne;
    var task, s' := s.core.tasks[0], Next(s, Acquire(w));
    BusyUpdate(s.workers, w, Running(task));
    SplitQueue(s.started, s.core.tasks);
    forall t: Task ensures multiset(s'.started)[t] == s'.finished[t] + InHand(s'.workers)[t] {
      InHandUpdate(s.workers, w, Running(task), t);
    }
  }

  lemma CompleteKeepsConserved(s: PoolState, w: nat)
    requires Enabled(s, Complete(w)) && Conserved(s)
    ensures Conserved(Next(s, Complete(w)))
  {
    hide InHand, Busy;
    var s' := Next(s, Complete(w));
    BusyUpdate(s.workers, w, Ready);
    forall t: Task ensures multiset(s'.started)[t] == s'.finished[t] + InHand(s'.workers)[t] {
      InHandUpdate(s.workers, w, Ready, t);
    }
  }

  lemma SubmitKeepsConserved(s: PoolState, task: Task)
    requires Conserved(s)
    ensures Conserved(Next(s, Submit(task)))
  {
    assert s.started + (s.core.tasks + [task]) == s.started + s.core.tasks + [task];
  }

  predicate Moves(s: PoolState, a: Action) { a.RunBody? || a.SpuriousWakeup? || (a.Acquire? && s.core.tasks == []) }

  lemma MoveChangesWorker(s: PoolState, a: Action)
    requires Enabled(s, a) && Moves(s, a)
    ensures a.w < |s.workers| && a.w < |Next(s, a).workers|
    ensures var x := Next(s, a).workers[a.w];
      && Next(s, a) == s.(workers := s.workers[a.w := x], notifies := s.notifies)
      && HandOne(s.workers[a.w]) == HandOne(x) && BusyOne(s.workers[a.w]) == BusyOne(x)
  {
  }

  lemma MoveKeepsConserved(s: PoolState, a: Action)
    requires Enabled(s, a) && Conserved(s) && Moves(s, a)
    ensures Conserved(Next(s, a))
  {
    MoveChangesWorker(s, a);
    hide Next, Enabled, Moves, Books, InHand, Busy, HandOne, BusyOne;
    SameHands(s, a.w, Next(s, a).workers[a.w], s.notifies);
  }

  lemma NotifyKeepsConserved(s: PoolState, w: nat)
    requires Enabled(s, NotifyOne(w)) && Conserved(s)
    ensures Conserved(Next(s, NotifyOne(w)))
  {
    hide Books, InHand, Busy;
    if Sleeps(s.workers) {
      SameHands(s, w, Woken, s.notifies - 1);
    }
  }

  lemma QuietKeepsConserved(s: PoolState, a: Action)
    requires Enabled(s, a) && Conserved(s)
    requires a.CloseFlag? || a.Arrive? || a.Check? || a.SpuriousNotify? || a.Broadcast?
    ensures Conserved(Next(s, a))
  {
    hide Books, InHand, Busy;
    RousedInHand(s.workers);
    RousedBusy(s.workers);
  }

  lemma NextKeepsConserved(s: PoolState, a: Action)
    requires Enabled(s, a) && Conserved(s)
    ensures Conserved(Next(s, a))
  {
    assert a.RunBody? || a.SpuriousWakeup? || (a.Acquire? && s.core.tasks == []) ==> Moves(s, a);
    hide *;
    match a {
      case Submit(task) => SubmitKeepsConserved(s, task);
      case Acquire(w) =>
        if s.core.tasks == [] { MoveKeepsConserved(s, a); } else { TakeKeepsConserved(s, w); }
      case Complete(w) => CompleteKeepsConserved(s, w);
      case NotifyOne(w) => NotifyKeepsConserved(s, w);
      case RunBody(w) => MoveKeepsConserved(s, a);
      case SpuriousWakeup(w) => MoveKeepsConserved(s, a);
      case _ => QuietKeepsConserved(s, a);
    }
  }

  lemma NextKeepsClosing(s: PoolState, a: Action)
    requires Enabled(s, a) && Closing(s)
    ensures Closing(Next(s, a))
  {
  }

  lemma NextKeepsInvariant(s: PoolState, a: Action)
    requires Enabled(s, a) && Invariant(s)
    ensures Invariant(Next(s, a))
  {
    NextKeepsWakeup(s, a);
    NextKeepsWaiter(s, a);
    NextKeepsConserved(s, a);
    NextKeepsClosing(s, a);
  }

  lemma {:induction false} NobodyInHand(ws: seq<Worker>)
    requires forall w | 0 <= w < |ws| :: BusyOne(ws[w]) == 0
    ensures InHand(ws) == multiset{} && Busy(ws) == 0
  {
    if ws != [] {
      NobodyInHand(ws[1..]);
    }
  }

  /** Every interleaving of any number of threads keeps the invariant. */
  lemma {:induction false} RunInvariant(threads: nat, maxQueue: nat, actions: seq<Action>)
    ensures Invariant(Run(threads, maxQueue, actions))
  {
    if actions == [] {
      NobodyInHand(Initial(threads, maxQueue).workers);
    } else {
      RunInvariant(threads, maxQueue, actions[..|actions| - 1]);
      var s := Run(threads, maxQueue, actions[..|actions| - 1]);
      if Enabled(s, actions[|actions| - 1]) {
        NextKeepsInvariant(s, actions[|actions| - 1]);
      }
    }
  }

  // ---------------------------------------------------------------- what follows

  predicate CanMove(s: PoolState, w: nat) {
    Enabled(s, Acquire(w)) || Enabled(s, RunBody(w)) || Enabled(s, Complete(w))
  }

  /** Some thread moves by itself; spurious wakeups do not count as progress. */
  predicate Live(s: PoolState) {
    s.notifies > 0 || exists w: nat :: w < |s.workers| && CanMove(s, w)
  }

  lemma BusyCanMove(s: PoolState, w: nat)
    requires Invariant(s) && w < |s.workers| && s.workers[w] != Asleep && s.workers[w] != Exited
    ensures CanMove(s, w)
  {
    HandMeansActive(s.workers, w);
  }

  lemma QueuedMeansLive(s: PoolState)
    requires Invariant(s) && |s.workers| > 0 && s.core.tasks != []
    ensures Live(s)
  {
    if s.workers[0] == Asleep {
      assert Sleeps(s.workers);
      AwakeIdleMember(s.workers);
      if s.notifies == 0 {
        var w :| 0 <= w < |s.workers| && IdleOne(s.workers[w]) == 1;
        assert CanMove(s, w);
      }
    } else {
      BusyCanMove(s, 0);
    }
  }

  lemma ActiveMeansLive(s: PoolState)
    requires Invariant(s) && s.core.active > 0
    ensures Live(s)
  {
    BusyMember(s.workers);
    var w :| 0 <= w < |s.workers| && BusyOne(s.workers[w]) == 1;
    BusyCanMove(s, w);
  }

  /**
   * The pool is never stuck: with a task queued or running, with somebody in `WaitForTasks`, or
   * while it is torn down and a worker is still there, some thread moves without a spurious wakeup.
   */
  lemma NeverStuck(s: PoolState)
    requires Invariant(s) && |s.workers| > 0
    ensures s.core.tasks != [] || s.core.active > 0 ==> Live(s)
    ensures (exists i :: 0 <= i < |s.waiters| && s.waiters[i] == Waiting) ==> Live(s)
    ensures s.broadcast && (exists w :: 0 <= w < |s.workers| && s.workers[w] != Exited) ==> Live(s)
  {
    if s.core.tasks != [] {
      QueuedMeansLive(s);
    }
    if s.core.active > 0 {
      ActiveMeansLive(s);
    }
    if s.broadcast {
      if w :| 0 <= w < |s.workers| && s.workers[w] != Exited {
        BusyCanMove(s, w);
      }
    }
  }

  lemma HandMeansActive(ws: seq<Worker>, w: nat)
    requires w < |ws|
    ensures ws[w].Running? || ws[w].Ran? ==> Busy(ws) > 0
  {
    BusyMember(ws);
  }

  /** When `WaitForTasks` may return, everything accepted so far has finished. */
  lemma DrainedMeansFinished(s: PoolState)
    requires Invariant(s) && Drained(s.core)
    ensures s.finished == multiset(s.accepted)
  {
    assert s.started + [] == s.started;
    BusyMember(s.workers);
    NobodyInHand(s.workers);
  }

  /** When the destructor has joined every worker, everything ever accepted has finished. */
  lemma JoinedMeansFinished(s: PoolState)
    requires Invariant(s) && |s.workers| > 0 && forall w | 0 <= w < |s.workers| :: s.workers[w] == Exited
    ensures s.core.tasks == [] && s.finished == multiset(s.accepted)
  {
    assert s.workers[0] == Exited;
    NobodyInHand(s.workers);
    DrainedMeansFinished(s);
  }

  /** No task runs twice: with distinct tasks submitted, each is finished or in hand at most once. */
  lemma AtMostOnce(s: PoolState, task: Task)
    requires Invariant(s) && multiset(s.accepted)[task] <= 1
    ensures s.finished[task] + InHand(s.workers)[task] <= 1
    ensures task in s.core.tasks ==> s.finished[task] == 0 && InHand(s.workers)[task] == 0
  {
    assert multiset(s.accepted) == multiset(s.started) + multiset(s.core.tasks);
  }
}
