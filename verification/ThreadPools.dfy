/**
 * The worker pool (code/base/pool/threadpool.h): a bounded task queue, N workers
 * sleeping on one condition variable and `WaitForTasks` callers on another.
 *
 * Every region the pool's mutex guards is one transition of `Core`; the class
 * `Pool` implements the transitions, and the state machine interleaves them with
 * sleeping, notification and spurious wakeups, thread by thread.
 */
module ThreadPools {
  /** What the mutex protects. */
  datatype Core<T> = Core(tasks: seq<T>, active: nat, closed: bool)

  datatype SubmitResult = Accepted | PoolClosed | QueueFull

  /** The critical section of `AddTask` and `TryAddTask`. */
  function Submitted<T>(c: Core<T>, task: T, maxQueue: nat): (Core<T>, SubmitResult) {
    if c.closed then (c, PoolClosed)
    else if |c.tasks| >= maxQueue then (c, QueueFull)
    else (c.(tasks := c.tasks + [task]), Accepted)
  }

  datatype Decision<T> = Sleep | Leave | Take(task: T)

  /** A worker holding the mutex: sleep, leave for good, or take the oldest task. */
  function Acquired<T>(c: Core<T>): (Core<T>, Decision<T>) {
    if !c.closed && c.tasks == [] then (c, Sleep)
    else if c.tasks == [] then (c, Leave)
    else (c.(tasks := c.tasks[1..], active := c.active + 1), Take(c.tasks[0]))
  }

  /** After a task: one active worker less; the second component says whether waiters are notified. */
  function Completed<T>(c: Core<T>): (Core<T>, bool)
    requires c.active > 0
  {
    var c' := c.(active := c.active - 1);
    (c', c'.active == 0 && c'.tasks == [])
  }

  predicate Drained<T>(c: Core<T>) { c.tasks == [] && c.active == 0 }

  class Pool<T> {
    var tasks: seq<T>
    var activeTasks: nat
    var isClosed: bool
    const maxQueueSize: nat

    ghost function State(): Core<T>
      reads this
    {
      Core(tasks, activeTasks, isClosed)
    }

    constructor (maxQueueSize: nat)
      ensures State() == Core([], 0, false) && this.maxQueueSize == maxQueueSize
    {
      tasks, activeTasks, isClosed := [], 0, false;
      this.maxQueueSize := maxQueueSize;
    }

    /** `AddTask`: the two failures are the two exceptions it throws. */
    method AddTask(task: T) returns (r: SubmitResult)
      modifies this`tasks
      ensures (State(), r) == Submitted(old(State()), task, maxQueueSize)
    {
      if isClosed {
        return PoolClosed;
      }
      if |tasks| >= maxQueueSize {
        return QueueFull;
      }
      tasks := tasks + [task];
      return Accepted;
    }

    method TryAddTask(task: T) returns (ok: bool)
      modifies this`tasks
      ensures var (after, r) := Submitted(old(State()), task, maxQueueSize);
        State() == after && ok == r.Accepted?
    {
      var r := AddTask(task);
      ok := r.Accepted?;
    }

    method WorkerAcquire() returns (d: Decision<T>)
      modifies this`tasks, this`activeTasks
      ensures (State(), d) == Acquired(old(State()))
    {
      if !(isClosed || tasks != []) {
        return Sleep;
      }
      if isClosed && tasks == [] {
        return Leave;
      }
      var task := tasks[0];
      tasks := tasks[1..];
      activeTasks := activeTasks + 1;
      return Take(task);
    }

    method WorkerComplete() returns (notifyEmpty: bool)
      requires activeTasks > 0
      modifies this`activeTasks
      ensures (State(), notifyEmpty) == Completed(old(State()))
    {
      activeTasks := activeTasks - 1;
      notifyEmpty := activeTasks == 0 && tasks == [];
    }

    method WaitCheck() returns (done: bool)
      ensures done == Drained(State())
    {
      done := tasks == [] && activeTasks == 0;
    }

    method Close()
      modifies this`isClosed
      ensures State() == old(State()).(closed := true)
    {
      isClosed := true;
    }
  }
}
