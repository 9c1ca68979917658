/**
 * The cross-thread hand-off of the event loop (code/network/core/event_loop.cc):
 * other threads push functors, the loop swaps the whole queue out and runs it in order.
 */
module EventLoops {
  /** `pending`: pushed, not yet swapped out. `batch`: swapped out, not yet run. `executed`: run, in order. */
  datatype LoopQueue<F> = LoopQueue(pending: seq<F>, batch: seq<F>, executed: seq<F>)
  {
    /** Everything ever pushed, in order. */
    function Enqueued(): seq<F> { executed + batch + pending }

    /** Pushed and not yet run, in order. */
    function Waiting(): seq<F> { batch + pending }
  }

  function EmptyQueue<F>(): LoopQueue<F> { LoopQueue([], [], []) }

  function Pushed<F>(q: LoopQueue<F>, f: F): LoopQueue<F> { q.(pending := q.pending + [f]) }

  function Swapped<F>(q: LoopQueue<F>): LoopQueue<F>
    requires q.batch == []
  {
    LoopQueue([], q.pending, q.executed)
  }

  function RanFront<F>(q: LoopQueue<F>): LoopQueue<F>
    requires q.batch != []
  {
    LoopQueue(q.pending, q.batch[1..], q.executed + [q.batch[0]])
  }

  /** Pushing appends; swapping and running move functors along without losing, repeating or reordering any. */
  lemma QueueLaws<F>(q: LoopQueue<F>, f: F)
    ensures Pushed(q, f).Enqueued() == q.Enqueued() + [f] && Pushed(q, f).Waiting() == q.Waiting() + [f]
    ensures q.batch == [] ==> Swapped(q).Enqueued() == q.Enqueued() && Swapped(q).Waiting() == q.Waiting()
    ensures q.batch != [] ==> RanFront(q).Enqueued() == q.Enqueued() && q.Waiting() == [q.batch[0]] + RanFront(q).Waiting()
    ensures q.executed <= q.Enqueued() && q.Enqueued() == q.executed + q.Waiting()
  {
    assert q.batch + (q.pending + [f]) == q.batch + q.pending + [f];
    assert q.executed + q.batch + (q.pending + [f]) == q.executed + q.batch + q.pending + [f];
    assert q.executed + (q.batch + q.pending) == q.executed + q.batch + q.pending;
    if q.batch == [] {
      assert q.executed + [] + q.pending == q.executed + q.pending + [];
    } else {
      assert q.batch == [q.batch[0]] + q.batch[1..];
      assert q.executed + [q.batch[0]] + q.batch[1..] == q.executed + q.batch;
      assert q.batch + q.pending == [q.batch[0]] + (q.batch[1..] + q.pending);
    }
  }

  function PushedDuring<F>(pushes: F -> seq<F>, ran: seq<F>): seq<F> {
    if ran == [] then [] else PushedDuring(pushes, ran[..|ran| - 1]) + pushes(ran[|ran| - 1])
  }

  class EventLoop<F> {
    var pendingFunctors: seq<F>
    ghost var executed: seq<F>

    ghost function Queue(): LoopQueue<F>
      reads this
    {
      LoopQueue(pendingFunctors, [], executed)
    }

    constructor ()
      ensures Queue() == EmptyQueue<F>()
    {
      pendingFunctors := [];
      executed := [];
    }

    method QueueInLoop(f: F)
      modifies this
      ensures Queue() == Pushed(old(Queue()), f)
    {
      pendingFunctors := pendingFunctors + [f];
    }

    /**
     * Runs what was queued at the swap, in order, and returns it. `pushes(f)` is what is pushed while `f` runs,
     * by `f` itself or by other threads: it waits for the next swap.
     */
    method HandlePendingFunctors(pushes: F -> seq<F>) returns (ran: seq<F>)
      modifies this
      ensures ran == old(pendingFunctors)
      ensures Queue() == LoopQueue(PushedDuring(pushes, ran), [], old(executed) + ran)
      ensures Queue().Enqueued() == old(Queue().Enqueued()) + PushedDuring(pushes, ran)
    {
      var functors := pendingFunctors;
      pendingFunctors := [];
      ran := [];
      while functors != []
        invariant pendingFunctors == PushedDuring(pushes, ran) && executed == old(executed) + ran
        invariant ran + functors == old(pendingFunctors)
        decreases |functors|
      {
        assert functors == [functors[0]] + functors[1..];
        assert (ran + [functors[0]])[..|ran|] == ran;
        executed := executed + [functors[0]];
        ran := ran + [functors[0]];
        pendingFunctors := pendingFunctors + pushes(functors[0]);
        functors := functors[1..];
      }
    }
  }
}
