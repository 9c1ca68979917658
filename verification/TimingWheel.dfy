/**
 * The timing wheel (code/base/timer): 1024 slots of timer nodes, a round
 * counter per node, lazy deletion, and an index from timer id to node.
 *
 * A list iterator is modelled by the node's `handle`, a number no other node
 * ever gets; "the iterator is valid" is "a node with that handle is in that
 * slot". Times are nanoseconds, as the clock counts; delays are milliseconds.
 */
module TimingWheel {
  import opened Basics

  const WHEEL_SIZE: nat := 1024
  const NS_PER_MS: nat := 1_000_000

  datatype TimerNode = TimerNode(handle: nat, id: int, expire: int, isDeleted: bool, rounds: nat)

  datatype Entry = Entry(slot: nat, handle: nat)

  /** `clock(t, h)`: what the clock says when slot step `t` of a tick examines node `h`. */
  type Clock = (nat, nat) -> int

  datatype Wheel = Wheel(
    slots: seq<seq<TimerNode>>,
    index: map<int, Entry>,
    current: nat,
    tickMs: int,
    lastTick: int,
    nextHandle: nat)
  {
    predicate Shape() {
      && |slots| == WHEEL_SIZE
      && current < WHEEL_SIZE
      && 0 < tickMs
      && forall id | id in index :: index[id].slot < WHEEL_SIZE
    }

    ghost predicate Holds(slot: nat, n: TimerNode) {
      slot < |slots| && n in slots[slot]
    }

    ghost predicate Present(h: nat) {
      exists s: nat, n: TimerNode :: Holds(s, n) && n.handle == h
    }
  }

  // ---------------------------------------------------------------- transitions

  function Empty(tickMs: int, now: int): Wheel
    requires 0 < tickMs
  {
    Wheel(seq(WHEEL_SIZE, _ => []), map[], 0, tickMs, now, 0)
  }

  function TotalSlots(w: Wheel, delayMs: nat): nat
    requires w.Shape()
  {
    delayMs / w.tickMs
  }

  function TargetSlot(w: Wheel, delayMs: nat): (s: nat)
    requires w.Shape()
    ensures s < WHEEL_SIZE
  {
    (w.current + TotalSlots(w, delayMs)) % WHEEL_SIZE
  }

  function NewNode(w: Wheel, id: int, delayMs: nat, now: int): TimerNode
    requires w.Shape()
  {
    TimerNode(w.nextHandle, id, now + delayMs * NS_PER_MS, false, TotalSlots(w, delayMs) / WHEEL_SIZE)
  }

  function AfterAdd(w: Wheel, id: int, delayMs: int, now: int): (r: Wheel)
    requires w.Shape()
    ensures r.Shape() && r.tickMs == w.tickMs && r.lastTick == w.lastTick && r.current == w.current
  {
    if delayMs < 0 || id in w.index then w else
      var slot, node := TargetSlot(w, delayMs), NewNode(w, id, delayMs, now);
      w.(slots := w.slots[slot := w.slots[slot] + [node]],
         index := w.index[id := Entry(slot, w.nextHandle)],
         nextHandle := w.nextHandle + 1)
  }

  function MarkDeleted(list: seq<TimerNode>, handle: nat): seq<TimerNode> {
    seq(|list|, i requires 0 <= i < |list| =>
      if list[i].handle == handle then list[i].(isDeleted := true) else list[i])
  }

  function AfterRemove(w: Wheel, id: int): (r: Wheel)
    requires w.Shape()
    ensures r.Shape() && r.tickMs == w.tickMs && r.lastTick == w.lastTick && r.current == w.current
  {
    if id !in w.index then w else
      var e := w.index[id];
      w.(slots := w.slots[e.slot := MarkDeleted(w.slots[e.slot], e.handle)], index := w.index - {id})
  }

  predicate Due(n: TimerNode, clock: Clock, t: nat) {
    n.rounds == 0 || clock(t, n.handle) >= n.expire
  }

  predicate Leaves(n: TimerNode, clock: Clock, t: nat) {
    n.isDeleted || Due(n, clock, t)
  }

  /** What stays in a visited slot, each survivor one round nearer. */
  function Kept(list: seq<TimerNode>, clock: Clock, t: nat): seq<TimerNode> {
    if list == [] then []
    else if Leaves(list[0], clock, t) then Kept(list[1..], clock, t)
    else [list[0].(rounds := list[0].rounds - 1)] + Kept(list[1..], clock, t)
  }

  /** The nodes of a visited slot whose callback runs, in list order. */
  function Fired(list: seq<TimerNode>, clock: Clock, t: nat): seq<TimerNode> {
    if list == [] then []
    else if !list[0].isDeleted && Due(list[0], clock, t) then [list[0]] + Fired(list[1..], clock, t)
    else Fired(list[1..], clock, t)
  }

  /** The index without the ids of the nodes that leave. */
  function Unindexed(index: map<int, Entry>, list: seq<TimerNode>, clock: Clock, t: nat): (r: map<int, Entry>)
    ensures forall id | id in r :: id in index && r[id] == index[id]
  {
    if list == [] then index
    else Unindexed(if Leaves(list[0], clock, t) then index - {list[0].id} else index, list[1..], clock, t)
  }

  function SlotStep(w: Wheel, clock: Clock, t: nat): Wheel
    requires w.Shape()
  {
    var list := w.slots[w.current];
    w.(slots := w.slots[w.current := Kept(list, clock, t)],
       index := Unindexed(w.index, list, clock, t),
       current := (w.current + 1) % WHEEL_SIZE)
  }

  function StepFired(w: Wheel, clock: Clock, t: nat): seq<TimerNode>
    requires w.Shape()
  {
    Fired(w.slots[w.current], clock, t)
  }

  /** The wheel after the first `k` slot steps of a tick. */
  function Advance(w: Wheel, clock: Clock, k: nat): (r: Wheel)
    requires w.Shape()
    ensures r.Shape() && r.tickMs == w.tickMs && r.lastTick == w.lastTick && r.nextHandle == w.nextHandle
  {
    if k == 0 then w else SlotStep(Advance(w, clock, k - 1), clock, k - 1)
  }

  function AdvanceFired(w: Wheel, clock: Clock, k: nat): seq<TimerNode>
    requires w.Shape()
  {
    if k == 0 then [] else AdvanceFired(w, clock, k - 1) + StepFired(Advance(w, clock, k - 1), clock, k - 1)
  }

  /** `ticks_to_advance`: the elapsed milliseconds are narrowed to `int` before the division. */
  function TicksToAdvance(w: Wheel, now: int): int
    requires w.Shape()
  {
    TruncDiv(ToInt32(TruncDiv(now - w.lastTick, NS_PER_MS)), w.tickMs)
  }

  /** A negative tick count runs no slot step but still moves `lastTick`. */
  function StepsIn(w: Wheel, now: int): nat
    requires w.Shape()
  {
    var k := TicksToAdvance(w, now);
    if k < 0 then 0 else k
  }

  function AfterTick(w: Wheel, now: int, clock: Clock): (r: Wheel)
    requires w.Shape()
    ensures r.Shape() && r.tickMs == w.tickMs && r.nextHandle == w.nextHandle
  {
    if TicksToAdvance(w, now) == 0 then w
    else Advance(w, clock, StepsIn(w, now)).(lastTick := now)
  }

  function TickFired(w: Wheel, now: int, clock: Clock): seq<TimerNode>
    requires w.Shape()
  {
    AdvanceFired(w, clock, StepsIn(w, now))
  }

  /** The inner loop of `Tick`: sweeps, fires or postpones every node of one slot, editing the list in place. */
  method VisitList(start: seq<TimerNode>, startIndex: map<int, Entry>, clock: Clock, t: nat)
    returns (list: seq<TimerNode>, fired: seq<TimerNode>, index: map<int, Entry>)
    ensures list == Kept(start, clock, t)
    ensures fired == Fired(start, clock, t)
    ensures index == Unindexed(startIndex, start, clock, t)
  {
    list, fired, index := start, [], startIndex;
    var i := 0;
    while i < |list|
      invariant i <= |list|
      invariant Kept(start, clock, t) == list[..i] + Kept(list[i..], clock, t)
      invariant Fired(start, clock, t) == fired + Fired(list[i..], clock, t)
      invariant Unindexed(startIndex, start, clock, t) == Unindexed(index, list[i..], clock, t)
      decreases |list| - i
    {
      var node := list[i];
      var rest := list[i + 1..];
      assert list[i..][1..] == rest;
      if node.isDeleted {
        index := index - {node.id};
        list := list[..i] + rest;
      } else if node.rounds == 0 || clock(t, node.handle) >= node.expire {
        fired := fired + [node];
        index := index - {node.id};
        list := list[..i] + rest;
      } else {
        list := list[i := node.(rounds := node.rounds - 1)];
        i := i + 1;
      }
      assert list[i..] == rest;
    }
    assert list[i..] == [] && list[..i] + [] == list && fired + [] == fired;
  }

  // ---------------------------------------------------------------- the class

  class TimeWheel {
    var wheel: seq<seq<TimerNode>>
    var timerMap: map<int, Entry>
    var currentSlot: nat
    const tickMs: int
    var lastTickTime: int
    var nextHandle: nat

    ghost function Abs(): Wheel
      reads this
    {
      Wheel(wheel, timerMap, currentSlot, tickMs, lastTickTime, nextHandle)
    }

    ghost predicate Valid()
      reads this
    {
      Abs().Shape()
    }

    constructor (tickMs: int, now: int)
      requires 0 < tickMs
      ensures Valid() && Abs() == Empty(tickMs, now)
    {
      this.tickMs := tickMs;
      wheel := seq(WHEEL_SIZE, _ => []);
      timerMap := map[];
      currentSlot := 0;
      lastTickTime := now;
      nextHandle := 0;
    }

    method AddTimer(id: int, delayMs: int, now: int)
      requires Valid()
      modifies this
      ensures Valid() && Abs() == AfterAdd(old(Abs()), id, delayMs, now)
    {
      if delayMs < 0 {
        return;
      }
      if id in timerMap {
        return;
      }
      var expire := now + delayMs * NS_PER_MS;
      var totalSlots := delayMs / tickMs;
      var rounds := totalSlots / WHEEL_SIZE;
      var targetSlot := (currentSlot + totalSlots) % WHEEL_SIZE;
      var node := TimerNode(nextHandle, id, expire, false, rounds);
      wheel := wheel[targetSlot := wheel[targetSlot] + [node]];
      timerMap := timerMap[id := Entry(targetSlot, nextHandle)];
      nextHandle := nextHandle + 1;
    }

    method VisitCurrentSlot(clock: Clock, t: nat) returns (fired: seq<TimerNode>)
      requires Valid()
      modifies this
      ensures Valid()
      ensures Abs() == SlotStep(old(Abs()), clock, t)
      ensures fired == StepFired(old(Abs()), clock, t)
    {
      var list;
      list, fired, timerMap := VisitList(wheel[currentSlot], timerMap, clock, t);
      wheel := wheel[currentSlot := list];
      currentSlot := (currentSlot + 1) % WHEEL_SIZE;
    }

    /** Returns the nodes whose callbacks ran, in the order they ran. */
    method Tick(now: int, clock: Clock) returns (fired: seq<TimerNode>)
      requires Valid()
      modifies this
      ensures Valid()
      ensures Abs() == AfterTick(old(Abs()), now, clock)
      ensures fired == TickFired(old(Abs()), now, clock)
    {
      fired := [];
      var elapsedMs := ToInt32(TruncDiv(now - lastTickTime, NS_PER_MS));
      var ticksToAdvance := TruncDiv(elapsedMs, tickMs);
      if ticksToAdvance == 0 {
        return;
      }
      ghost var w0 := Abs();
      var t := 0;
      while t < ticksToAdvance
        invariant 0 <= t && (t <= ticksToAdvance || t == 0)
        invariant Abs() == Advance(w0, clock, t)
        invariant fired == AdvanceFired(w0, clock, t)
      {
        var more := VisitCurrentSlot(clock, t);
        fired := fired + more;
        t := t + 1;
      }
      lastTickTime := now;
    }

    method RemoveTimer(id: int)
      requires Valid()
      modifies this
      ensures Valid() && Abs() == AfterRemove(old(Abs()), id)
    {
      if id in timerMap {
        var e := timerMap[id];
        wheel := wheel[e.slot := MarkDeleted(wheel[e.slot], e.handle)];
        timerMap := timerMap - {id};
      }
    }
  }
}
