/**
 * Time bounds of the wheel over arbitrary sequences of operations: how slot
 * steps relate to the clock, when a timer may fire and when it must have fired.
 */
module WheelTiming {
  import opened Basics
  import opened TimingWheel
  import opened WheelIntegrity
  import opened WheelCountdown

  datatype Op =
    | AddOp(id: int, delayMs: int, now: int)
    | RemoveOp(id: int)
    | TickOp(now: int, clock: Clock)

  function Apply(w: Wheel, op: Op): (r: Wheel)
    requires w.Shape()
    ensures r.Shape() && r.tickMs == w.tickMs && w.nextHandle <= r.nextHandle
  {
    match op
    case AddOp(id, delayMs, now) => AfterAdd(w, id, delayMs, now)
    case RemoveOp(id) => AfterRemove(w, id)
    case TickOp(now, clock) => AfterTick(w, now, clock)
  }

  function Fires(w: Wheel, op: Op): seq<TimerNode>
    requires w.Shape()
  {
    if op.TickOp? then TickFired(w, op.now, op.clock) else []
  }

  function StepsOf(w: Wheel, op: Op): nat
    requires w.Shape()
  {
    if op.TickOp? then StepsIn(w, op.now) else 0
  }

  function Run(w: Wheel, ops: seq<Op>): (r: Wheel)
    requires w.Shape()
    ensures r.Shape() && r.tickMs == w.tickMs && w.nextHandle <= r.nextHandle
  {
    if ops == [] then w else Apply(Run(w, ops[..|ops| - 1]), ops[|ops| - 1])
  }

  function RunFired(w: Wheel, ops: seq<Op>): seq<TimerNode>
    requires w.Shape()
  {
    if ops == [] then [] else
      RunFired(w, ops[..|ops| - 1]) + Fires(Run(w, ops[..|ops| - 1]), ops[|ops| - 1])
  }

  function RunSteps(w: Wheel, ops: seq<Op>): nat
    requires w.Shape()
  {
    if ops == [] then 0 else
      RunSteps(w, ops[..|ops| - 1]) + StepsOf(Run(w, ops[..|ops| - 1]), ops[|ops| - 1])
  }

  // ---------------------------------------------------------------- the countdown map over a run

  function ApplyCountdown(m: Countdowns, w: Wheel, op: Op): Countdowns
    requires w.Shape()
  {
    match op
    case AddOp(id, delayMs, now) =>
      if delayMs < 0 || id in w.index then m
      else m[w.nextHandle := Countdown(id, delayMs / w.tickMs, now + delayMs * NS_PER_MS)]
    case RemoveOp(id) => if id in w.index then m - {w.index[id].handle} else m
    case TickOp(now, clock) => CountdownAdvance(m, clock, StepsIn(w, now))
  }

  function RunCountdown(m: Countdowns, w: Wheel, ops: seq<Op>): Countdowns
    requires w.Shape()
  {
    if ops == [] then m else
      ApplyCountdown(RunCountdown(m, w, ops[..|ops| - 1]), Run(w, ops[..|ops| - 1]), ops[|ops| - 1])
  }

  lemma ApplyRefines(w: Wheel, m: Countdowns, op: Op)
    requires w.Shape() && WellFormed(w) && Refines(w, m)
    ensures WellFormed(Apply(w, op)) && Refines(Apply(w, op), ApplyCountdown(m, w, op))
  {
    hide WellFormed, Refines;
    match op {
      case AddOp(id, delayMs, now) =>
        AddKeepsWellFormed(w, id, delayMs, now);
        AddRefines(w, m, id, delayMs, now);
      case RemoveOp(id) =>
        RemoveKeepsWellFormed(w, id);
        RemoveRefines(w, m, id);
      case TickOp(now, clock) =>
        TickKeepsWellFormed(w, now, clock);
        TickRefines(w, m, now, clock);
    }
  }

  lemma TickRefines(w: Wheel, m: Countdowns, now: int, clock: Clock)
    requires w.Shape() && WellFormed(w) && Refines(w, m)
    ensures Refines(AfterTick(w, now, clock), CountdownAdvance(m, clock, StepsIn(w, now)))
  {
    hide WellFormed, Refines;
    var k := StepsIn(w, now);
    AdvanceRefines(w, m, clock, k);
    SameView(Advance(w, clock, k), AfterTick(w, now, clock), CountdownAdvance(m, clock, k));
  }

  lemma SameView(a: Wheel, r: Wheel, m: Countdowns)
    requires Refines(a, m) && r.Shape() && r.slots == a.slots && r.current == a.current
    ensures Refines(r, m)
  {
    assert forall s: nat, n :: r.Holds(s, n) == a.Holds(s, n);
    forall h | h in m ensures exists s: nat, n :: LiveNode(r, s, n, h) {
      var s: nat, n :| LiveNode(a, s, n, h);
      assert LiveNode(r, s, n, h);
    }
  }

  /** Along every run the wheel stays well formed and stays a countdown map. */
  lemma {:induction false} RunRefines(w: Wheel, m: Countdowns, ops: seq<Op>)
    requires w.Shape() && WellFormed(w) && Refines(w, m)
    ensures WellFormed(Run(w, ops)) && Refines(Run(w, ops), RunCountdown(m, w, ops))
  {
    hide WellFormed, Refines, Apply, ApplyCountdown;
    if ops != [] {
      var before := ops[..|ops| - 1];
      RunRefines(w, m, before);
      ApplyRefines(Run(w, before), RunCountdown(m, w, before), ops[|ops| - 1]);
    }
  }

  /** So does every wheel the code can reach: a run from the constructed wheel is a run from the empty map. */
  lemma RunFromEmpty(tickMs: int, now: int, ops: seq<Op>)
    requires 0 < tickMs
    ensures var w := Empty(tickMs, now);
      WellFormed(Run(w, ops)) && Refines(Run(w, ops), RunCountdown(map[], w, ops))
  {
    EmptyIsSound(tickMs, now);
    EmptyRefines(tickMs, now);
    hide WellFormed, Refines, Run, RunCountdown;
    RunRefines(Empty(tickMs, now), map[], ops);
  }

  // ---------------------------------------------------------------- one timer along a run

  /** While a timer is alive its number has dropped by exactly the slot steps taken. */
  lemma {:induction false} CountdownAt(m: Countdowns, clock: Clock, k: nat, h: nat)
    ensures h in CountdownAdvance(m, clock, k) ==>
      && h in m && k <= m[h].remaining
      && CountdownAdvance(m, clock, k)[h] == m[h].(remaining := m[h].remaining - k)
  {
    if k > 0 {
      CountdownAt(m, clock, k - 1, h);
    }
  }

  /** If a timer drops out, some step found it due. */
  lemma {:induction false} DueStep(m: Countdowns, clock: Clock, k: nat, h: nat) returns (j: nat)
    requires h in m && h !in CountdownAdvance(m, clock, k)
    ensures j < k && h in CountdownAdvance(m, clock, j) && IsDue(CountdownAdvance(m, clock, j)[h], clock(j, h))
  {
    if h in CountdownAdvance(m, clock, k - 1) {
      j := k - 1;
    } else {
      j := DueStep(m, clock, k - 1, h);
    }
  }

  lemma {:induction false} FiresTimes(w: Wheel, m: Countdowns, op: Op, h: nat)
    requires w.Shape() && WellFormed(w) && Refines(w, m) && op.TickOp?
    ensures Times(Fires(w, op), h) == if h in m && h !in ApplyCountdown(m, w, op) then 1 else 0
    ensures h in ApplyCountdown(m, w, op) ==> h in m
  {
    AdvanceFires(w, m, op.clock, StepsIn(w, op.now), h);
  }

  /**
   * A timer alive at the start of a run is, at its end, either alive with `RunSteps` fewer
   * steps to go and never fired, or gone: fired exactly once, unless some operation removed its id.
   */
  lemma {:induction false} Lifetime(w: Wheel, m: Countdowns, ops: seq<Op>, h: nat)
    requires w.Shape() && WellFormed(w) && Refines(w, m) && h in m && h < w.nextHandle
    ensures var end := RunCountdown(m, w, ops);
      if h in end then
        && RunSteps(w, ops) <= m[h].remaining
        && end[h] == m[h].(remaining := m[h].remaining - RunSteps(w, ops))
        && Times(RunFired(w, ops), h) == 0
      else
        && Times(RunFired(w, ops), h) <= 1
        && (RemoveOp(m[h].id) !in ops ==> Times(RunFired(w, ops), h) == 1)
  {
    hide WellFormed, Refines, Apply, AfterTick, SlotStep;
    if ops != [] {
      var before, op := ops[..|ops| - 1], ops[|ops| - 1];
      Lifetime(w, m, before, h);
      RunRefines(w, m, before);
      var v, c := Run(w, before), RunCountdown(m, w, before);
      TimesConcat(RunFired(w, before), Fires(v, op), h);
      assert forall o :: o in before ==> o in ops;
      match op {
        case AddOp(_, _, _) =>
        case RemoveOp(id) =>
          RemoveRefines(v, c, id);
        case TickOp(now, clock) =>
          FiresTimes(v, c, op, h);
          CountdownAt(c, clock, StepsIn(v, now), h);
      }
    }
  }

  // ---------------------------------------------------------------- slot steps against the clock

  /** The clock never goes back between ticks. */
  predicate Monotone(w: Wheel, ops: seq<Op>)
    requires w.Shape()
  {
    ops == [] ||
    var before, op := ops[..|ops| - 1], ops[|ops| - 1];
    Monotone(w, before) && (op.TickOp? ==> Run(w, before).lastTick <= op.now)
  }

  /** No two ticks are 2^31 ms (24.8 days) apart, so the elapsed time fits the `int` it is stored in. */
  predicate ShortGaps(w: Wheel, ops: seq<Op>)
    requires w.Shape()
  {
    ops == [] ||
    var before, op := ops[..|ops| - 1], ops[|ops| - 1];
    ShortGaps(w, before) && (op.TickOp? ==> op.now - Run(w, before).lastTick < 0x8000_0000 * NS_PER_MS)
  }

  function StepNs(w: Wheel): int { w.tickMs * NS_PER_MS }

  /** The arithmetic of one tick: k steps take between k and k + 1 tick lengths. */
  lemma TickArithmetic(w: Wheel, now: int)
    requires w.Shape() && w.lastTick <= now
    ensures StepsIn(w, now) * StepNs(w) <= now - w.lastTick
    ensures now - w.lastTick < 0x8000_0000 * NS_PER_MS ==>
      TicksToAdvance(w, now) >= 0 && now - w.lastTick < (StepsIn(w, now) + 1) * StepNs(w)
  {
    var ns, tick := now - w.lastTick, w.tickMs;
    var narrow: int := ToInt32(ns / NS_PER_MS);
    var k := StepsIn(w, now);
    Narrowing(ns / NS_PER_MS);
    if narrow >= 0 {
      DivBounds(narrow, tick);
      InNanoseconds(k, tick, narrow, ns);
    } else {
      DivBounds(-narrow, tick);
    }
  }

  lemma Narrowing(ms: nat)
    ensures ToInt32(ms) <= ms && (ms < 0x8000_0000 ==> ToInt32(ms) == ms)
  {
  }

  lemma InNanoseconds(k: nat, tick: int, narrow: nat, ns: nat)
    requires k * tick <= narrow < k * tick + tick && narrow <= ns / NS_PER_MS
    ensures k * (tick * NS_PER_MS) <= ns
    ensures narrow == ns / NS_PER_MS ==> ns < (k + 1) * (tick * NS_PER_MS)
  {
    var p := k * tick;
    assert k * (tick * NS_PER_MS) == p * NS_PER_MS;
    assert (k + 1) * (tick * NS_PER_MS) == (p + tick) * NS_PER_MS;
  }

  lemma DivBounds(a: nat, b: int)
    requires 0 < b
    ensures (a / b) * b <= a < (a / b) * b + b && 0 <= a / b
  {
  }

  lemma Distribute(a: int, b: int, c: int)
    ensures (a + b) * c == a * c + b * c
  {
  }

  /** Slot steps never run ahead of the clock; this needs no bound on the gaps. */
  lemma {:induction false} StepsLower(w: Wheel, ops: seq<Op>)
    requires w.Shape() && Monotone(w, ops)
    ensures RunSteps(w, ops) * StepNs(w) <= Run(w, ops).lastTick - w.lastTick
  {
    hide AfterAdd, AfterRemove, SlotStep;
    if ops != [] {
      var before, op := ops[..|ops| - 1], ops[|ops| - 1];
      StepsLower(w, before);
      var v := Run(w, before);
      Distribute(RunSteps(w, before), StepsOf(v, op), StepNs(w));
      OpLastTick(v, op);
      if op.TickOp? {
        TickArithmetic(v, op.now);
      }
    }
  }

  lemma OpLastTick(w: Wheel, op: Op)
    requires w.Shape()
    ensures Apply(w, op).lastTick == if op.TickOp? && TicksToAdvance(w, op.now) != 0 then op.now else w.lastTick
  {
  }

  /** With short gaps they lag by less than a factor of two. */
  lemma {:induction false} StepsUpper(w: Wheel, ops: seq<Op>)
    requires w.Shape() && Monotone(w, ops) && ShortGaps(w, ops)
    ensures var elapsed := Run(w, ops).lastTick - w.lastTick;
      if RunSteps(w, ops) == 0 then elapsed == 0 else elapsed < 2 * (RunSteps(w, ops) * StepNs(w))
  {
    hide AfterAdd, AfterRemove, SlotStep;
    if ops != [] {
      var before, op := ops[..|ops| - 1], ops[|ops| - 1];
      StepsUpper(w, before);
      var v := Run(w, before);
      var s, k := RunSteps(w, before), StepsOf(v, op);
      Distribute(s, k, StepNs(w));
      OpLastTick(v, op);
      if op.TickOp? {
        TickArithmetic(v, op.now);
        if k > 0 {
          Distribute(k, 1, StepNs(w));
          AtLeastOnce(k, StepNs(w));
        }
      }
    }
  }

  lemma AtLeastOnce(k: nat, c: int)
    requires 0 < k && 0 < c
    ensures c <= k * c
  {
  }

  /**
   * A timer with `remaining` steps to go fires only in a tick at least remaining + 1 tick
   * lengths after the last tick before it was looked at, or because a clock reading in that
   * tick had reached its `expire`.
   */
  lemma NeverAheadOfTicks(w: Wheel, m: Countdowns, ops: seq<Op>, op: Op, h: nat)
    requires w.Shape() && WellFormed(w) && Refines(w, m) && h in m && h < w.nextHandle
    requires op.TickOp? && Monotone(w, ops + [op])
    requires Times(Fires(Run(w, ops), op), h) > 0
    ensures op.now - w.lastTick >= (m[h].remaining + 1) * StepNs(w)
      || exists t: nat :: t < StepsIn(Run(w, ops), op.now) && op.clock(t, h) >= m[h].expire
  {
    hide *;
    var v := Run(w, ops);
    var k := StepsIn(v, op.now);
    var s := RunSteps(w, ops);
    var n := m[h].remaining + 1;
    MonotoneSplit(w, ops, op);
    var j := DueWhenFired(w, m, ops, op, h);
    StepsLower(w, ops);
    TickArithmetic(v, op.now);
    Distribute(s, k, StepNs(w));
    if n <= s + k {
      Scale(n, s + k, StepNs(w), w);
      StepNsSame(v, w);
    }
  }

  lemma StepNsSame(v: Wheel, w: Wheel)
    requires v.tickMs == w.tickMs
    ensures StepNs(v) == StepNs(w)
  {
  }

  lemma Scale(a: int, b: int, c: int, w: Wheel)
    requires a <= b && w.Shape() && c == StepNs(w)
    ensures a * c <= b * c
  {
  }

  lemma MonotoneSplit(w: Wheel, ops: seq<Op>, op: Op)
    requires w.Shape() && Monotone(w, ops + [op])
    ensures Monotone(w, ops) && (op.TickOp? ==> Run(w, ops).lastTick <= op.now)
  {
    var all := ops + [op];
    assert all[..|all| - 1] == ops;
  }

  /** The step of the firing tick that found the timer due, and why. */
  lemma DueWhenFired(w: Wheel, m: Countdowns, ops: seq<Op>, op: Op, h: nat) returns (j: nat)
    requires w.Shape() && WellFormed(w) && Refines(w, m) && h in m && h < w.nextHandle && op.TickOp?
    requires Times(Fires(Run(w, ops), op), h) > 0
    ensures j < StepsIn(Run(w, ops), op.now)
    ensures RunSteps(w, ops) + j <= m[h].remaining
    ensures m[h].remaining == RunSteps(w, ops) + j || op.clock(j, h) >= m[h].expire
  {
    hide WellFormed, Refines, SlotStep, Apply, Fires;
    var v, c := Run(w, ops), RunCountdown(m, w, ops);
    RunRefines(w, m, ops);
    Lifetime(w, m, ops, h);
    FiresTimes(v, c, op, h);
    var k := StepsIn(v, op.now);
    assert h in c && h !in CountdownAdvance(c, op.clock, k);
    j := DueStep(c, op.clock, k, h);
    CountdownAt(c, op.clock, j, h);
  }

  // ---------------------------------------------------------------- the promises, from registration

  ghost predicate Alive(w: Wheel, h: nat) {
    exists s: nat, n :: LiveNode(w, s, n, h)
  }

  /** Every well-formed wheel is some countdown map. */
  ghost function ViewOf(w: Wheel): Countdowns
    requires w.Shape()
  {
    map h: nat | h < w.nextHandle && Alive(w, h)
      :: var s: nat, n :| LiveNode(w, s, n, h); Countdown(n.id, Remaining(w, s, n), n.expire)
  }

  lemma ViewRefines(w: Wheel)
    requires w.Shape() && WellFormed(w)
    ensures Refines(w, ViewOf(w))
  {
    forall s: nat, n | w.Holds(s, n) && !n.isDeleted
      ensures n.handle in ViewOf(w) && ViewOf(w)[n.handle] == Countdown(n.id, Remaining(w, s, n), n.expire)
    {
      assert LiveNode(w, s, n, n.handle);
    }
    forall h | h in ViewOf(w) ensures exists s: nat, n :: LiveNode(w, s, n, h) {
      assert Alive(w, h);
    }
  }

  /** The countdown map right after a timer is armed. */
  ghost function ArmedView(w: Wheel, id: int, delayMs: int, now: int): Countdowns
    requires w.Shape() && 0 <= delayMs
  {
    ViewOf(w)[w.nextHandle := Countdown(id, delayMs / w.tickMs, now + delayMs * NS_PER_MS)]
  }

  lemma Armed(w: Wheel, id: int, delayMs: int, now: int)
    requires w.Shape() && WellFormed(w) && 0 <= delayMs && id !in w.index
    ensures var r := AfterAdd(w, id, delayMs, now);
      WellFormed(r) && Refines(r, ArmedView(w, id, delayMs, now)) && w.nextHandle < r.nextHandle && r.lastTick == w.lastTick
  {
    ViewRefines(w);
    AddKeepsWellFormed(w, id, delayMs, now);
    AddRefines(w, ViewOf(w), id, delayMs, now);
  }

  /**
   * A timer never fires before (last tick at registration) + delay: the firing tick starts
   * later than that, or a clock reading in it is at least registration + delay.
   */
  lemma NeverBeforeLastTickPlusDelay(w: Wheel, id: int, delayMs: int, reg: int, ops: seq<Op>, op: Op)
    requires w.Shape() && WellFormed(w) && 0 <= delayMs && id !in w.index
    requires op.TickOp? && Monotone(AfterAdd(w, id, delayMs, reg), ops + [op])
    requires Times(Fires(Run(AfterAdd(w, id, delayMs, reg), ops), op), w.nextHandle) > 0
    ensures op.now > w.lastTick + delayMs * NS_PER_MS
      || exists t: nat :: t < StepsIn(Run(AfterAdd(w, id, delayMs, reg), ops), op.now)
           && op.clock(t, w.nextHandle) >= reg + delayMs * NS_PER_MS
  {
    hide WellFormed, Refines, Fires, Run, Monotone, AfterAdd;
    var r := AfterAdd(w, id, delayMs, reg);
    Armed(w, id, delayMs, reg);
    NeverAheadOfTicks(r, ArmedView(w, id, delayMs, reg), ops, op, w.nextHandle);
    BeyondDelay(w, delayMs);
    assert StepNs(r) == StepNs(w) by { SameTick(w, id, delayMs, reg); }
  }

  lemma SameTick(w: Wheel, id: int, delayMs: int, now: int)
    requires w.Shape()
    ensures AfterAdd(w, id, delayMs, now).tickMs == w.tickMs
  {
  }

  lemma BeyondDelay(w: Wheel, delayMs: nat)
    requires w.Shape()
    ensures delayMs * NS_PER_MS < (delayMs / w.tickMs + 1) * StepNs(w) <= (delayMs + w.tickMs) * NS_PER_MS
  {
    var k := delayMs / w.tickMs;
    DivBounds(delayMs, w.tickMs);
    var p := k * w.tickMs;
    assert (k + 1) * StepNs(w) == (p + w.tickMs) * NS_PER_MS;
  }

  /**
   * If no operation removes its id, a timer has fired exactly once by the time ticking has
   * reached 2 * (delay / tick + 1) tick lengths past the last tick at registration.
   */
  lemma FiredInTime(w: Wheel, id: int, delayMs: int, reg: int, ops: seq<Op>)
    requires w.Shape() && WellFormed(w) && 0 <= delayMs && id !in w.index
    requires var r := AfterAdd(w, id, delayMs, reg);
      && Monotone(r, ops) && ShortGaps(r, ops) && RemoveOp(id) !in ops
      && Run(r, ops).lastTick >= w.lastTick + 2 * ((delayMs / w.tickMs + 1) * StepNs(w))
    ensures Times(RunFired(AfterAdd(w, id, delayMs, reg), ops), w.nextHandle) == 1
  {
    hide WellFormed, Refines, Run, RunFired, RunSteps, RunCountdown, Monotone, ShortGaps, AfterAdd;
    var r := AfterAdd(w, id, delayMs, reg);
    var total := delayMs / w.tickMs;
    Armed(w, id, delayMs, reg);
    SameTick(w, id, delayMs, reg);
    StepsUpper(r, ops);
    Lifetime(r, ArmedView(w, id, delayMs, reg), ops, w.nextHandle);
    BeyondDelay(w, delayMs);
    if RunSteps(r, ops) <= total {
      Scale(RunSteps(r, ops), total + 1, StepNs(w), w);
    }
  }

  // ---------------------------------------------------------------- relative to the registration itself

  /**
   * After any run `ops` following the arming at `reg`, tick `op` fires the timer, although neither its
   * start nor any reading in it is as late as `reg` + delay.
   */
  ghost predicate FiresEarly(w: Wheel, id: int, delayMs: nat, reg: int, ops: seq<Op>, op: Op)
    requires w.Shape()
  {
    var r, expire := AfterAdd(w, id, delayMs, reg), reg + delayMs * NS_PER_MS;
    && op.TickOp? && reg <= op.now < expire && Monotone(r, ops + [op])
    && (forall t: nat | t < StepsIn(Run(r, ops), op.now) :: op.now <= op.clock(t, w.nextHandle) < expire)
    && Times(Fires(Run(r, ops), op), w.nextHandle) > 0
  }

  /** Some run fires the timer less than its delay after it was armed. */
  ghost predicate CanFireEarly(w: Wheel, id: int, delayMs: nat, reg: int)
    requires w.Shape()
  {
    exists ops, op :: FiresEarly(w, id, delayMs, reg, ops, op)
  }

  /** How far the wheel lags behind the clock at registration, against the slack its rounding up leaves. */
  predicate LagsTooMuch(w: Wheel, delayMs: nat, reg: int)
    requires w.Shape()
  {
    0 < delayMs && reg - w.lastTick > (delayMs / w.tickMs + 1) * StepNs(w) - delayMs * NS_PER_MS
  }

  /** A wheel that does not lag too much fires the timer early in no run at all, however long its ticks are apart. */
  lemma EarlyOnlyIfLagging(w: Wheel, id: int, delayMs: nat, reg: int, ops: seq<Op>, op: Op)
    requires w.Shape() && WellFormed(w) && id !in w.index && FiresEarly(w, id, delayMs, reg, ops, op)
    ensures LagsTooMuch(w, delayMs, reg)
  {
    hide WellFormed, Refines, Fires, Run, Monotone, AfterAdd, Times;
    var r := AfterAdd(w, id, delayMs, reg);
    Armed(w, id, delayMs, reg);
    NeverAheadOfTicks(r, ArmedView(w, id, delayMs, reg), ops, op, w.nextHandle);
    StepNsSame(r, w);
  }

  /** When no reading reaches `expire`, a timer drops out exactly if more slot steps are taken than it has to go. */
  lemma {:induction false} QuietAdvance(m: Countdowns, clock: Clock, k: nat, h: nat)
    requires h in m && forall t: nat :: clock(t, h) < m[h].expire
    ensures h in CountdownAdvance(m, clock, k) <==> k <= m[h].remaining
  {
    if k > 0 {
      QuietAdvance(m, clock, k - 1, h);
      CountdownAt(m, clock, k - 1, h);
    }
  }

  lemma QuietTick(w: Wheel, id: int, delayMs: nat, reg: int, now: int, clock: Clock)
    requires w.Shape() && WellFormed(w) && id !in w.index
    requires forall t: nat :: clock(t, w.nextHandle) < reg + delayMs * NS_PER_MS
    ensures Times(TickFired(AfterAdd(w, id, delayMs, reg), now, clock), w.nextHandle) > 0
      <==> StepsIn(w, now) > delayMs / w.tickMs
  {
    hide WellFormed, Refines;
    var r, m := AfterAdd(w, id, delayMs, reg), ArmedView(w, id, delayMs, reg);
    Armed(w, id, delayMs, reg);
    assert StepsIn(r, now) == StepsIn(w, now);
    AdvanceFires(r, m, clock, StepsIn(r, now), w.nextHandle);
    QuietAdvance(m, clock, StepsIn(r, now), w.nextHandle);
  }

  /** The first tick after the arming that takes enough steps fires the timer, whatever the time is. */
  lemma FirstTickFires(w: Wheel, id: int, delayMs: nat, reg: int, now: int)
    requires w.Shape() && WellFormed(w) && id !in w.index
    requires w.lastTick <= now && reg <= now < reg + delayMs * NS_PER_MS && StepsIn(w, now) > delayMs / w.tickMs
    ensures FiresEarly(w, id, delayMs, reg, [], TickOp(now, (t, h) => now))
  {
    hide WellFormed, TickFired, Times;
    var clock: Clock, r := (t, h) => now, AfterAdd(w, id, delayMs, reg);
    QuietTick(w, id, delayMs, reg, now, clock);
    assert [] + [TickOp(now, clock)] == [TickOp(now, clock)];
    assert Monotone(r, [TickOp(now, clock)][..0]);
    assert Run(r, []) == r;
  }

  /**
   * "A timer never fires before its delay" fails, over all runs, exactly when the wheel lags too much at
   * registration. The bound keeps the elapsed time of the early tick within `int`; past it the count wraps.
   */
  lemma EarlyIffLagging(w: Wheel, id: int, delayMs: nat, reg: int)
    requires w.Shape() && WellFormed(w) && id !in w.index && w.lastTick <= reg
    requires reg - w.lastTick + (delayMs + w.tickMs) * NS_PER_MS < 0x8000_0000 * NS_PER_MS
    ensures CanFireEarly(w, id, delayMs, reg) <==> LagsTooMuch(w, delayMs, reg)
  {
    hide WellFormed, AfterAdd, TickFired, Times, FiresEarly;
    if ops, op :| FiresEarly(w, id, delayMs, reg, ops, op) {
      EarlyOnlyIfLagging(w, id, delayMs, reg, ops, op);
    }
    if LagsTooMuch(w, delayMs, reg) {
      var needed := (delayMs / w.tickMs + 1) * StepNs(w);
      BeyondDelay(w, delayMs);
      var now := if reg < w.lastTick + needed then w.lastTick + needed else reg;
      TickArithmetic(w, now);
      if StepsIn(w, now) <= delayMs / w.tickMs {
        Scale(StepsIn(w, now) + 1, delayMs / w.tickMs + 1, StepNs(w), w);
      }
      FirstTickFires(w, id, delayMs, reg, now);
    }
  }

  /** For example: tick 10 ms, last tick at 0, a delay of 20 ms asked for at 100 ms, and a tick at 100 ms. */
  lemma FiresAtOnce()
    ensures FiresEarly(Empty(10, 0), 7, 20, 100 * NS_PER_MS, [], TickOp(100 * NS_PER_MS, (t, h) => 100 * NS_PER_MS))
  {
    var w := Empty(10, 0);
    EmptyIsSound(10, 0);
    assert StepsIn(w, 100 * NS_PER_MS) == 10;
    hide WellFormed;
    FirstTickFires(w, 7, 20, 100 * NS_PER_MS, 100 * NS_PER_MS);
  }

  // ---------------------------------------------------------------- following one node

  /** The node with handle `h` is in the wheel, live, with timer id `id`. */
  ghost predicate Carries(w: Wheel, h: nat, id: int) {
    exists s: nat, n :: LiveNode(w, s, n, h) && n.id == id
  }

  lemma CarriesView(w: Wheel, m: Countdowns, h: nat, id: int)
    requires Refines(w, m)
    ensures Carries(w, h, id) <==> h in m && m[h].id == id
  {
    if h in m {
      var s: nat, n :| LiveNode(w, s, n, h);
    }
  }

  lemma AddCarries(w: Wheel, id: int, delayMs: int, now: int, h: nat, x: int)
    requires w.Shape() && WellFormed(w)
    ensures Carries(AfterAdd(w, id, delayMs, now), h, x) <==>
      Carries(w, h, x) || (0 <= delayMs && id !in w.index && h == w.nextHandle && x == id)
    ensures AfterAdd(w, id, delayMs, now).nextHandle == w.nextHandle + (if 0 <= delayMs && id !in w.index then 1 else 0)
  {
    hide WellFormed, Refines, Carries;
    var m := ViewOf(w);
    ViewRefines(w);
    AddRefines(w, m, id, delayMs, now);
    CarriesView(w, m, h, x);
    var m' := if delayMs < 0 || id in w.index then m
      else m[w.nextHandle := Countdown(id, delayMs / w.tickMs, now + delayMs * NS_PER_MS)];
    CarriesView(AfterAdd(w, id, delayMs, now), m', h, x);
  }

  lemma RemoveCarries(w: Wheel, id: int, h: nat, x: int)
    requires w.Shape() && WellFormed(w)
    ensures Carries(AfterRemove(w, id), h, x) <==> Carries(w, h, x) && !(id in w.index && w.index[id].handle == h)
    ensures Carries(w, h, x) && id in w.index && w.index[id].handle == h ==> x == id
  {
    hide WellFormed, Refines, Carries, AfterRemove;
    var m := ViewOf(w);
    ViewRefines(w);
    RemoveRefines(w, m, id);
    CarriesView(w, m, h, x);
    CarriesView(AfterRemove(w, id), if id in w.index then m - {w.index[id].handle} else m, h, x);
  }

  lemma TickCarries(w: Wheel, now: int, clock: Clock, h: nat, x: int)
    requires w.Shape() && WellFormed(w)
    ensures Carries(AfterTick(w, now, clock), h, x) ==> Carries(w, h, x)
    ensures Carries(w, h, x) ==> Carries(AfterTick(w, now, clock), h, x) || Times(TickFired(w, now, clock), h) > 0
  {
    hide WellFormed, Refines, Carries, AfterTick, SlotStep;
    var m, k := ViewOf(w), StepsIn(w, now);
    ViewRefines(w);
    TickRefines(w, m, now, clock);
    CountdownAt(m, clock, k, h);
    AdvanceFires(w, m, clock, k, h);
    CarriesView(w, m, h, x);
    CarriesView(AfterTick(w, now, clock), CountdownAdvance(m, clock, k), h, x);
  }

  /** An entry names a live node of its id. */
  lemma EntryCarries(w: Wheel, id: int)
    requires WellFormed(w) && id in w.index
    ensures Carries(w, w.index[id].handle, id)
  {
    var n :| Target(w, id, n);
    assert LiveNode(w, w.index[id].slot, n, w.index[id].handle);
  }

  lemma ApplyWellFormed(w: Wheel, op: Op)
    requires w.Shape() && WellFormed(w)
    ensures WellFormed(Apply(w, op))
  {
    hide WellFormed, Refines, Apply;
    ViewRefines(w);
    ApplyRefines(w, ViewOf(w), op);
  }

  /** As long as a timer's node is in the wheel, ticking is less than 2 * (delay / tick + 1) tick lengths past its arming. */
  lemma StillThereMeansRecent(w: Wheel, id: int, delayMs: int, reg: int, ops: seq<Op>)
    requires w.Shape() && WellFormed(w) && 0 <= delayMs && id !in w.index
    requires var r := AfterAdd(w, id, delayMs, reg);
      Monotone(r, ops) && ShortGaps(r, ops) && Carries(Run(r, ops), w.nextHandle, id)
    ensures Run(AfterAdd(w, id, delayMs, reg), ops).lastTick < w.lastTick + 2 * ((delayMs / w.tickMs + 1) * StepNs(w))
  {
    hide WellFormed, Refines, Run, RunFired, RunSteps, RunCountdown, Monotone, ShortGaps, AfterAdd, Carries;
    var r := AfterAdd(w, id, delayMs, reg);
    var m, total := ArmedView(w, id, delayMs, reg), delayMs / w.tickMs;
    Armed(w, id, delayMs, reg);
    RunRefines(r, m, ops);
    CarriesView(Run(r, ops), RunCountdown(m, r, ops), w.nextHandle, id);
    Lifetime(r, m, ops, w.nextHandle);
    StepsUpper(r, ops);
    StepNsSame(r, w);
    Scale(RunSteps(r, ops), total, StepNs(w), w);
    Distribute(total, 1, StepNs(w));
  }
}
