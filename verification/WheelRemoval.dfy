/**
 * Removed timers: along every run that does not reuse an id too early they stay silent and their nodes are
 * swept; and exactly when a timer armed under a reused id can fire although it is removed.
 */
module WheelRemoval {
  import opened TimingWheel
  import opened WheelIntegrity
  import opened WheelCountdown
  import opened WheelTiming

  // ---------------------------------------------------------------- removed timers along a run

  /** Every timer is armed under an id that has no tombstone in the wheel at the time. */
  ghost predicate NoReuse(w: Wheel, ops: seq<Op>)
    requires w.Shape()
  {
    ops == [] ||
    var before, op := ops[..|ops| - 1], ops[|ops| - 1];
    NoReuse(w, before) && (op.AddOp? ==> !TombstoneOf(Run(w, before), op.id))
  }

  lemma ApplyKeepsBijective(w: Wheel, op: Op)
    requires w.Shape() && WellFormed(w) && Bijective(w) && (op.AddOp? ==> !TombstoneOf(w, op.id))
    ensures WellFormed(Apply(w, op)) && Bijective(Apply(w, op))
  {
    hide WellFormed, Bijective;
    match op {
      case AddOp(id, delayMs, now) =>
        AddKeepsWellFormed(w, id, delayMs, now);
        AddKeepsBijectiveIff(w, id, delayMs, now);
      case RemoveOp(id) =>
        RemoveKeepsWellFormed(w, id);
        RemoveKeepsBijective(w, id);
      case TickOp(now, clock) =>
        TickKeepsWellFormed(w, now, clock);
        TickKeepsBijective(w, now, clock);
    }
  }

  /** Along every run that does not reuse ids too early, the index is a bijection with the live nodes. */
  lemma {:induction false} RunKeepsBijective(w: Wheel, ops: seq<Op>)
    requires w.Shape() && WellFormed(w) && Bijective(w) && NoReuse(w, ops)
    ensures WellFormed(Run(w, ops)) && Bijective(Run(w, ops))
  {
    hide WellFormed, Bijective, Apply;
    if ops != [] {
      RunKeepsBijective(w, ops[..|ops| - 1]);
      ApplyKeepsBijective(Run(w, ops[..|ops| - 1]), ops[|ops| - 1]);
    }
  }

  lemma ApplyNoLive(w: Wheel, op: Op, id: int)
    requires w.Shape() && WellFormed(w) && NoLive(w, id) && (op.AddOp? ==> op.id != id)
    ensures NoLive(Apply(w, op), id) && forall n | n in Fires(w, op) :: n.id != id
  {
    var r := Apply(w, op);
    match op {
      case AddOp(other, delayMs, now) =>
        forall s: nat, n | r.Holds(s, n) && !n.isDeleted ensures n.id != id {
          assert 0 <= delayMs && other !in w.index ==> w.Holds(s, n) || n.id == other by {
            if 0 <= delayMs && other !in w.index { AddHolds(w, other, delayMs, now, s, n); }
          }
        }
      case RemoveOp(other) =>
        forall s: nat, n | r.Holds(s, n) && !n.isDeleted ensures n.id != id {
          if other in w.index { RemoveHolds(w, other, s, n); }
        }
      case TickOp(now, clock) =>
        NoLiveNeverFires(w, id, clock, StepsIn(w, now));
        SameLive(Advance(w, clock, StepsIn(w, now)), r, id);
    }
  }

  lemma SameLive(a: Wheel, r: Wheel, id: int)
    requires r.slots == a.slots && NoLive(a, id)
    ensures NoLive(r, id)
  {
    assert forall s: nat, n :: r.Holds(s, n) ==> a.Holds(s, n);
  }

  lemma {:induction false} RunNoLive(w: Wheel, ops: seq<Op>, id: int)
    requires w.Shape() && WellFormed(w) && NoLive(w, id) && forall op | op in ops :: op.AddOp? ==> op.id != id
    ensures NoLive(Run(w, ops), id) && forall n | n in RunFired(w, ops) :: n.id != id
  {
    hide WellFormed, NoLive, Apply, Fires;
    if ops != [] {
      var before := ops[..|ops| - 1];
      assert forall op | op in before :: op in ops;
      RunNoLive(w, before, id);
      ViewRefines(w);
      RunRefines(w, ViewOf(w), before);
      ApplyNoLive(Run(w, before), ops[|ops| - 1], id);
    }
  }

  /** With the index a bijection, a removed timer never fires, whatever happens next, until its id is armed again. */
  lemma RemovedStaysSilent(w: Wheel, id: int, ops: seq<Op>)
    requires w.Shape() && WellFormed(w) && Bijective(w) && forall op | op in ops :: op.AddOp? ==> op.id != id
    ensures forall n | n in RunFired(AfterRemove(w, id), ops) :: n.id != id
  {
    hide WellFormed, Bijective, NoLive, AfterRemove, RunFired;
    RemoveKeepsBijective(w, id);
    RemoveKeepsWellFormed(w, id);
    RemoveShape(w, id);
    RunNoLive(AfterRemove(w, id), ops, id);
  }

  lemma RemoveShape(w: Wheel, id: int)
    requires w.Shape()
    ensures AfterRemove(w, id).Shape()
  {
  }

  lemma TombstoneStays(w: Wheel, op: Op, s: nat, n: TimerNode)
    requires w.Shape() && WellFormed(w) && w.Holds(s, n) && n.isDeleted && StepsOf(w, op) <= Distance(w, s)
    ensures Apply(w, op).Holds(s, n) && Distance(Apply(w, op), s) == Distance(w, s) - StepsOf(w, op)
  {
    match op {
      case AddOp(id, delayMs, now) =>
        if 0 <= delayMs && id !in w.index { AddHolds(w, id, delayMs, now, s, n); }
      case RemoveOp(id) =>
        if id in w.index { RemoveHolds(w, id, s, n); }
      case TickOp(now, clock) =>
        StaysUntilVisited(w, clock, StepsIn(w, now), s, n);
    }
  }

  lemma TombstoneGoes(w: Wheel, op: Op, s: nat, n: TimerNode)
    requires w.Shape() && WellFormed(w) && w.Holds(s, n) && n.isDeleted && Distance(w, s) < StepsOf(w, op)
    ensures !Apply(w, op).Present(n.handle)
  {
    TombstoneSwept(w, op.clock, StepsIn(w, op.now), s, n);
    SameNodes(Advance(w, op.clock, StepsIn(w, op.now)), Apply(w, op));
  }

  lemma GoneStays(w: Wheel, op: Op, h: nat)
    requires w.Shape() && WellFormed(w) && !w.Present(h) && h < w.nextHandle
    ensures !Apply(w, op).Present(h)
  {
    var r := Apply(w, op);
    match op {
      case AddOp(id, delayMs, now) =>
        forall s: nat, n | r.Holds(s, n) ensures n.handle != h {
          if 0 <= delayMs && id !in w.index { AddHolds(w, id, delayMs, now, s, n); }
          assert w.Holds(s, n) ==> n.handle != h;
        }
      case RemoveOp(id) =>
        forall s: nat, n | r.Holds(s, n) ensures n.handle != h {
          if id in w.index { RemoveHolds(w, id, s, n); }
          assert w.Holds(s, n) || w.Holds(s, n.(isDeleted := false)) ==> n.handle != h;
        }
      case TickOp(now, clock) =>
        assert Advance(w, clock, 0) == w;
        GoneStaysGone(w, clock, 0, StepsIn(w, now), h);
        SameNodes(Advance(w, clock, StepsIn(w, now)), r);
    }
  }

  /**
   * Along every run a tombstone stays in its slot until the cursor reaches it and is physically gone
   * from then on; as no slot is more than 1023 steps away, it is gone after 1024 slot steps at most.
   */
  lemma {:induction false} RunSweepsTombstone(w: Wheel, ops: seq<Op>, s: nat, n: TimerNode)
    requires w.Shape() && WellFormed(w) && w.Holds(s, n) && n.isDeleted
    ensures Distance(w, s) < WHEEL_SIZE
    ensures if RunSteps(w, ops) <= Distance(w, s)
      then Run(w, ops).Holds(s, n) && Distance(Run(w, ops), s) == Distance(w, s) - RunSteps(w, ops)
      else !Run(w, ops).Present(n.handle)
  {
    assert n.handle < w.nextHandle;
    hide WellFormed, Apply, StepsOf, Wheel.Holds, Wheel.Present;
    HeldDistance(w, s, n);
    if ops != [] {
      var before, op := ops[..|ops| - 1], ops[|ops| - 1];
      RunSweepsTombstone(w, before, s, n);
      ViewRefines(w);
      RunRefines(w, ViewOf(w), before);
      var v := Run(w, before);
      if RunSteps(w, before) > Distance(w, s) {
        GoneStays(v, op, n.handle);
      } else if RunSteps(w, ops) <= Distance(w, s) {
        TombstoneStays(v, op, s, n);
      } else {
        TombstoneGoes(v, op, s, n);
      }
    }
  }

  lemma HeldDistance(w: Wheel, s: nat, n: TimerNode)
    requires w.Shape() && w.Holds(s, n)
    ensures 0 <= Distance(w, s) < WHEEL_SIZE
  {
  }

  // ---------------------------------------------------------------- when a removed timer can fire

  /**
   * The entry of `id` names node `h` as long as it is live, and `h` fires before, or in the same slot step as,
   * the cursor reaches any other node of that id, dead or alive.
   */
  ghost predicate Guarded(w: Wheel, id: int, h: nat)
    requires w.Shape()
  {
    && (Alive(w, h) ==> id in w.index && w.index[id].handle == h)
    && (forall s: nat, n, s': nat, n' | LiveNode(w, s, n, h) && w.Holds(s', n') && n'.handle != h && n'.id == id ::
          Remaining(w, s, n) <= Distance(w, s'))
  }

  lemma StepOfLive(w: Wheel, clock: Clock, t: nat, s: nat, n: TimerNode, h: nat) returns (o: TimerNode)
    requires WellFormed(w) && LiveNode(SlotStep(w, clock, t), s, n, h)
    ensures LiveNode(w, s, o, h) && (s == w.current ==> !Leaves(o, clock, t))
    ensures Remaining(SlotStep(w, clock, t), s, n) == Remaining(w, s, o) - 1
  {
    SlotStepHolds(w, clock, t, s, n);
    SlotStepDistance(w, clock, t, s);
    o := if s == w.current then n.(rounds := n.rounds + 1) else n;
  }

  /** Whatever node of `id` the cursor stands on while `h` is live, it is `h` itself or `h` is due here as well. */
  lemma GuardedHere(w: Wheel, id: int, h: nat, s: nat, o: TimerNode, x: TimerNode)
    requires WellFormed(w) && Guarded(w, id, h) && LiveNode(w, s, o, h) && x in w.slots[w.current] && x.id == id
    ensures s == w.current && (x == o || o.rounds <= 0)
  {
    assert w.Holds(w.current, x) && Distance(w, w.current) == 0;
  }

  lemma SlotStepKeepsEntry(w: Wheel, clock: Clock, t: nat, id: int, h: nat)
    requires WellFormed(w) && Guarded(w, id, h) && Alive(SlotStep(w, clock, t), h)
    ensures var r := SlotStep(w, clock, t); id in r.index && r.index[id].handle == h
  {
    var s: nat, n :| LiveNode(SlotStep(w, clock, t), s, n, h);
    var o := StepOfLive(w, clock, t, s, n, h);
    var list := w.slots[w.current];
    UnindexedMember(w.index, list, clock, t, id);
    forall x | x in list && x.id == id ensures !Leaves(x, clock, t) {
      GuardedHere(w, id, h, s, o, x);
    }
  }

  lemma SlotStepKeepsGuarded(w: Wheel, clock: Clock, t: nat, id: int, h: nat)
    requires WellFormed(w) && Guarded(w, id, h)
    ensures Guarded(SlotStep(w, clock, t), id, h)
  {
    var r := SlotStep(w, clock, t);
    if Alive(r, h) { SlotStepKeepsEntry(w, clock, t, id, h); }
    forall s: nat, n, s': nat, n' | LiveNode(r, s, n, h) && r.Holds(s', n') && n'.handle != h && n'.id == id
      ensures Remaining(r, s, n) <= Distance(r, s')
    {
      var o := StepOfLive(w, clock, t, s, n, h);
      SlotStepHolds(w, clock, t, s', n');
      SlotStepDistance(w, clock, t, s');
      var o' := if s' == w.current then n'.(rounds := n'.rounds + 1) else n';
      assert w.Holds(s', o');
    }
  }

  lemma {:induction false} AdvanceKeepsGuarded(w: Wheel, clock: Clock, k: nat, id: int, h: nat)
    requires w.Shape() && WellFormed(w) && Guarded(w, id, h)
    ensures Guarded(Advance(w, clock, k), id, h)
  {
    hide WellFormed, Guarded, SlotStep;
    if k > 0 {
      AdvanceKeepsGuarded(w, clock, k - 1, id, h);
      AdvanceKeepsWellFormed(w, clock, k - 1);
      SlotStepKeepsGuarded(Advance(w, clock, k - 1), clock, k - 1, id, h);
    }
  }

  lemma LiveBeforeRemove(w: Wheel, id: int, s: nat, n: TimerNode)
    requires WellFormed(w) && AfterRemove(w, id).Holds(s, n) && !n.isDeleted
    ensures w.Holds(s, n) && (id in w.index ==> w.index[id].handle != n.handle)
  {
    if id in w.index { RemoveHolds(w, id, s, n); }
  }

  /** Removing a guarded timer removes it indeed. */
  lemma GuardedRemoves(w: Wheel, id: int, h: nat)
    requires WellFormed(w) && Guarded(w, id, h)
    ensures WellFormed(AfterRemove(w, id)) && !Alive(AfterRemove(w, id), h)
  {
    RemoveKeepsWellFormed(w, id);
    forall s: nat, n ensures !LiveNode(AfterRemove(w, id), s, n, h) {
      if LiveNode(AfterRemove(w, id), s, n, h) {
        LiveBeforeRemove(w, id, s, n);
        assert LiveNode(w, s, n, h) && Alive(w, h);
        assert false;
      }
    }
  }

  /** A node of `id`, dead or alive, that the cursor reaches before a timer armed now with this delay runs out. */
  ghost predicate NodeAhead(w: Wheel, id: int, delayMs: nat)
    requires w.Shape()
  {
    exists s: nat, n :: w.Holds(s, n) && n.id == id && Distance(w, s) < delayMs / w.tickMs
  }

  lemma ArmedGuarded(w: Wheel, id: int, delayMs: nat, reg: int)
    requires w.Shape() && WellFormed(w) && id !in w.index && !NodeAhead(w, id, delayMs)
    ensures Guarded(AfterAdd(w, id, delayMs, reg), id, w.nextHandle)
  {
    var r := AfterAdd(w, id, delayMs, reg);
    AddedRemaining(w, delayMs);
    forall s: nat, n
      ensures r.Holds(s, n) <==> w.Holds(s, n) || (s == TargetSlot(w, delayMs) && n == NewNode(w, id, delayMs, reg))
    {
      AddHolds(w, id, delayMs, reg, s, n);
    }
    forall s: nat, n, s': nat, n' | LiveNode(r, s, n, w.nextHandle) && r.Holds(s', n') && n'.handle != w.nextHandle && n'.id == id
      ensures Remaining(r, s, n) <= Distance(r, s')
    {
      assert n == NewNode(w, id, delayMs, reg) && w.Holds(s', n');
    }
  }

  /** Slot steps, a removal of `id`, more slot steps: the timer fires all the same. */
  ghost predicate FiresRemoved(r: Wheel, id: int, h: nat, clock: Clock, k: nat, later: Clock, more: nat)
    requires r.Shape()
  {
    Times(AdvanceFired(AfterRemove(Advance(r, clock, k), id), later, more), h) > 0
  }

  ghost predicate CanFireRemoved(r: Wheel, id: int, h: nat)
    requires r.Shape()
  {
    exists clock: Clock, k: nat, later: Clock, more: nat :: FiresRemoved(r, id, h, clock, k, later, more)
  }

  lemma GuardedNeverFiresRemoved(r: Wheel, id: int, h: nat, clock: Clock, k: nat, later: Clock, more: nat)
    requires r.Shape() && WellFormed(r) && Guarded(r, id, h)
    ensures !FiresRemoved(r, id, h, clock, k, later, more)
  {
    hide WellFormed, Guarded, Refines, Advance, AdvanceFired, AfterRemove;
    AdvanceKeepsWellFormed(r, clock, k);
    AdvanceKeepsGuarded(r, clock, k, id, h);
    var v := AfterRemove(Advance(r, clock, k), id);
    GuardedRemoves(Advance(r, clock, k), id, h);
    ViewRefines(v);
    AdvanceFires(v, ViewOf(v), later, more, h);
  }

  /** A node that leaves at the first visit of its slot erases the entry of the timer armed since. */
  lemma LeavingErases(r: Wheel, clock: Clock, s: nat, n: TimerNode)
    requires r.Shape() && WellFormed(r) && r.Holds(s, n)
    requires n.isDeleted || forall t: nat :: clock(t, n.handle) >= n.expire
    ensures Distance(r, s) >= 0 && n.id !in Advance(r, clock, Distance(r, s) + 1).index
  {
    hide WellFormed, SlotStep;
    HeldDistance(r, s, n);
    var d := Distance(r, s);
    StaysUntilVisited(r, clock, d, s, n);
    var a := Advance(r, clock, d);
    assert Leaves(n, clock, d);
    LeavingUnindexed(a, clock, d, n);
    assert Advance(r, clock, d + 1) == SlotStep(a, clock, d);
  }

  lemma LeavingUnindexed(a: Wheel, clock: Clock, t: nat, n: TimerNode)
    requires a.Shape() && n in a.slots[a.current] && Leaves(n, clock, t)
    ensures n.id !in SlotStep(a, clock, t).index
  {
    UnindexedMember(a.index, a.slots[a.current], clock, t, n.id);
  }

  /** A live timer without an entry fires although it is removed. */
  lemma MissedByRemoval(v: Wheel, m: Countdowns, id: int, h: nat, clock: Clock)
    requires v.Shape() && WellFormed(v) && Refines(v, m) && id !in v.index && h in m
    requires forall t: nat :: clock(t, h) < m[h].expire
    ensures Times(AdvanceFired(AfterRemove(v, id), clock, m[h].remaining + 1), h) > 0
  {
    hide WellFormed, Refines, AdvanceFired, Times;
    QuietAdvance(m, clock, m[h].remaining + 1, h);
    AdvanceFires(v, m, clock, m[h].remaining + 1, h);
  }

  /** A clock by which the new timer is never past its expiry and everything else is. */
  function Hurried(h: nat, due: int, expire: int): Clock {
    (t: nat, x: nat) => if x == h then expire - 1 else due
  }

  /** The node ahead leaves when the cursor reaches it; the timer armed since counts on, without an entry. */
  lemma AheadOrphans(w: Wheel, id: int, delayMs: nat, reg: int, s: nat, n: TimerNode, clock: Clock)
    requires w.Shape() && WellFormed(w) && id !in w.index
    requires w.Holds(s, n) && n.id == id && Distance(w, s) < delayMs / w.tickMs
    requires clock == Hurried(w.nextHandle, n.expire, reg + delayMs * NS_PER_MS)
    ensures Distance(w, s) >= 0 && id !in Advance(AfterAdd(w, id, delayMs, reg), clock, Distance(w, s) + 1).index
  {
    assert n.handle < w.nextHandle;
    hide WellFormed, Refines, AfterAdd, Advance, Wheel.Holds, ArmedView;
    StillHeld(w, id, delayMs, reg, s, n);
    Armed(w, id, delayMs, reg);
    LeavingErases(AfterAdd(w, id, delayMs, reg), clock, s, n);
  }

  lemma StillCounts(w: Wheel, id: int, delayMs: nat, reg: int, clock: Clock, due: int, k: nat)
    requires w.Shape() && WellFormed(w) && id !in w.index && k <= delayMs / w.tickMs
    requires clock == Hurried(w.nextHandle, due, reg + delayMs * NS_PER_MS)
    ensures var v := Advance(AfterAdd(w, id, delayMs, reg), clock, k);
      var c := CountdownAdvance(ArmedView(w, id, delayMs, reg), clock, k);
      && WellFormed(v) && Refines(v, c)
      && w.nextHandle in c && c[w.nextHandle].expire == reg + delayMs * NS_PER_MS
  {
    hide WellFormed, Refines, AfterAdd, Advance, ArmedView;
    var r, m := AfterAdd(w, id, delayMs, reg), ArmedView(w, id, delayMs, reg);
    Armed(w, id, delayMs, reg);
    ArmedCountdown(w, id, delayMs, reg);
    AdvanceRefines(r, m, clock, k);
    AdvanceKeepsWellFormed(r, clock, k);
    QuietAdvance(m, clock, k, w.nextHandle);
    CountdownAt(m, clock, k, w.nextHandle);
  }

  lemma NodeAheadFires(w: Wheel, id: int, delayMs: nat, reg: int, s: nat, n: TimerNode)
    requires w.Shape() && WellFormed(w) && id !in w.index
    requires w.Holds(s, n) && n.id == id && Distance(w, s) < delayMs / w.tickMs
    ensures CanFireRemoved(AfterAdd(w, id, delayMs, reg), id, w.nextHandle)
  {
    hide WellFormed, Refines, AfterAdd, AfterRemove, Advance, AdvanceFired, Wheel.Holds, ArmedView, Times, CountdownAdvance;
    var r, h := AfterAdd(w, id, delayMs, reg), w.nextHandle;
    var clock := Hurried(h, n.expire, reg + delayMs * NS_PER_MS);
    AheadOrphans(w, id, delayMs, reg, s, n, clock);
    var k := Distance(w, s) + 1;
    StillCounts(w, id, delayMs, reg, clock, n.expire, k);
    var c := CountdownAdvance(ArmedView(w, id, delayMs, reg), clock, k);
    MissedByRemoval(Advance(r, clock, k), c, id, h, clock);
    assert FiresRemoved(r, id, h, clock, k, clock, c[h].remaining + 1);
  }

  lemma StillHeld(w: Wheel, id: int, delayMs: nat, reg: int, s: nat, n: TimerNode)
    requires w.Shape() && w.Holds(s, n)
    ensures AfterAdd(w, id, delayMs, reg).Holds(s, n)
    ensures Distance(AfterAdd(w, id, delayMs, reg), s) == Distance(w, s)
  {
    if id !in w.index { AddHolds(w, id, delayMs, reg, s, n); }
  }

  lemma ArmedCountdown(w: Wheel, id: int, delayMs: nat, reg: int)
    requires w.Shape()
    ensures var m := ArmedView(w, id, delayMs, reg);
      w.nextHandle in m && m[w.nextHandle] == Countdown(id, delayMs / w.tickMs, reg + delayMs * NS_PER_MS)
  {
  }

  /**
   * "A removed timer never fires" fails exactly when, at its arming, the wheel still holds another node of the
   * same id that the cursor reaches before the timer runs out. That node may be a tombstone, or a live node that
   * an earlier sweep has left without an entry. Leaving the wheel, it erases the timer's entry, so the removal
   * finds nothing and the timer fires.
   */
  lemma RemovedFiresIff(w: Wheel, id: int, delayMs: nat, reg: int)
    requires w.Shape() && WellFormed(w) && id !in w.index
    ensures CanFireRemoved(AfterAdd(w, id, delayMs, reg), id, w.nextHandle) <==> NodeAhead(w, id, delayMs)
  {
    var r, h := AfterAdd(w, id, delayMs, reg), w.nextHandle;
    if NodeAhead(w, id, delayMs) {
      var s: nat, n :| w.Holds(s, n) && n.id == id && Distance(w, s) < delayMs / w.tickMs;
      hide WellFormed, AfterAdd;
      NodeAheadFires(w, id, delayMs, reg, s, n);
    } else {
      hide WellFormed, AfterAdd, Guarded, FiresRemoved;
      Armed(w, id, delayMs, reg);
      ArmedGuarded(w, id, delayMs, reg);
      forall clock: Clock, k: nat, later: Clock, more: nat ensures !FiresRemoved(r, id, h, clock, k, later, more) {
        GuardedNeverFiresRemoved(r, id, h, clock, k, later, more);
      }
    }
  }

  /**
   * The live case, reached from the empty wheel: id 7 is armed, removed, armed again and left without an entry by
   * the sweep. No tombstone is left, and a third timer of id 7 can fire although it is removed.
   */
  lemma OrphanLetsRemovedFire(clock: Clock, reg: int)
    ensures var w := SlotStep(AfterAdd(AfterRemove(AfterAdd(Empty(10, 0), 7, 0, 0), 7), 7, 20, 0), clock, 0);
      && 7 !in w.index && !TombstoneOf(w, 7)
      && CanFireRemoved(AfterAdd(w, 7, 30, reg), 7, w.nextHandle)
  {
    var first := AfterAdd(Empty(10, 0), 7, 0, 0);
    var removed := AfterRemove(first, 7);
    var dead, live := TimerNode(0, 7, 0, true, 0), TimerNode(1, 7, 20 * NS_PER_MS, false, 0);
    assert first.slots[0] == [TimerNode(0, 7, 0, false, 0)];
    assert removed.slots[0] == [dead];
    var added := AfterAdd(removed, 7, 20, 0);
    assert added.slots[0] == [dead] && added.slots[1] == [] && added.slots[2] == [live];
    assert forall s | 2 < s < WHEEL_SIZE :: added.slots[s] == [];
    var w := SlotStep(added, clock, 0);
    UnindexedMember(added.index, added.slots[0], clock, 0, 7);
    assert dead in added.slots[0];
    assert Kept([dead], clock, 0) == Kept([], clock, 0) == [];
    assert w.current == 1 && w.slots[2] == [live] && w.Holds(2, live);
    assert NodeAhead(w, 7, 30);
    OrphanRunSound(clock);
    hide WellFormed, SlotStep, AfterAdd, AfterRemove;
    RemovedFiresIff(w, 7, 30, reg);
  }

  lemma OrphanRunSound(clock: Clock)
    ensures WellFormed(SlotStep(AfterAdd(AfterRemove(AfterAdd(Empty(10, 0), 7, 0, 0), 7), 7, 20, 0), clock, 0))
  {
    hide WellFormed, SlotStep, AfterAdd, AfterRemove;
    EmptyIsSound(10, 0);
    var w := Empty(10, 0);
    AddKeepsWellFormed(w, 7, 0, 0);
    RemoveKeepsWellFormed(AfterAdd(w, 7, 0, 0), 7);
    AddKeepsWellFormed(AfterRemove(AfterAdd(w, 7, 0, 0), 7), 7, 20, 0);
    SlotStepKeepsWellFormed(AfterAdd(AfterRemove(AfterAdd(w, 7, 0, 0), 7), 7, 20, 0), clock, 0);
  }

  // ---------------------------------------------------------------- the same along every run

  /** Operations on other ids, and ticks. */
  ghost predicate Spares(ops: seq<Op>, id: int) {
    forall op | op in ops :: (op.AddOp? || op.RemoveOp?) ==> op.id != id
  }

  lemma ApplyKeepsGuarded(w: Wheel, op: Op, id: int, h: nat)
    requires w.Shape() && WellFormed(w) && Guarded(w, id, h) && h < w.nextHandle
    requires (op.AddOp? || op.RemoveOp?) ==> op.id != id
    ensures Guarded(Apply(w, op), id, h)
  {
    match op {
      case AddOp(other, delayMs, now) => AddKeepsGuarded(w, other, delayMs, now, id, h);
      case RemoveOp(other) => RemoveKeepsGuarded(w, other, id, h);
      case TickOp(now, clock) =>
        AdvanceKeepsGuarded(w, clock, StepsIn(w, now), id, h);
        SameGuarded(Advance(w, clock, StepsIn(w, now)), Apply(w, op), id, h);
    }
  }

  lemma SameGuarded(a: Wheel, r: Wheel, id: int, h: nat)
    requires a.Shape() && r.Shape() && Guarded(a, id, h)
    requires r.slots == a.slots && r.index == a.index && r.current == a.current
    ensures Guarded(r, id, h)
  {
    assert forall s: nat, n :: r.Holds(s, n) == a.Holds(s, n);
    assert forall s: nat, n :: LiveNode(r, s, n, h) == LiveNode(a, s, n, h);
  }

  lemma AddKeepsGuarded(w: Wheel, other: int, delayMs: int, now: int, id: int, h: nat)
    requires w.Shape() && WellFormed(w) && Guarded(w, id, h) && h < w.nextHandle && other != id
    ensures Guarded(AfterAdd(w, other, delayMs, now), id, h)
  {
    if 0 <= delayMs && other !in w.index {
      var r := AfterAdd(w, other, delayMs, now);
      forall s: nat, n
        ensures r.Holds(s, n) <==> w.Holds(s, n) || (s == TargetSlot(w, delayMs) && n == NewNode(w, other, delayMs, now))
      {
        AddHolds(w, other, delayMs, now, s, n);
      }
      assert forall s: nat, n :: LiveNode(r, s, n, h) ==> LiveNode(w, s, n, h);
    }
  }

  lemma RemoveKeepsGuarded(w: Wheel, other: int, id: int, h: nat)
    requires w.Shape() && WellFormed(w) && Guarded(w, id, h) && other != id
    ensures Guarded(AfterRemove(w, other), id, h)
  {
    if other in w.index {
      var r := AfterRemove(w, other);
      var target :| Target(w, other, target);
      forall s: nat, n | r.Holds(s, n)
        ensures n.id == id ==> w.Holds(s, n)
        ensures !n.isDeleted ==> w.Holds(s, n)
      {
        RemoveHolds(w, other, s, n);
      }
      assert forall s: nat, n :: LiveNode(r, s, n, h) ==> LiveNode(w, s, n, h);
    }
  }

  lemma {:induction false} RunKeepsGuarded(w: Wheel, ops: seq<Op>, id: int, h: nat)
    requires w.Shape() && WellFormed(w) && Guarded(w, id, h) && h < w.nextHandle && Spares(ops, id)
    ensures WellFormed(Run(w, ops)) && Guarded(Run(w, ops), id, h)
  {
    hide WellFormed, Guarded, Apply;
    if ops != [] {
      var before := ops[..|ops| - 1];
      assert forall op | op in before :: op in ops;
      RunKeepsGuarded(w, before, id, h);
      var v := Run(w, before);
      ViewRefines(v);
      ApplyRefines(v, ViewOf(v), ops[|ops| - 1]);
      ApplyKeepsGuarded(v, ops[|ops| - 1], id, h);
    }
  }

  /** A node that is not alive never fires. */
  lemma {:induction false} DeadNeverFires(w: Wheel, m: Countdowns, ops: seq<Op>, h: nat)
    requires w.Shape() && WellFormed(w) && Refines(w, m) && h !in m && h < w.nextHandle
    ensures h !in RunCountdown(m, w, ops) && Times(RunFired(w, ops), h) == 0
  {
    hide WellFormed, Refines, Apply, AfterTick, SlotStep;
    if ops != [] {
      var before, op := ops[..|ops| - 1], ops[|ops| - 1];
      DeadNeverFires(w, m, before, h);
      RunRefines(w, m, before);
      var v := Run(w, before);
      TimesConcat(RunFired(w, before), Fires(v, op), h);
      if op.TickOp? { FiresTimes(v, RunCountdown(m, w, before), op, h); }
    }
  }

  /**
   * And when no such node is there, removal works along every run: whatever happens to other ids before
   * and whatever happens at all afterwards, the removed timer does not fire.
   */
  lemma RemovalWorks(w: Wheel, id: int, delayMs: nat, reg: int, ops: seq<Op>, more: seq<Op>)
    requires w.Shape() && WellFormed(w) && id !in w.index && !NodeAhead(w, id, delayMs)
    requires Spares(ops, id)
    ensures Times(RunFired(AfterRemove(Run(AfterAdd(w, id, delayMs, reg), ops), id), more), w.nextHandle) == 0
  {
    hide WellFormed, Guarded, Refines, AfterAdd, AfterRemove, Run, RunFired, Times, Spares;
    var r, h := AfterAdd(w, id, delayMs, reg), w.nextHandle;
    Armed(w, id, delayMs, reg);
    ArmedGuarded(w, id, delayMs, reg);
    RunKeepsGuarded(r, ops, id, h);
    var v := AfterRemove(Run(r, ops), id);
    GuardedRemoves(Run(r, ops), id, h);
    ViewRefines(v);
    RemoveKeepsHandles(Run(r, ops), id);
    DeadNeverFires(v, ViewOf(v), more, h);
  }

  lemma RemoveKeepsHandles(w: Wheel, id: int)
    requires w.Shape()
    ensures AfterRemove(w, id).nextHandle == w.nextHandle
  {
  }
}
