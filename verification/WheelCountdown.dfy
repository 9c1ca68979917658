/**
 * The wheel refines a plain countdown map: slots, rounds and the cursor are one
 * number per timer, decremented at every slot step, and a timer fires at zero.
 */
module WheelCountdown {
  import opened TimingWheel
  import opened WheelIntegrity

  datatype Countdown = Countdown(id: int, remaining: nat, expire: int)

  type Countdowns = map<nat, Countdown>

  function Remaining(w: Wheel, s: nat, n: TimerNode): nat
    requires w.Shape() && s < WHEEL_SIZE
  {
    Distance(w, s) + WHEEL_SIZE * n.rounds
  }

  ghost predicate LiveNode(w: Wheel, s: nat, n: TimerNode, h: nat) {
    w.Holds(s, n) && !n.isDeleted && n.handle == h
  }

  /** `m` is the wheel `w` seen as a countdown map. */
  ghost predicate Refines(w: Wheel, m: Countdowns) {
    && w.Shape()
    && (forall s: nat, n | w.Holds(s, n) && !n.isDeleted ::
          n.handle in m && m[n.handle] == Countdown(n.id, Remaining(w, s, n), n.expire))
    && (forall h | h in m :: exists s: nat, n :: LiveNode(w, s, n, h))
  }

  /** At zero, or on a multiple of 1024 (the slot is being visited) once `expire` has passed. */
  predicate IsDue(c: Countdown, reading: int) {
    c.remaining == 0 || (c.remaining % WHEEL_SIZE == 0 && reading >= c.expire)
  }

  function CountdownStep(m: Countdowns, clock: Clock, t: nat): Countdowns {
    map h | h in m && !IsDue(m[h], clock(t, h)) :: m[h].(remaining := m[h].remaining - 1)
  }

  function CountdownAdvance(m: Countdowns, clock: Clock, k: nat): Countdowns {
    if k == 0 then m else CountdownStep(CountdownAdvance(m, clock, k - 1), clock, k - 1)
  }

  /** How often the callback of timer `h` runs. */
  function Times(fired: seq<TimerNode>, h: nat): nat {
    if fired == [] then 0 else (if fired[0].handle == h then 1 else 0) + Times(fired[1..], h)
  }

  lemma {:induction false} TimesConcat(a: seq<TimerNode>, b: seq<TimerNode>, h: nat)
    ensures Times(a + b, h) == Times(a, h) + Times(b, h)
  {
    if a == [] {
      assert a + b == b;
    } else {
      TimesConcat(a[1..], b, h);
      assert (a + b)[1..] == a[1..] + b;
    }
  }

  // ---------------------------------------------------------------- one slot step

  lemma {:induction false} FiredTimes(list: seq<TimerNode>, clock: Clock, t: nat, h: nat)
    requires Increasing(list)
    ensures Times(Fired(list, clock, t), h)
         == if exists n :: n in list && !n.isDeleted && n.handle == h && Due(n, clock, t) then 1 else 0
  {
    if list != [] {
      var first, rest := list[0], list[1..];
      FiredTimes(rest, clock, t, h);
      assert list == [first] + rest;
      if first.handle == h {
        forall n | n in rest ensures n.handle != h {
          var k :| 0 <= k < |rest| && rest[k] == n;
          assert list[k + 1] == n;
        }
      }
      if !first.isDeleted && Due(first, clock, t) {
        assert Fired(list, clock, t)[1..] == Fired(rest, clock, t);
      }
    }
  }

  lemma DueMeansDue(w: Wheel, s: nat, n: TimerNode, clock: Clock, t: nat)
    requires w.Shape() && w.Holds(s, n)
    ensures IsDue(Countdown(n.id, Remaining(w, s, n), n.expire), clock(t, n.handle))
      <==> s == w.current && Due(n, clock, t)
  {
    var r := Remaining(w, s, n);
    assert r % WHEEL_SIZE == Distance(w, s);
  }

  /** One slot step of the wheel is one step of the countdown map, and fires exactly what the map says. */
  lemma SlotStepRefines(w: Wheel, m: Countdowns, clock: Clock, t: nat)
    requires WellFormed(w) && Refines(w, m)
    ensures Refines(SlotStep(w, clock, t), CountdownStep(m, clock, t))
    ensures forall h: nat ::
      Times(StepFired(w, clock, t), h) == if h in m && IsDue(m[h], clock(t, h)) then 1 else 0
  {
    var r, m' := SlotStep(w, clock, t), CountdownStep(m, clock, t);
    forall s: nat, n | r.Holds(s, n) && !n.isDeleted
      ensures n.handle in m' && m'[n.handle] == Countdown(n.id, Remaining(r, s, n), n.expire)
    {
      SlotStepHolds(w, clock, t, s, n);
      SlotStepDistance(w, clock, t, s);
      var o := if s == w.current then n.(rounds := n.rounds + 1) else n;
      assert w.Holds(s, o);
      DueMeansDue(w, s, o, clock, t);
    }
    forall h | h in m' ensures exists s: nat, n :: LiveNode(r, s, n, h) {
      var s: nat, o :| LiveNode(w, s, o, h);
      DueMeansDue(w, s, o, clock, t);
      var n := if s == w.current then o.(rounds := o.rounds - 1) else o;
      SlotStepHolds(w, clock, t, s, n);
      assert n.(rounds := n.rounds + 1) == o || n == o;
      assert LiveNode(r, s, n, h);
    }
    forall h: nat
      ensures Times(StepFired(w, clock, t), h) == if h in m && IsDue(m[h], clock(t, h)) then 1 else 0
    {
      StepFiredTimes(w, m, clock, t, h);
    }
  }

  lemma StepFiredTimes(w: Wheel, m: Countdowns, clock: Clock, t: nat, h: nat)
    requires WellFormed(w) && Refines(w, m)
    ensures Times(StepFired(w, clock, t), h) == if h in m && IsDue(m[h], clock(t, h)) then 1 else 0
  {
    var list := w.slots[w.current];
    FiredTimes(list, clock, t, h);
    if n :| n in list && !n.isDeleted && n.handle == h && Due(n, clock, t) {
      assert w.Holds(w.current, n);
      DueMeansDue(w, w.current, n, clock, t);
    } else if h in m {
      var s: nat, o :| LiveNode(w, s, o, h);
      DueMeansDue(w, s, o, clock, t);
    }
  }

  /** Over any number of slot steps the wheel stays a countdown map. */
  lemma {:induction false} AdvanceRefines(w: Wheel, m: Countdowns, clock: Clock, k: nat)
    requires w.Shape() && WellFormed(w) && Refines(w, m)
    ensures Refines(Advance(w, clock, k), CountdownAdvance(m, clock, k))
  {
    hide Refines, WellFormed, SlotStep, CountdownStep;
    if k > 0 {
      AdvanceRefines(w, m, clock, k - 1);
      AdvanceKeepsWellFormed(w, clock, k - 1);
      SlotStepRefines(Advance(w, clock, k - 1), CountdownAdvance(m, clock, k - 1), clock, k - 1);
    }
  }

  /** A timer fires exactly once if it drops out of the map, and not at all otherwise. */
  lemma {:induction false} AdvanceFires(w: Wheel, m: Countdowns, clock: Clock, k: nat, h: nat)
    requires w.Shape() && WellFormed(w) && Refines(w, m)
    ensures h in CountdownAdvance(m, clock, k) ==> h in m
    ensures Times(AdvanceFired(w, clock, k), h) == if h in m && h !in CountdownAdvance(m, clock, k) then 1 else 0
  {
    hide Refines, WellFormed, SlotStep, StepFired, IsDue;
    if k > 0 {
      AdvanceFires(w, m, clock, k - 1, h);
      AdvanceRefines(w, m, clock, k - 1);
      AdvanceKeepsWellFormed(w, clock, k - 1);
      var a, c := Advance(w, clock, k - 1), CountdownAdvance(m, clock, k - 1);
      StepFiredTimes(a, c, clock, k - 1, h);
      TimesConcat(AdvanceFired(w, clock, k - 1), StepFired(a, clock, k - 1), h);
    }
  }

  // ---------------------------------------------------------------- adding and removing

  lemma EmptyRefines(tickMs: int, now: int)
    requires 0 < tickMs
    ensures Refines(Empty(tickMs, now), map[])
  {
  }

  /** A fresh timer starts at delay / tick. */
  lemma AddRefines(w: Wheel, m: Countdowns, id: int, delayMs: int, now: int)
    requires WellFormed(w) && Refines(w, m)
    ensures w.nextHandle !in m
    ensures Refines(AfterAdd(w, id, delayMs, now),
      if delayMs < 0 || id in w.index then m
      else m[w.nextHandle := Countdown(id, delayMs / w.tickMs, now + delayMs * NS_PER_MS)])
  {
    assert forall s: nat, n :: !LiveNode(w, s, n, w.nextHandle);
    if 0 <= delayMs && id !in w.index {
      var r := AfterAdd(w, id, delayMs, now);
      var slot, node := TargetSlot(w, delayMs), NewNode(w, id, delayMs, now);
      var m' := m[w.nextHandle := Countdown(id, delayMs / w.tickMs, now + delayMs * NS_PER_MS)];
      AddedRemaining(w, delayMs);
      forall s: nat, n | r.Holds(s, n) && !n.isDeleted
        ensures n.handle in m' && m'[n.handle] == Countdown(n.id, Remaining(r, s, n), n.expire)
      {
        AddHolds(w, id, delayMs, now, s, n);
      }
      forall h | h in m' ensures exists s: nat, n :: LiveNode(r, s, n, h) {
        if h == w.nextHandle {
          assert LiveNode(r, slot, node, h);
        } else {
          var s: nat, n :| LiveNode(w, s, n, h);
          AddHolds(w, id, delayMs, now, s, n);
          assert LiveNode(r, s, n, h);
        }
      }
    }
  }

  lemma AddedRemaining(w: Wheel, delayMs: nat)
    requires w.Shape()
    ensures Distance(w, TargetSlot(w, delayMs)) + WHEEL_SIZE * (TotalSlots(w, delayMs) / WHEEL_SIZE) == TotalSlots(w, delayMs)
  {
    hide TotalSlots;
  }

  lemma RemoveRefines(w: Wheel, m: Countdowns, id: int)
    requires WellFormed(w) && Refines(w, m)
    ensures Refines(AfterRemove(w, id), if id in w.index then m - {w.index[id].handle} else m)
    ensures id in w.index ==> w.index[id].handle in m && m[w.index[id].handle].id == id
  {
    if id in w.index {
      var r, e := AfterRemove(w, id), w.index[id];
      var m' := m - {e.handle};
      var target :| Target(w, id, target);
      forall s: nat, n | r.Holds(s, n) && !n.isDeleted
        ensures n.handle in m' && m'[n.handle] == Countdown(n.id, Remaining(r, s, n), n.expire)
      {
        RemoveHolds(w, id, s, n);
      }
      forall h | h in m' ensures exists s: nat, n :: LiveNode(r, s, n, h) {
        var s: nat, n :| LiveNode(w, s, n, h);
        RemoveHolds(w, id, s, n);
        assert LiveNode(r, s, n, h);
      }
    }
  }

  // ---------------------------------------------------------------- the view by id

  ghost predicate FiresId(fired: seq<TimerNode>, id: int) {
    exists n :: n in fired && n.id == id
  }

  /**
   * While the index is a bijection, a tick takes from the index exactly the ids it fires:
   * seen by id, arming inserts, removing erases, and ticking erases what fires.
   */
  lemma {:induction false} AdvanceIndex(w: Wheel, clock: Clock, k: nat, id: int)
    requires w.Shape() && WellFormed(w) && Bijective(w)
    ensures id in Advance(w, clock, k).index <==> id in w.index && !FiresId(AdvanceFired(w, clock, k), id)
  {
    hide Bijective, WellFormed, SlotStep, StepFired;
    if k > 0 {
      AdvanceIndex(w, clock, k - 1, id);
      AdvanceKeepsBijective(w, clock, k - 1);
      AdvanceKeepsWellFormed(w, clock, k - 1);
      var a := Advance(w, clock, k - 1);
      SlotStepIndex(a, clock, k - 1, id);
      FiresConcat(AdvanceFired(w, clock, k - 1), StepFired(a, clock, k - 1), id);
    }
  }

  lemma FiresConcat(a: seq<TimerNode>, b: seq<TimerNode>, id: int)
    ensures FiresId(a + b, id) <==> FiresId(a, id) || FiresId(b, id)
  {
    assert forall n :: n in a + b <==> n in a || n in b;
  }

  lemma SlotStepIndex(w: Wheel, clock: Clock, t: nat, id: int)
    requires WellFormed(w) && Bijective(w)
    ensures id in SlotStep(w, clock, t).index <==> id in w.index && !FiresId(StepFired(w, clock, t), id)
  {
    var list := w.slots[w.current];
    UnindexedMember(w.index, list, clock, t, id);
    forall n ensures n in StepFired(w, clock, t) ==> n in list && Leaves(n, clock, t) {
      FiredMember(list, clock, t, n);
    }
    if id in w.index {
      var target :| Target(w, id, target);
      forall n | n in list && n.id == id ensures Leaves(n, clock, t) ==> n in StepFired(w, clock, t) {
        assert w.Holds(w.current, n);
        assert n.isDeleted ==> TombstoneOf(w, target.id);
        FiredMember(list, clock, t, n);
      }
    }
  }
}
