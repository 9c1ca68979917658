/**
 * Structural facts about the wheel: the index never dangles, when it is a
 * bijection with the live timers, and what becomes of removed timers.
 */
module WheelIntegrity {
  import opened TimingWheel

  // ---------------------------------------------------------------- membership in a visited slot

  lemma {:induction false} KeptMember(list: seq<TimerNode>, clock: Clock, t: nat, n: TimerNode)
    ensures n in Kept(list, clock, t)
      <==> var o := n.(rounds := n.rounds + 1); o in list && !Leaves(o, clock, t)
  {
    if list != [] {
      KeptMember(list[1..], clock, t, n);
      assert list == [list[0]] + list[1..];
    }
  }

  lemma {:induction false} FiredMember(list: seq<TimerNode>, clock: Clock, t: nat, n: TimerNode)
    ensures n in Fired(list, clock, t) <==> n in list && !n.isDeleted && Due(n, clock, t)
  {
    if list != [] {
      FiredMember(list[1..], clock, t, n);
      assert list == [list[0]] + list[1..];
    }
  }

  /** An id keeps its entry exactly when no node bearing it leaves the slot. */
  lemma {:induction false} UnindexedMember(index: map<int, Entry>, list: seq<TimerNode>, clock: Clock, t: nat, id: int)
    ensures id in Unindexed(index, list, clock, t)
      <==> id in index && forall n | n in list && n.id == id :: !Leaves(n, clock, t)
  {
    if list != [] {
      var smaller := if Leaves(list[0], clock, t) then index - {list[0].id} else index;
      UnindexedMember(smaller, list[1..], clock, t, id);
      assert list == [list[0]] + list[1..];
    }
  }

  /** Membership in every slot after a slot step. */
  lemma SlotStepHolds(w: Wheel, clock: Clock, t: nat, s: nat, n: TimerNode)
    requires w.Shape()
    ensures SlotStep(w, clock, t).Holds(s, n) <==>
      if s == w.current
      then var o := n.(rounds := n.rounds + 1); w.Holds(s, o) && !Leaves(o, clock, t)
      else w.Holds(s, n)
  {
    KeptMember(w.slots[w.current], clock, t, n);
  }

  // ---------------------------------------------------------------- the invariant

  ghost predicate Increasing(list: seq<TimerNode>) {
    forall i, j | 0 <= i < j < |list| :: list[i].handle < list[j].handle
  }

  /** One node per handle, and handles are in insertion order within a slot. */
  ghost predicate Handles(w: Wheel) {
    && (forall s: nat, n | w.Holds(s, n) :: n.handle < w.nextHandle)
    && (forall s: nat, n, s': nat, n' | w.Holds(s, n) && w.Holds(s', n') && n.handle == n'.handle :: s == s' && n == n')
    && (forall s: nat | s < |w.slots| :: Increasing(w.slots[s]))
  }

  ghost predicate Target(w: Wheel, id: int, n: TimerNode)
    requires id in w.index
  {
    w.Holds(w.index[id].slot, n) && n.handle == w.index[id].handle && n.id == id && !n.isDeleted
  }

  /** Every index entry names a live node that is in the slot it says. */
  ghost predicate NoDangling(w: Wheel) {
    forall id | id in w.index :: exists n :: Target(w, id, n)
  }

  ghost predicate WellFormed(w: Wheel) {
    w.Shape() && Handles(w) && NoDangling(w)
  }

  /** The other direction: every live node is the one its id's entry names. */
  ghost predicate Indexed(w: Wheel) {
    forall s: nat, n | w.Holds(s, n) && !n.isDeleted :: n.id in w.index && w.index[n.id] == Entry(s, n.handle)
  }

  ghost predicate TombstoneOf(w: Wheel, id: int) {
    exists s: nat, n :: w.Holds(s, n) && n.isDeleted && n.id == id
  }

  ghost predicate Unshadowed(w: Wheel) {
    forall s: nat, n | w.Holds(s, n) && !n.isDeleted :: !TombstoneOf(w, n.id)
  }

  /** The index is a bijection with the live nodes, and sweeping a tombstone cannot break it. */
  ghost predicate Bijective(w: Wheel) {
    Indexed(w) && Unshadowed(w)
  }

  // ---------------------------------------------------------------- preservation

  lemma EmptyIsSound(tickMs: int, now: int)
    requires 0 < tickMs
    ensures WellFormed(Empty(tickMs, now)) && Bijective(Empty(tickMs, now))
  {
  }

  lemma AddHolds(w: Wheel, id: int, delayMs: int, now: int, s: nat, n: TimerNode)
    requires w.Shape() && 0 <= delayMs && id !in w.index
    ensures AfterAdd(w, id, delayMs, now).Holds(s, n) <==>
      w.Holds(s, n) || (s == TargetSlot(w, delayMs) && n == NewNode(w, id, delayMs, now))
  {
    hide TargetSlot, NewNode, Wheel.Shape;
    var slot, node := TargetSlot(w, delayMs), NewNode(w, id, delayMs, now);
    assert |w.slots| == WHEEL_SIZE by { ShapeSlots(w); }
    assert AfterAdd(w, id, delayMs, now).slots == w.slots[slot := w.slots[slot] + [node]];
  }

  lemma ShapeSlots(w: Wheel)
    requires w.Shape()
    ensures |w.slots| == WHEEL_SIZE
  {
  }

  lemma AddKeepsWellFormed(w: Wheel, id: int, delayMs: int, now: int)
    requires WellFormed(w)
    ensures WellFormed(AfterAdd(w, id, delayMs, now))
  {
    if 0 <= delayMs && id !in w.index {
      var r := AfterAdd(w, id, delayMs, now);
      forall s: nat, n ensures r.Holds(s, n) ==> n.handle < r.nextHandle {
        AddHolds(w, id, delayMs, now, s, n);
      }
      forall s: nat, n, s': nat, n' | r.Holds(s, n) && r.Holds(s', n') && n.handle == n'.handle
        ensures s == s' && n == n'
      {
        AddHolds(w, id, delayMs, now, s, n);
        AddHolds(w, id, delayMs, now, s', n');
      }
      forall s: nat | s < |r.slots| ensures Increasing(r.slots[s]) {
        assert Increasing(w.slots[s]);
        forall i | 0 <= i < |w.slots[s]| ensures w.slots[s][i].handle < w.nextHandle {
          assert w.Holds(s, w.slots[s][i]);
        }
      }
      forall other | other in r.index ensures exists n :: Target(r, other, n) {
        if other == id {
          AddHolds(w, id, delayMs, now, TargetSlot(w, delayMs), NewNode(w, id, delayMs, now));
          assert Target(r, id, NewNode(w, id, delayMs, now));
        } else {
          var n :| Target(w, other, n);
          assert Target(r, other, n);
        }
      }
    }
  }

  lemma RemoveHolds(w: Wheel, id: int, s: nat, n: TimerNode)
    requires WellFormed(w) && id in w.index
    ensures AfterRemove(w, id).Holds(s, n) <==>
      || (w.Holds(s, n) && (n.handle == w.index[id].handle ==> n.isDeleted))
      || (n.isDeleted && n.handle == w.index[id].handle && w.Holds(s, n.(isDeleted := false)))
  {
    var e := w.index[id];
    var r := AfterRemove(w, id);
    var target :| Target(w, id, target);
    if s < |w.slots| {
      var list := w.slots[s];
      if r.Holds(s, n) {
        var i :| 0 <= i < |r.slots[s]| && r.slots[s][i] == n;
        assert w.Holds(s, list[i]);
        assert w.Holds(e.slot, target);
      }
      if w.Holds(s, n) && (n.handle == e.handle ==> n.isDeleted) {
        var i :| 0 <= i < |list| && list[i] == n;
        assert r.slots[s][i] == n;
      }
      if n.isDeleted && n.handle == e.handle && w.Holds(s, n.(isDeleted := false)) {
        var i :| 0 <= i < |list| && list[i] == n.(isDeleted := false);
        assert w.Holds(e.slot, target);
        assert r.slots[s][i] == n;
      }
    }
  }

  lemma RemoveKeepsWellFormed(w: Wheel, id: int)
    requires WellFormed(w)
    ensures WellFormed(AfterRemove(w, id))
  {
    if id in w.index {
      var r := AfterRemove(w, id);
      var e := w.index[id];
      forall s: nat, n ensures r.Holds(s, n) ==> n.handle < r.nextHandle {
        RemoveHolds(w, id, s, n);
      }
      var target :| Target(w, id, target);
      forall s: nat, n, s': nat, n' | r.Holds(s, n) && r.Holds(s', n') && n.handle == n'.handle
        ensures s == s' && n == n'
      {
        RemoveHolds(w, id, s, n);
        RemoveHolds(w, id, s', n');
      }
      forall s: nat | s < |r.slots| ensures Increasing(r.slots[s]) {
        assert Increasing(w.slots[s]);
      }
      forall other | other in r.index ensures exists n :: Target(r, other, n) {
        var n :| Target(w, other, n);
        RemoveHolds(w, id, r.index[other].slot, n);
        assert Target(r, other, n);
      }
    }
  }

  lemma {:induction false} KeptIncreasing(list: seq<TimerNode>, clock: Clock, t: nat)
    requires Increasing(list)
    ensures Increasing(Kept(list, clock, t))
  {
    if list != [] {
      KeptIncreasing(list[1..], clock, t);
      var after := Kept(list[1..], clock, t);
      forall i | 0 <= i < |after| ensures list[0].handle < after[i].handle {
        KeptMember(list[1..], clock, t, after[i]);
        var k :| 0 <= k < |list[1..]| && list[1..][k] == after[i].(rounds := after[i].rounds + 1);
        assert list[0].handle < list[k + 1].handle;
      }
    }
  }

  lemma SlotStepKeepsWellFormed(w: Wheel, clock: Clock, t: nat)
    requires WellFormed(w)
    ensures WellFormed(SlotStep(w, clock, t))
  {
    var r := SlotStep(w, clock, t);
    forall s: nat, n ensures r.Holds(s, n) ==> n.handle < r.nextHandle {
      SlotStepHolds(w, clock, t, s, n);
    }
    forall s: nat, n, s': nat, n' | r.Holds(s, n) && r.Holds(s', n') && n.handle == n'.handle
      ensures s == s' && n == n'
    {
      SlotStepHolds(w, clock, t, s, n);
      SlotStepHolds(w, clock, t, s', n');
    }
    forall s: nat | s < |r.slots| ensures Increasing(r.slots[s]) {
      assert Increasing(w.slots[s]);
      KeptIncreasing(w.slots[w.current], clock, t);
    }
    forall id | id in r.index ensures exists n :: Target(r, id, n) {
      var n :| Target(w, id, n);
      var s := w.index[id].slot;
      UnindexedMember(w.index, w.slots[w.current], clock, t, id);
      if s == w.current {
        var n' := n.(rounds := n.rounds - 1);
        assert n'.(rounds := n'.rounds + 1) == n;
        SlotStepHolds(w, clock, t, s, n');
        assert Target(r, id, n');
      } else {
        SlotStepHolds(w, clock, t, s, n);
        assert Target(r, id, n);
      }
    }
  }

  lemma {:induction false} AdvanceKeepsWellFormed(w: Wheel, clock: Clock, k: nat)
    requires WellFormed(w)
    ensures WellFormed(Advance(w, clock, k))
  {
    if k > 0 {
      AdvanceKeepsWellFormed(w, clock, k - 1);
      SlotStepKeepsWellFormed(Advance(w, clock, k - 1), clock, k - 1);
    }
  }

  /** No dangling entry after any operation, however ids are reused. */
  lemma TickKeepsWellFormed(w: Wheel, now: int, clock: Clock)
    requires WellFormed(w)
    ensures WellFormed(AfterTick(w, now, clock))
  {
    AdvanceKeepsWellFormed(w, clock, StepsIn(w, now));
    var a := Advance(w, clock, StepsIn(w, now));
    var r := AfterTick(w, now, clock);
    SameNodes(a, r);
  }

  /** Moving `lastTick` changes no node and no entry. */
  lemma SameNodes(a: Wheel, r: Wheel)
    requires r.slots == a.slots && r.index == a.index && r.current == a.current
    requires r.nextHandle == a.nextHandle && r.tickMs == a.tickMs
    ensures WellFormed(a) ==> WellFormed(r)
    ensures Bijective(a) ==> Bijective(r)
    ensures forall s: nat, n :: a.Holds(s, n) == r.Holds(s, n)
    ensures forall h: nat :: a.Present(h) == r.Present(h)
  {
    assert forall s: nat, n :: r.Holds(s, n) ==> a.Holds(s, n);
    if WellFormed(a) {
      forall id | id in r.index ensures exists n :: Target(r, id, n) {
        var n :| Target(a, id, n);
        assert Target(r, id, n);
      }
    }
    forall id ensures TombstoneOf(r, id) ==> TombstoneOf(a, id) {
      if TombstoneOf(r, id) {
        var s: nat, n :| r.Holds(s, n) && n.isDeleted && n.id == id;
        assert a.Holds(s, n);
      }
    }
    forall h: nat ensures a.Present(h) == r.Present(h) {
      if a.Present(h) {
        var s: nat, n :| a.Holds(s, n) && n.handle == h;
        assert r.Holds(s, n);
      }
      if r.Present(h) {
        var s: nat, n :| r.Holds(s, n) && n.handle == h;
        assert a.Holds(s, n);
      }
    }
  }

  // ---------------------------------------------------------------- when the index is a bijection

  /** Adding keeps the bijection exactly when no tombstone of the id is still in the wheel. */
  lemma AddKeepsBijectiveIff(w: Wheel, id: int, delayMs: int, now: int)
    requires WellFormed(w) && Bijective(w)
    ensures Bijective(AfterAdd(w, id, delayMs, now)) <==> delayMs < 0 || id in w.index || !TombstoneOf(w, id)
  {
    var r := AfterAdd(w, id, delayMs, now);
    if 0 <= delayMs && id !in w.index {
      AddHolds(w, id, delayMs, now, TargetSlot(w, delayMs), NewNode(w, id, delayMs, now));
      forall other ensures TombstoneOf(r, other) <==> TombstoneOf(w, other) {
        if TombstoneOf(w, other) {
          var s: nat, n :| w.Holds(s, n) && n.isDeleted && n.id == other;
          AddHolds(w, id, delayMs, now, s, n);
          assert r.Holds(s, n);
        }
        if TombstoneOf(r, other) {
          var s: nat, n :| r.Holds(s, n) && n.isDeleted && n.id == other;
          AddHolds(w, id, delayMs, now, s, n);
        }
      }
      forall s: nat, n | r.Holds(s, n) && !n.isDeleted
        ensures n.id in r.index && r.index[n.id] == Entry(s, n.handle)
        ensures n.id != id ==> !TombstoneOf(r, n.id)
      {
        AddHolds(w, id, delayMs, now, s, n);
      }
    }
  }

  /** Removing a timer makes a tombstone of that id and of no other. */
  lemma RemoveTombstones(w: Wheel, id: int, other: int)
    requires WellFormed(w) && id in w.index
    ensures TombstoneOf(AfterRemove(w, id), other) ==> other == id || TombstoneOf(w, other)
  {
    var r := AfterRemove(w, id);
    if TombstoneOf(r, other) {
      var target :| Target(w, id, target);
      var s: nat, d :| r.Holds(s, d) && d.isDeleted && d.id == other;
      RemoveHolds(w, id, s, d);
    }
  }

  lemma RemoveKeepsBijective(w: Wheel, id: int)
    requires WellFormed(w) && Bijective(w)
    ensures Bijective(AfterRemove(w, id))
    ensures NoLive(AfterRemove(w, id), id)
  {
    var r := AfterRemove(w, id);
    if id in w.index {
      var target :| Target(w, id, target);
      forall s: nat, n | r.Holds(s, n) && !n.isDeleted
        ensures n.id != id && n.id in r.index && r.index[n.id] == Entry(s, n.handle) && !TombstoneOf(r, n.id)
      {
        RemoveHolds(w, id, s, n);
        RemoveTombstones(w, id, n.id);
      }
    }
  }

  lemma SlotStepKeepsBijective(w: Wheel, clock: Clock, t: nat)
    requires WellFormed(w) && Bijective(w)
    ensures Bijective(SlotStep(w, clock, t))
  {
    var r := SlotStep(w, clock, t);
    var list := w.slots[w.current];
    forall s: nat, n | r.Holds(s, n) && !n.isDeleted
      ensures n.id in r.index && r.index[n.id] == Entry(s, n.handle) && !TombstoneOf(r, n.id)
    {
      SlotStepHolds(w, clock, t, s, n);
      var o := if s == w.current then n.(rounds := n.rounds + 1) else n;
      assert w.Holds(s, o);
      UnindexedMember(w.index, list, clock, t, n.id);
      forall m | m in list && m.id == n.id ensures !Leaves(m, clock, t) {
        assert w.Holds(w.current, m);
        assert m.isDeleted ==> TombstoneOf(w, o.id);
      }
      SlotStepTombstones(w, clock, t, n.id);
    }
  }

  /** A slot step makes no tombstone. */
  lemma SlotStepTombstones(w: Wheel, clock: Clock, t: nat, id: int)
    requires w.Shape()
    ensures TombstoneOf(SlotStep(w, clock, t), id) ==> TombstoneOf(w, id)
  {
    var r := SlotStep(w, clock, t);
    if TombstoneOf(r, id) {
      var s: nat, d :| r.Holds(s, d) && d.isDeleted && d.id == id;
      SlotStepHolds(w, clock, t, s, d);
    }
  }

  lemma {:induction false} TickKeepsBijective(w: Wheel, now: int, clock: Clock)
    requires WellFormed(w) && Bijective(w)
    ensures Bijective(AfterTick(w, now, clock))
  {
    AdvanceKeepsBijective(w, clock, StepsIn(w, now));
    SameNodes(Advance(w, clock, StepsIn(w, now)), AfterTick(w, now, clock));
  }

  lemma {:induction false} AdvanceKeepsBijective(w: Wheel, clock: Clock, k: nat)
    requires WellFormed(w) && Bijective(w)
    ensures Bijective(Advance(w, clock, k))
  {
    if k > 0 {
      AdvanceKeepsBijective(w, clock, k - 1);
      AdvanceKeepsWellFormed(w, clock, k - 1);
      SlotStepKeepsBijective(Advance(w, clock, k - 1), clock, k - 1);
    }
  }

  ghost predicate NoLive(w: Wheel, id: int) {
    forall s: nat, n | w.Holds(s, n) && !n.isDeleted :: n.id != id
  }

  /** Once an id has no live node, ticking neither fires it nor brings it back. */
  lemma {:induction false} NoLiveNeverFires(w: Wheel, id: int, clock: Clock, k: nat)
    requires w.Shape() && NoLive(w, id)
    ensures NoLive(Advance(w, clock, k), id)
    ensures forall n | n in AdvanceFired(w, clock, k) :: n.id != id
  {
    if k > 0 {
      NoLiveNeverFires(w, id, clock, k - 1);
      var a := Advance(w, clock, k - 1);
      var r := Advance(w, clock, k);
      forall s: nat, n | r.Holds(s, n) && !n.isDeleted ensures n.id != id {
        SlotStepHolds(a, clock, k - 1, s, n);
        assert a.Holds(s, n) || a.Holds(s, n.(rounds := n.rounds + 1));
      }
      forall n | n in StepFired(a, clock, k - 1) ensures n.id != id {
        FiredMember(a.slots[a.current], clock, k - 1, n);
        assert a.Holds(a.current, n);
      }
    }
  }

  /**
   * Without the bijection a removed timer can fire: id 7 is added, removed, and added again
   * before its tombstone is swept; sweeping the tombstone erases the new timer's
   * entry, so the second removal finds nothing and the timer fires.
   */
  lemma ReusedIdFiresAfterRemove(clock: Clock)
    ensures var w := AfterAdd(AfterRemove(AfterAdd(Empty(10, 0), 7, 0, 0), 7), 7, 20, 0);
      var swept := SlotStep(w, clock, 0);
      && 7 in w.index && 7 !in swept.index
      && AfterRemove(swept, 7) == swept
      && exists n :: n in AdvanceFired(AfterRemove(swept, 7), clock, 2) && n.id == 7
  {
    var first := AfterAdd(Empty(10, 0), 7, 0, 0);
    var removed := AfterRemove(first, 7);
    var dead := TimerNode(0, 7, 0, true, 0);
    assert first.slots[0] == [TimerNode(0, 7, 0, false, 0)];
    assert removed.slots[0] == [dead];
    var w := AfterAdd(removed, 7, 20, 0);
    var live := TimerNode(1, 7, 20 * NS_PER_MS, false, 0);
    assert w.slots[0] == [dead] && w.slots[1] == [] && w.slots[2] == [live];
    var swept := SlotStep(w, clock, 0);
    UnindexedMember(w.index, w.slots[0], clock, 0, 7);
    assert dead in w.slots[0];
    var later := Advance(swept, clock, 1);
    assert later == SlotStep(Advance(swept, clock, 0), clock, 0);
    assert later.slots[2] == [live] && later.current == 2;
    FiredMember(later.slots[2], clock, 1, live);
    assert AdvanceFired(swept, clock, 2) == AdvanceFired(swept, clock, 1) + StepFired(later, clock, 1);
    assert live in AdvanceFired(swept, clock, 2);
  }

  // ---------------------------------------------------------------- tombstones are swept

  /** How many slot steps pass before slot `s` is visited: (s - current) mod 1024. */
  function Distance(w: Wheel, s: nat): int {
    if w.current <= s then s - w.current else s + WHEEL_SIZE - w.current
  }

  lemma SlotStepDistance(w: Wheel, clock: Clock, t: nat, s: nat)
    requires w.Shape() && s < WHEEL_SIZE
    ensures Distance(SlotStep(w, clock, t), s) == if s == w.current then WHEEL_SIZE - 1 else Distance(w, s) - 1
  {
  }

  /** A node stays where it is until its slot is visited. */
  lemma {:induction false} StaysUntilVisited(w: Wheel, clock: Clock, k: nat, s: nat, n: TimerNode)
    requires w.Shape() && w.Holds(s, n) && k <= Distance(w, s)
    ensures Advance(w, clock, k).Holds(s, n)
    ensures Distance(Advance(w, clock, k), s) == Distance(w, s) - k
  {
    if k > 0 {
      var a := Advance(w, clock, k - 1);
      StaysUntilVisited(w, clock, k - 1, s, n);
      SlotStepHolds(a, clock, k - 1, s, n);
      SlotStepDistance(a, clock, k - 1, s);
    }
  }

  lemma SlotStepPresent(w: Wheel, clock: Clock, t: nat, h: nat)
    requires w.Shape()
    ensures SlotStep(w, clock, t).Present(h)
      ==> exists s: nat, o :: w.Holds(s, o) && o.handle == h && (s == w.current ==> !Leaves(o, clock, t))
  {
    var r := SlotStep(w, clock, t);
    if r.Present(h) {
      var s: nat, n :| r.Holds(s, n) && n.handle == h;
      SlotStepHolds(w, clock, t, s, n);
      var o := if s == w.current then n.(rounds := n.rounds + 1) else n;
      assert w.Holds(s, o) && o.handle == h && (s == w.current ==> !Leaves(o, clock, t));
    }
  }

  lemma {:induction false} GoneStaysGone(w: Wheel, clock: Clock, j: nat, k: nat, h: nat)
    requires w.Shape() && j <= k && !Advance(w, clock, j).Present(h)
    ensures !Advance(w, clock, k).Present(h)
    decreases k
  {
    if j < k {
      GoneStaysGone(w, clock, j, k - 1, h);
      SlotStepPresent(Advance(w, clock, k - 1), clock, k - 1, h);
    }
  }

  /** A removed timer's node is swept by the next visit of its slot, whatever its rounds. */
  lemma TombstoneSwept(w: Wheel, clock: Clock, k: nat, s: nat, n: TimerNode)
    requires WellFormed(w) && w.Holds(s, n) && n.isDeleted && Distance(w, s) < k
    ensures !Advance(w, clock, k).Present(n.handle)
  {
    var d := Distance(w, s);
    StaysUntilVisited(w, clock, d, s, n);
    AdvanceKeepsWellFormed(w, clock, d);
    var a := Advance(w, clock, d);
    assert a.current == s;
    SlotStepPresent(a, clock, d, n.handle);
    assert Advance(w, clock, d + 1) == SlotStep(a, clock, d);
    GoneStaysGone(w, clock, d + 1, k, n.handle);
  }
}
