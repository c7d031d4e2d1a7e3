/**
 * The scheduling run for one day (ai_service/main.py, optimize_schedule):
 * score every pending task, rank by score, then walk the ranking and give
 * each task the first free slot long enough for it. Reading tasks and slots
 * from the store and writing each placement back are not modelled.
 */
module Optimizer {
  import opened Wrappers
  import opened Tasks
  import opened Ranking
  import opened Slots

  /** With no stored free slots the day is one slot from 08:00 to 22:00. */
  function EffectiveSlots(freeSlots: seq<Slot>): (r: seq<Slot>)
    ensures r != []
    ensures freeSlots != [] ==> r == freeSlots
    ensures freeSlots == [] ==> r == [Slot(8 * 60, 22 * 60)]
  {
    if freeSlots == [] then [Slot(480, 1320)] else freeSlots
  }

  /**
   * The placements made for `ranked`, in rank order, and the slot list left
   * behind.
   */
  function AllocateAll(slots: seq<Slot>, ranked: seq<ScoredTask>): (r: (seq<Assignment>, seq<Slot>))
    ensures |r.0| <= |ranked| && |r.1| == |slots|
  {
    if ranked == [] then ([], slots)
    else
      var (schedule, current) := AllocateAll(slots, ranked[..|ranked| - 1]);
      var (placed, next) := Place(current, ranked[|ranked| - 1]);
      (if placed.Some? then schedule + [placed.value] else schedule, next)
  }

  /** The end of the last assignment cut from slot `i`, or `origin` if none was. */
  function PrevEnd(schedule: seq<Assignment>, i: nat, origin: int): real
  {
    if schedule == [] then origin as real
    else if schedule[|schedule| - 1].slot == i then schedule[|schedule| - 1].end
    else PrevEnd(schedule[..|schedule| - 1], i, origin)
  }

  ghost predicate ValidSlots(slots: seq<Slot>) {
    forall i :: 0 <= i < |slots| ==> ValidTime(slots[i].start) && ValidTime(slots[i].end)
  }

  ghost predicate WholeMinuteEstimates(ranked: seq<ScoredTask>) {
    forall k :: 0 <= k < |ranked| ==> WholeMinutes(ranked[k].task.estimatedHours)
  }

  /** Each assignment lies inside the original span of the slot it was cut from. */
  ghost predicate InsideSlots(init: seq<Slot>, schedule: seq<Assignment>) {
    forall k :: 0 <= k < |schedule| ==>
      && schedule[k].slot < |init|
      && init[schedule[k].slot].start <= schedule[k].start
      && schedule[k].end <= init[schedule[k].slot].end as real
  }

  /** Assignments cut from one slot follow one another without overlap. */
  ghost predicate OrderedPerSlot(schedule: seq<Assignment>) {
    forall k, l :: 0 <= k < l < |schedule| && schedule[k].slot == schedule[l].slot ==>
      schedule[k].end <= schedule[l].start as real
  }

  /**
   * Each assignment starts exactly where the previous one from its slot ended,
   * or at the slot's original start.
   */
  ghost predicate BackToBack(init: seq<Slot>, schedule: seq<Assignment>) {
    forall k :: 0 <= k < |schedule| && schedule[k].slot < |init| ==>
      schedule[k].start as real == PrevEnd(schedule[..k], schedule[k].slot, init[schedule[k].slot].start)
  }

  /** The slot list only ever has starts moved forward, to the end of what was given out. */
  ghost predicate SlotsConsumed(init: seq<Slot>, schedule: seq<Assignment>, current: seq<Slot>) {
    && |current| == |init|
    && (forall i :: 0 <= i < |init| ==>
          && current[i].end == init[i].end
          && init[i].start <= current[i].start
          && current[i].start as real == PrevEnd(schedule, i, init[i].start))
    && (forall k :: 0 <= k < |schedule| && schedule[k].slot < |init| ==>
          schedule[k].end <= current[schedule[k].slot].start as real)
  }

  ghost predicate ScheduleInvariant(init: seq<Slot>, schedule: seq<Assignment>, current: seq<Slot>) {
    && InsideSlots(init, schedule)
    && OrderedPerSlot(schedule)
    && BackToBack(init, schedule)
    && SlotsConsumed(init, schedule, current)
  }

  lemma PrevEndAppend(schedule: seq<Assignment>, a: Assignment, i: nat, origin: int)
    ensures PrevEnd(schedule + [a], i, origin) == if a.slot == i then a.end else PrevEnd(schedule, i, origin)
  {
    assert (schedule + [a])[..|schedule|] == schedule;
  }

  /**
   * What one placement from slot `a.slot` does, stated without Place: the
   * assignment starts at the slot's current start, ends no earlier and
   * inside the slot's original span, and the slot now starts at its end.
   */
  ghost predicate Step(init: seq<Slot>, current: seq<Slot>, a: Assignment, next: seq<Slot>) {
    && a.slot < |init| == |current| == |next|
    && a.start == current[a.slot].start
    && a.start as real <= a.end <= init[a.slot].end as real
    && next == current[a.slot := Slot(next[a.slot].start, current[a.slot].end)]
    && next[a.slot].start as real == a.end
  }

  lemma AppendInside(init: seq<Slot>, schedule: seq<Assignment>, current: seq<Slot>, a: Assignment, next: seq<Slot>)
    requires Step(init, current, a, next)
    requires InsideSlots(init, schedule) && SlotsConsumed(init, schedule, current)
    ensures InsideSlots(init, schedule + [a])
  {
    assert init[a.slot].start <= current[a.slot].start;
  }

  lemma AppendOrdered(init: seq<Slot>, schedule: seq<Assignment>, current: seq<Slot>, a: Assignment, next: seq<Slot>)
    requires Step(init, current, a, next)
    requires OrderedPerSlot(schedule) && SlotsConsumed(init, schedule, current)
    requires forall k :: 0 <= k < |schedule| ==> schedule[k].slot < |init|
    ensures OrderedPerSlot(schedule + [a])
  {
    var s2 := schedule + [a];
    forall k, l | 0 <= k < l < |s2| && s2[k].slot == s2[l].slot
      ensures s2[k].end <= s2[l].start as real
    {
      if l == |schedule| {
        assert s2[k] == schedule[k];
      }
    }
  }

  lemma AppendBackToBack(init: seq<Slot>, schedule: seq<Assignment>, current: seq<Slot>, a: Assignment, next: seq<Slot>)
    requires Step(init, current, a, next)
    requires BackToBack(init, schedule) && SlotsConsumed(init, schedule, current)
    ensures BackToBack(init, schedule + [a])
  {
    var s2 := schedule + [a];
    forall k | 0 <= k < |s2| && s2[k].slot < |init|
      ensures s2[k].start as real == PrevEnd(s2[..k], s2[k].slot, init[s2[k].slot].start)
    {
      if k == |schedule| {
        assert s2[..k] == schedule;
      } else {
        assert s2[..k] == schedule[..k];
      }
    }
  }

  lemma AppendConsumed(init: seq<Slot>, schedule: seq<Assignment>, current: seq<Slot>, a: Assignment, next: seq<Slot>)
    requires Step(init, current, a, next)
    requires SlotsConsumed(init, schedule, current)
    ensures SlotsConsumed(init, schedule + [a], next)
  {
    var s2 := schedule + [a];
    forall j | 0 <= j < |init|
      ensures next[j].start as real == PrevEnd(s2, j, init[j].start)
    {
      PrevEndAppend(schedule, a, j, init[j].start);
    }
    forall k | 0 <= k < |s2| && s2[k].slot < |init|
      ensures s2[k].end <= next[s2[k].slot].start as real
    {
      if k < |schedule| {
        assert s2[k] == schedule[k];
      }
    }
  }

  /** One placement keeps the schedule invariant. */
  lemma PlaceKeepsInvariant(init: seq<Slot>, schedule: seq<Assignment>, current: seq<Slot>, t: ScoredTask)
    requires ValidSlots(init) && WholeMinutes(t.task.estimatedHours)
    requires ScheduleInvariant(init, schedule, current)
    ensures var (placed, next) := Place(current, t);
            ScheduleInvariant(init, if placed.Some? then schedule + [placed.value] else schedule, next)
  {
    var (placed, next) := Place(current, t);
    if placed.Some? {
      var a := placed.value;
      var i := a.slot;
      assert current[i].end == init[i].end && init[i].start <= current[i].start;
      assert Fits(current[i], t.task.estimatedHours);
      AdvanceWholeMinutes(current[i], t.task.estimatedHours);
      assert Step(init, current, a, next);
      AppendInside(init, schedule, current, a, next);
      AppendOrdered(init, schedule, current, a, next);
      AppendBackToBack(init, schedule, current, a, next);
      AppendConsumed(init, schedule, current, a, next);
    }
  }

  /**
   * For valid slots and whole-minute estimates, the placements of a whole
   * ranking stay inside their slots, never overlap within a slot, and follow
   * one another back to back.
   */
  lemma {:induction false} AllocateAllInvariant(init: seq<Slot>, ranked: seq<ScoredTask>)
    requires ValidSlots(init) && WholeMinuteEstimates(ranked)
    ensures ScheduleInvariant(init, AllocateAll(init, ranked).0, AllocateAll(init, ranked).1)
  {
    if ranked != [] {
      var prefix := ranked[..|ranked| - 1];
      AllocateAllInvariant(init, prefix);
      var (schedule, current) := AllocateAll(init, prefix);
      PlaceKeepsInvariant(init, schedule, current, ranked[|ranked| - 1]);
    }
  }

  /** The scoring loop: one scored entry per task, in input order. */
  method ScoreTasks(tasks: seq<Task>, now: real, targetHour: int) returns (scored: seq<ScoredTask>)
    ensures scored == ScoreAll(tasks, now, targetHour)
  {
    scored := [];
    for i := 0 to |tasks|
      invariant scored == ScoreAll(tasks[..i], now, targetHour)
    {
      scored := scored + [ScoredTask(tasks[i], Scoring.PriorityScore(tasks[i], now, targetHour))];
    }
    assert tasks[..|tasks|] == tasks;
  }

  /** The allocation loop: each ranked task in turn, against the shared slot list. */
  method AllocateRanked(ranked: seq<ScoredTask>, slots: array<Slot>) returns (schedule: seq<Assignment>)
    modifies slots
    ensures (schedule, slots[..]) == AllocateAll(old(slots[..]), ranked)
  {
    schedule := [];
    for j := 0 to |ranked|
      invariant (schedule, slots[..]) == AllocateAll(old(slots[..]), ranked[..j])
    {
      assert ranked[..j + 1][..j] == ranked[..j];
      var placed := AllocateTaskToSlot(ranked[j], slots);
      if placed.Some? {
        schedule := schedule + [placed.value];
      }
    }
    assert ranked[..|ranked|] == ranked;
  }

  /** Ranking keeps the estimates of the scored tasks. */
  lemma RankedEstimates(tasks: seq<Task>, now: real, targetHour: int)
    requires forall t :: t in tasks ==> WholeMinutes(t.estimatedHours)
    ensures WholeMinuteEstimates(Rank(ScoreAll(tasks, now, targetHour)))
  {
    var scored := ScoreAll(tasks, now, targetHour);
    var ranked := Rank(scored);
    forall k | 0 <= k < |ranked|
      ensures WholeMinutes(ranked[k].task.estimatedHours)
    {
      assert ranked[k] in multiset(scored);
      var m :| 0 <= m < |scored| && scored[m] == ranked[k];
      assert tasks[m] in tasks;
    }
  }

  /**
   * The scheduling run: returns the placements, in rank order, with the task
   * count and the number of tasks placed.
   */
  method OptimizeSchedule(tasks: seq<Task>, freeSlots: seq<Slot>, now: real, targetHour: int)
    returns (schedule: seq<Assignment>, totalTasks: nat, allocatedTasks: nat)
    ensures totalTasks == |tasks| && allocatedTasks == |schedule| <= totalTasks
    ensures schedule == AllocateAll(EffectiveSlots(freeSlots), Rank(ScoreAll(tasks, now, targetHour))).0
    ensures ValidSlots(EffectiveSlots(freeSlots)) && (forall t :: t in tasks ==> WholeMinutes(t.estimatedHours)) ==>
              && InsideSlots(EffectiveSlots(freeSlots), schedule)
              && OrderedPerSlot(schedule)
              && BackToBack(EffectiveSlots(freeSlots), schedule)
  {
    var initial := if freeSlots == [] then [Slot(480, 1320)] else freeSlots;
    assert initial == EffectiveSlots(freeSlots);
    var slots := new Slot[|initial|](i requires 0 <= i < |initial| => initial[i]);
    assert slots[..] == initial;

    var scored := ScoreTasks(tasks, now, targetHour);
    var ranked := Rank(scored);
    schedule := AllocateRanked(ranked, slots);
    assert schedule == AllocateAll(initial, ranked).0;
    totalTasks := |scored|;
    allocatedTasks := |schedule|;

    if ValidSlots(initial) && (forall t :: t in tasks ==> WholeMinutes(t.estimatedHours)) {
      RankedEstimates(tasks, now, targetHour);
      AllocateAllInvariant(initial, ranked);
    }
  }
}
