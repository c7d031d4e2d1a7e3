/**
 * First-fit allocation of one task to a free slot
 * (ai_service/main.py, allocate_task_to_slot).
 *
 * A slot is a pair of "HH:MM" times, kept as minutes after midnight. The
 * chosen slot's start is overwritten in place with the task's end, written
 * back as "HH:MM": truncated to the minute and taken within one day.
 */
module Slots {
  import opened Wrappers
  import opened Tasks
  import opened Ranking

  const MinutesPerDay: int := 1440

  datatype Slot = Slot(start: int, end: int)

  /**
   * What the allocator reports for a placed task. `slot` is the index of the
   * free slot it was cut from; the source's record does not carry it.
   */
  datatype Assignment = Assignment(
    taskId: string,
    title: string,
    start: int,
    end: real,
    durationHours: real,
    score: int,
    slot: nat)

  /** A time of day that "HH:MM" with 00 <= HH <= 23 can denote. */
  predicate ValidTime(m: int) {
    0 <= m < MinutesPerDay
  }

  /** The slot lasts at least `hours`. */
  predicate Fits(s: Slot, hours: real) {
    (s.end - s.start) as real / 60.0 >= hours
  }

  /** The index of the first slot, in list order, that lasts at least `hours`. */
  function FirstFit(slots: seq<Slot>, hours: real): (r: Option<nat>)
    ensures r.Some? ==> r.value < |slots| && Fits(slots[r.value], hours)
    ensures r.Some? ==> forall j :: 0 <= j < r.value ==> !Fits(slots[j], hours)
    ensures r.None? <==> forall j :: 0 <= j < |slots| ==> !Fits(slots[j], hours)
  {
    if slots == [] then None
    else if Fits(slots[0], hours) then Some(0)
    else match FirstFit(slots[1..], hours)
      case None => None
      case Some(i) => Some(i + 1)
  }

  /**
   * The slot's new start as written back: `start` plus `hours`, truncated to
   * whole minutes, as a time of day.
   */
  function AdvancedStart(start: int, hours: real): (r: int)
    ensures ValidTime(r)
    ensures 0 <= start && hours >= 0.0 && start as real + hours * 60.0 < MinutesPerDay as real ==>
              start <= r && r as real <= start as real + hours * 60.0 < r as real + 1.0
  {
    (start + (hours * 60.0).Floor) % MinutesPerDay
  }

  /**
   * One allocation step on a list of slots: the assignment, if any, and the
   * slot list afterwards.
   */
  function Place(slots: seq<Slot>, t: ScoredTask): (r: (Option<Assignment>, seq<Slot>))
    ensures |r.1| == |slots|
    ensures r.0.None? <==> forall j :: 0 <= j < |slots| ==> !Fits(slots[j], t.task.estimatedHours)
    ensures r.0.None? ==> r.1 == slots
    ensures r.0.Some? ==>
              var a := r.0.value;
              && FirstFit(slots, t.task.estimatedHours) == Some(a.slot)
              && a.taskId == t.task.id && a.score == t.score
              && a.start == slots[a.slot].start
              && a.end == a.start as real + t.task.estimatedHours * 60.0
              && r.1[a.slot] == Slot(AdvancedStart(a.start, t.task.estimatedHours), slots[a.slot].end)
              && forall j :: 0 <= j < |slots| && j != a.slot ==> r.1[j] == slots[j]
  {
    var hours := t.task.estimatedHours;
    match FirstFit(slots, hours)
    case None => (None, slots)
    case Some(i) =>
      var s := slots[i];
      var a := Assignment(t.task.id, t.task.title, s.start, s.start as real + hours * 60.0, hours, t.score, i);
      (Some(a), slots[i := s.(start := AdvancedStart(s.start, hours))])
  }

  /** Allocates `t` to the first slot that is long enough, shortening that slot in place. */
  method AllocateTaskToSlot(t: ScoredTask, slots: array<Slot>) returns (placed: Option<Assignment>)
    modifies slots
    ensures (placed, slots[..]) == Place(old(slots[..]), t)
  {
    var hours := t.task.estimatedHours;
    for i := 0 to slots.Length
      invariant slots[..] == old(slots[..])
      invariant forall j :: 0 <= j < i ==> !Fits(slots[j], hours)
    {
      var slot := slots[i];
      if (slot.end - slot.start) as real / 60.0 >= hours {
        slots[i] := slot.(start := AdvancedStart(slot.start, hours));
        placed := Some(Assignment(t.task.id, t.task.title, slot.start,
                                     slot.start as real + hours * 60.0, hours, t.score, i));
        return;
      }
    }
    placed := None;
  }

  /** An estimate that is a whole, non-negative number of minutes. */
  predicate WholeMinutes(hours: real) {
    hours >= 0.0 && (hours * 60.0).Floor as real == hours * 60.0
  }

  /**
   * For whole-minute estimates that fit a valid slot, the new start is the
   * end of the assignment exactly, and still inside the slot.
   */
  lemma AdvanceWholeMinutes(s: Slot, hours: real)
    requires ValidTime(s.start) && ValidTime(s.end)
    requires WholeMinutes(hours) && Fits(s, hours)
    ensures AdvancedStart(s.start, hours) as real == s.start as real + hours * 60.0
    ensures s.start <= AdvancedStart(s.start, hours) <= s.end
  {
    var m := (hours * 60.0).Floor;
    assert (s.end - s.start) as real >= hours * 60.0;
    assert 0 <= m <= s.end - s.start;
    assert 0 <= s.start + m < MinutesPerDay;
    assert AdvancedStart(s.start, hours) == s.start + m;
  }

  /**
   * As written, an estimate that is not a whole number of minutes leaves the
   * slot starting before the task it just received ends: 0.01 hours (36
   * seconds) placed at 08:00 ends at 08:00:36, but the slot still starts at
   * 08:00, so the next task is also placed at 08:00.
   */
  lemma TruncationOverlaps(t1: ScoredTask, t2: ScoredTask)
    requires t1.task.estimatedHours == 0.01 && t2.task.estimatedHours == 0.01
    ensures var (a1, after1) := Place([Slot(480, 1320)], t1);
            var (a2, after2) := Place(after1, t2);
            && a1.Some? && a2.Some? && a1.value.slot == a2.value.slot == 0
            && a2.value.start as real < a1.value.end
  {
    assert Fits(Slot(480, 1320), 0.01);
    assert AdvancedStart(480, 0.01) == 480;
  }

  /**
   * The evidently intended write-back: the task's end rounded UP to the
   * minute, so that the slot never starts before the time already given out.
   */
  function AdvancedStartRoundedUp(start: int, hours: real): (r: int)
    ensures 0 <= start && hours >= 0.0 && start as real + hours * 60.0 <= (MinutesPerDay - 1) as real ==>
              ValidTime(r) && start as real + hours * 60.0 <= r as real < start as real + hours * 60.0 + 1.0
  {
    (start - (-(hours * 60.0)).Floor) % MinutesPerDay
  }

  /**
   * With rounding up, a fitting estimate of any length leaves the slot's new
   * start at or after the assignment's end and no later than the slot's end;
   * on whole-minute estimates it agrees with the truncating write-back.
   */
  lemma RoundedUpNeverOverlaps(s: Slot, hours: real)
    requires ValidTime(s.start) && ValidTime(s.end)
    requires hours >= 0.0 && Fits(s, hours)
    ensures s.start as real + hours * 60.0 <= AdvancedStartRoundedUp(s.start, hours) as real
    ensures AdvancedStartRoundedUp(s.start, hours) <= s.end
    ensures WholeMinutes(hours) ==> AdvancedStartRoundedUp(s.start, hours) == AdvancedStart(s.start, hours)
  {
  }
}
