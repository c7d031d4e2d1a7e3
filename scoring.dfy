/**
 * The weighted task priority score of ai_service/main.py
 * (calculate_priority_score).
 *
 * Every weight and every table entry is a multiple of 1/10000, so a score is
 * an integer number of ten-thousandths; sub-scores are tenths. Rounding to
 * four decimals is then the identity.
 */
module Scoring {
  import opened Wrappers
  import opened Tasks

  datatype Energy = High | Medium | Low

  /** Hours from `now` until `deadline`, clamped at zero. */
  function HoursUntil(deadline: real, now: real): (h: real)
    ensures h >= 0.0 && h >= deadline - now
    ensures h == deadline - now || h == 0.0
  {
    if deadline - now > 0.0 then deadline - now else 0.0
  }

  /** Deadline urgency in tenths, by tier of hours left. */
  function Urgency(hours: real): (u: int)
    ensures 2 <= u <= 10
    ensures u == 10 <==> hours <= 1.0
    ensures u >= 8 <==> hours <= 24.0
  {
    if hours <= 1.0 then 10
    else if hours <= 6.0 then 9
    else if hours <= 24.0 then 8
    else if hours <= 48.0 then 6
    else if hours <= 168.0 then 4
    else 2
  }

  /** Weight 0.35 on urgency, in ten-thousandths. */
  function DeadlineScore(deadline: real, now: real): (d: int)
    ensures 700 <= d <= 3500
    ensures deadline <= now ==> d == 3500
  {
    350 * Urgency(HoursUntil(deadline, now))
  }

  /** Weight 0.25 on (6 - priority) / 5, in ten-thousandths. */
  function ImportanceScore(priority: int): (s: int)
    ensures 1 <= priority <= 5 ==> 500 <= s <= 2500
    ensures priority == 1 ==> s == 2500
    ensures priority == 5 ==> s == 500
  {
    500 * (6 - priority)
  }

  /** Category weight in tenths; unknown categories weigh 0.5. */
  function CategoryWeight(category: string): (w: int)
    ensures 5 <= w <= 10
    ensures category !in {"academic", "work", "personal"} ==> w == 5
  {
    if category == "academic" then 10
    else if category == "work" then 8
    else if category == "personal" then 6
    else 5
  }

  /** Weight 0.15 on the category weight, in ten-thousandths. */
  function CategoryScore(category: string): (s: int)
    ensures 750 <= s <= 1500
  {
    150 * CategoryWeight(category)
  }

  /** The energy of the time of day: 6-11 high, 12-17 medium, otherwise low. */
  function SlotEnergy(hour: int): (e: Energy)
    ensures e == High <==> 6 <= hour < 12
    ensures e == Medium <==> 12 <= hour < 18
  {
    if 6 <= hour < 12 then High
    else if 12 <= hour < 18 then Medium
    else Low
  }

  function ParseEnergy(s: string): (e: Option<Energy>)
    ensures e.Some? <==> s in {"high", "medium", "low"}
  {
    if s == "high" then Some(High)
    else if s == "medium" then Some(Medium)
    else if s == "low" then Some(Low)
    else None
  }

  /** The 3x3 energy compatibility table, in tenths. */
  function EnergyTable(current: Energy, task: Energy): (m: int)
    ensures 3 <= m <= 10
    ensures m == 10 <==> current == task
  {
    match (current, task)
    case (High, High) => 10
    case (High, Medium) => 7
    case (High, Low) => 3
    case (Medium, High) => 7
    case (Medium, Medium) => 10
    case (Medium, Low) => 5
    case (Low, High) => 3
    case (Low, Medium) => 5
    case (Low, Low) => 10
  }

  /** Energy match in tenths of a task's energy against the hour's; unknown energies score 0.5. */
  function EnergyMatch(hour: int, taskEnergy: string): (m: int)
    ensures 3 <= m <= 10
    ensures taskEnergy !in {"high", "medium", "low"} ==> m == 5
  {
    match ParseEnergy(taskEnergy)
    case None => 5
    case Some(e) => EnergyTable(SlotEnergy(hour), e)
  }

  /** Weight 0.15 on the energy match, in ten-thousandths. */
  function EnergyScore(hour: int, taskEnergy: string): (s: int)
    ensures 450 <= s <= 1500
  {
    150 * EnergyMatch(hour, taskEnergy)
  }

  /** The user-preference placeholder: 0.5 at weight 0.10. */
  const PreferenceScore: int := 500

  /**
   * The task priority score in ten-thousandths; `targetHour` is the hour of
   * the day being scheduled.
   */
  function PriorityScore(t: Task, now: real, targetHour: int): (s: int)
    ensures 1 <= t.priority <= 5 ==> 2900 <= s <= 9500
  {
    DeadlineScore(t.deadline, now) + ImportanceScore(t.priority)
      + CategoryScore(t.category) + EnergyScore(targetHour, t.energyLevel)
      + PreferenceScore
  }

  /** A later deadline never gives more urgency. */
  lemma UrgencyNonIncreasing(h1: real, h2: real)
    requires h1 <= h2
    ensures Urgency(h1) >= Urgency(h2)
  {
  }

  /** A deadline already passed scores exactly as one due within the hour. */
  lemma PastDeadlineIsMostUrgent(deadline: real, now: real)
    requires deadline <= now
    ensures DeadlineScore(deadline, now) == DeadlineScore(now + 1.0, now) == 3500
  {
  }

  /** Importance strictly decreases as the priority number grows. */
  lemma ImportanceStrictlyDecreasing(p1: int, p2: int)
    requires p1 < p2
    ensures ImportanceScore(p1) > ImportanceScore(p2)
  {
  }

  lemma EnergyTableSymmetric(a: Energy, b: Energy)
    ensures EnergyTable(a, b) == EnergyTable(b, a)
  {
  }

  /**
   * Of two tasks differing only in deadline, the one due sooner scores at
   * least as high.
   */
  lemma ScoreMonotoneInDeadline(t: Task, sooner: real, later: real, now: real, targetHour: int)
    requires sooner <= later
    ensures PriorityScore(t.(deadline := sooner), now, targetHour)
            >= PriorityScore(t.(deadline := later), now, targetHour)
  {
    UrgencyNonIncreasing(HoursUntil(sooner, now), HoursUntil(later, now));
  }

  /** The bounds 0.29 and 0.95 are reached. */
  lemma ScoreBoundsAttained(now: real)
    ensures PriorityScore(Task("a", "", "academic", 1, now - 1.0, 1.0, "low", "todo"), now, 0) == 9500
    ensures PriorityScore(Task("b", "", "other", 5, now + 200.0, 1.0, "high", "todo"), now, 0) == 2900
  {
  }

  /** A document without priority or energy scores as priority 3 and medium energy. */
  lemma DocumentDefaultsScore(doc: Document, hour: int)
    requires doc.priority.None? && doc.energyLevel.None?
    ensures ImportanceScore(DocumentToTask(doc).priority) == 1500
    ensures EnergyMatch(hour, DocumentToTask(doc).energyLevel) == EnergyTable(SlotEnergy(hour), Medium)
  {
  }
}
