/**
 * The integer task priority of verify_modules.py (calculate_priority):
 * 1 is most urgent, 5 least. `hours` is the time left until the deadline,
 * negative when overdue; `effort` is the estimated hours of work.
 */
module PriorityRule {
  /** The deadline tier. */
  function BaseTier(hours: real): (b: int)
    ensures 1 <= b <= 5
    ensures b == 1 <==> hours <= 24.0
    ensures b == 2 <==> 24.0 < hours <= 72.0
    ensures b == 3 <==> 72.0 < hours <= 168.0
    ensures b == 4 <==> 168.0 < hours <= 336.0
  {
    if hours <= 0.0 then 1
    else if hours <= 24.0 then 1
    else if hours <= 72.0 then 2
    else if hours <= 168.0 then 3
    else if hours <= 336.0 then 4
    else 5
  }

  /** More than five hours of work makes the tier one more urgent, never past 1. */
  function EffortAdjusted(base: int, effort: real): (b: int)
    ensures b == base - 1 || b == base
    ensures b == base - 1 <==> effort > 5.0 && base > 1
  {
    if effort > 5.0 && base > 1 then base - 1 else base
  }

  function CategoryBump(category: string): (d: int)
    ensures -1 <= d <= 1
    ensures category !in {"academic", "work", "personal"} ==> d == 0
  {
    if category == "academic" then -1
    else if category == "personal" then 1
    else 0
  }

  function Clamp(x: int): (r: int)
    ensures 1 <= r <= 5
    ensures 1 <= x <= 5 ==> r == x
    ensures x > 5 ==> r == 5
    ensures x < 1 ==> r == 1
  {
    if x > 5 then 5 else if x < 1 then 1 else x
  }

  function CalculatePriority(hours: real, effort: real, category: string): (p: int)
    ensures 1 <= p <= 5
  {
    Clamp(EffortAdjusted(BaseTier(hours), effort) + CategoryBump(category))
  }

  lemma CategoryBumpValues()
    ensures CategoryBump("academic") == -1 && CategoryBump("work") == 0 && CategoryBump("personal") == 1
  {
  }

  /** With effort and category fixed, a nearer deadline never gives a less urgent priority. */
  lemma PriorityMonotoneInDeadline(h1: real, h2: real, effort: real, category: string)
    requires h1 <= h2
    ensures CalculatePriority(h1, effort, category) <= CalculatePriority(h2, effort, category)
  {
  }

  /**
   * The unit-test vectors. Each holds on the whole range of hours the test
   * can see, since the deadline is measured a little after it was set.
   */
  lemma UnitTestVectors(h: real)
    ensures 0.0 < h <= 12.0 ==> CalculatePriority(h, 6.0, "academic") == 1
    ensures 24.0 < h <= 48.0 ==> CalculatePriority(h, 2.0, "work") == 2
    ensures 72.0 < h <= 120.0 ==> CalculatePriority(h, 3.0, "personal") == 4
    ensures 336.0 < h <= 480.0 ==> CalculatePriority(h, 1.0, "academic") == 4
    ensures h <= -1.0 ==> CalculatePriority(h, 2.0, "work") == 1
  {
  }

  /**
   * The priority rule on the input of the live task check: due in at most
   * 10 hours, 6 hours of work, "academic" gives priority 1. This is what the
   * rule computes; the service's task creation stores the user's priority
   * as given and does not apply the rule.
   */
  lemma AcademicTaskDueSoon(h: real)
    requires 0.0 < h <= 10.0
    ensures CalculatePriority(h, 6.0, "academic") == 1
  {
  }
}
