# Smart scheduler core, modelled in Dafny

This project models the scheduling core of the AI task-scheduler service
(`ai_service/main.py`) and the integer priority rule that `verify_modules.py`
unit-tests. It covers:

- **Task records.** A stored document becomes a task dictionary, and absent
  attributes get their defaults (`Tasks`).
- **The weighted priority score.** It combines deadline urgency (35%),
  importance (25%), category (15%), energy match (15%) and a fixed
  user-preference share (10%) (`Scoring`).
  - Every weight and table entry is a multiple of 1/10000. A score is
    therefore held exactly as an integer number of ten-thousandths.
  - Rounding to four decimals is then the identity.
- **Ranking.** Every pending task is scored, then the list is ordered by a
  stable sort on the score, highest first (`Ranking`).
- **First-fit allocation.** A task goes to the first free slot that is long
  enough. That slot's start is rewritten in place to the task's end, as an
  `HH:MM` string (`Slots`).
  - Slot times are minutes after midnight.
  - The rewrite truncates to the minute and wraps within the day.
- **The scheduling run for one day.** Score, rank, then allocate each ranked
  task against the shared slot list. With no stored slots, the day is one
  slot from 08:00 to 22:00 (`Optimizer`).
- **The completion streaks** (`Streak`):
  - the current streak: consecutive days with a completion, walking back at
    most 30 days from today, where an empty today is skipped;
  - the "longest streak", which the service computes as the largest number
    of completions on a single day.
- **The integer priority rule** of `verify_modules.py`, and its test
  vectors (`PriorityRule`).

Timestamps are real numbers of hours since a fixed epoch. Estimated hours are
reals. A day is an integer day number.

Where the service's documentation and its code disagree, the model follows
the code:

- The energy table is high/medium/low against high/medium/low =
  1.0/0.7/0.3, 0.7/1.0/0.5, 0.3/0.5/1.0.
- The category weights are academic 1.0, work 0.8, personal 0.6 and
  otherwise 0.5.
- Urgency is a step function of the hours left, with no interpolation.
- Allocation is first-fit, not best-fit.
- Zero-length remainders stay in the slot list.
- Unplaced tasks are simply not reported.
- Equal scores keep their input order; there is no further tie-break.
- The energy of the day is taken from the hour of the scheduled date. That
  date is parsed from a bare `YYYY-MM-DD`, so in the service the hour is
  always 0 (low energy). The model keeps the hour as a parameter, `targetHour`.
- `allocate_task_to_slot` falls back to 1 hour when a task has no estimate.
  The fallback never applies, because `document_to_task` always supplies
  `estimated_hours` (default 0). The model uses the task's estimate.

## Model

| member | source | states |
|---|---|---|
| Tasks.DocumentToTask | ai_service/main.py:181-209 | id and deadline are copied; an absent title or category becomes "", priority 3, estimate 0, energy "medium", status "todo"; present values of every one of these attributes are kept |
| Scoring.HoursUntil | ai_service/main.py:736-737 | the hours left are never negative, equal deadline minus now when that is positive and 0 otherwise |
| Scoring.Urgency | ai_service/main.py:740-752 | urgency lies in 0.2..1.0; it is 1.0 exactly when at most 1 hour is left, and at least 0.8 exactly when at most 24 hours are left |
| Scoring.DeadlineScore | ai_service/main.py:754 | the deadline part lies in 0.07..0.35 and is the full 0.35 once the deadline has passed |
| Scoring.ImportanceScore | ai_service/main.py:757-758 | for priorities 1..5 the importance part lies in 0.05..0.25, with 0.25 for priority 1 and 0.05 for priority 5 |
| Scoring.CategoryWeight | ai_service/main.py:761-766 | the category weight lies in 0.5..1.0 and is 0.5 for any category outside academic/work/personal |
| Scoring.CategoryScore | ai_service/main.py:766 | the category part lies in 0.075..0.15 |
| Scoring.SlotEnergy | ai_service/main.py:775-781 | the energy is high exactly for hours 6-11 and medium exactly for hours 12-17; otherwise low |
| Scoring.ParseEnergy | ai_service/main.py:783 | an energy label is recognised exactly when it is "high", "medium" or "low" |
| Scoring.EnergyTable | ai_service/main.py:769-773 | every table entry lies in 0.3..1.0 and is 1.0 exactly on the diagonal |
| Scoring.EnergyMatch | ai_service/main.py:783 | the match lies in 0.3..1.0; an unknown task energy scores 0.5 |
| Scoring.EnergyScore | ai_service/main.py:784 | the energy part lies in 0.045..0.15 |
| Scoring.PriorityScore | ai_service/main.py:724-791 | for priorities 1..5 the total score lies in 0.29..0.95 |
| Scoring.UrgencyNonIncreasing | ai_service/main.py:740-752 | more hours left never gives more urgency |
| Scoring.PastDeadlineIsMostUrgent | ai_service/main.py:737-742 | a past deadline scores the same as one due within the hour, the maximum 0.35 |
| Scoring.ImportanceStrictlyDecreasing | ai_service/main.py:756-758 | a smaller priority number always gives strictly more importance |
| Scoring.EnergyTableSymmetric | ai_service/main.py:769-773 | the energy table is symmetric |
| Scoring.ScoreMonotoneInDeadline | ai_service/main.py:735-754 | of two tasks that differ only in deadline, the one due sooner never scores lower |
| Scoring.ScoreBoundsAttained | ai_service/main.py:790-791 | both bounds are reached: 0.95 for an academic priority-1 task one hour overdue at a low-energy hour, and 0.29 for an unknown-category priority-5 high-energy task due in 200 hours |
| Scoring.DocumentDefaultsScore | ai_service/main.py:195-199 | a document without priority or energy scores importance 0.15 and the energy match of "medium" |
| Ranking.ScoreAll | ai_service/main.py:675-684 | one scored entry per task, in input order, carrying that task and its priority score |
| Ranking.Insert | ai_service/main.py:687 | insertion adds exactly one entry and keeps all the others (multiset) |
| Ranking.Rank | ai_service/main.py:687 | the ranking is a permutation of the scored tasks |
| Ranking.InsertSorted | ai_service/main.py:687 | inserting into a descending sequence keeps it descending |
| Ranking.RankSorted | ai_service/main.py:687 | the ranking is ordered by score, highest first |
| Ranking.InsertWithScore | ai_service/main.py:687 | an inserted entry goes before all existing entries with the same score |
| Ranking.RankStable | ai_service/main.py:687 | for every score, the entries with that score appear in their input order (the sort is stable) |
| Ranking.StableOrderUnique | ai_service/main.py:687 | two descending orders that agree on the order within every score are equal |
| Ranking.RankIsUnique | ai_service/main.py:687 | any descending, stable reordering of the scored tasks is exactly the ranking, so the model agrees with a stable reverse sort |
| Slots.FirstFit | ai_service/main.py:798-817 | the chosen slot is long enough and no earlier slot is; nothing is chosen exactly when no slot is long enough |
| Slots.AdvancedStart | ai_service/main.py:819 | the rewritten start is a valid time of day; without a day wrap it is the task's end truncated to the minute |
| Slots.Place | ai_service/main.py:794-830 | one allocation: none exactly when no slot fits, leaving the slots unchanged; otherwise the first fitting slot starts the task, the task ends the estimate later, that slot's start is rewritten and the other slots are untouched |
| Slots.AllocateTaskToSlot | ai_service/main.py:794-830 | the in-place loop over the slot array returns the placement and leaves the array as Place describes |
| Slots.AdvanceWholeMinutes | ai_service/main.py:815-819 | for a whole-minute estimate that fits a valid slot, the rewritten start is exactly the task's end and stays within the slot |
| Slots.TruncationOverlaps | ai_service/main.py:819 | as written, two 0.01-hour tasks placed from the 08:00-22:00 slot both start at 08:00, so the second starts before the first ends |
| Slots.AdvancedStartRoundedUp | ai_service/main.py:819 | the corrected rewrite is the task's end rounded up to the minute: never before the end and less than a minute after it |
| Slots.RoundedUpNeverOverlaps | ai_service/main.py:815-819 | with the corrected rewrite, a fitting task of any length leaves the slot starting at or after the task's end and no later than the slot's end; on whole-minute estimates it agrees with the code |
| Optimizer.EffectiveSlots | ai_service/main.py:671-672 | stored slots are used as they are; with none, the day is the single slot 08:00-22:00 |
| Optimizer.AllocateAll | ai_service/main.py:690-694 | the run never reports more placements than there are tasks and keeps the number of slots |
| Optimizer.PlaceKeepsInvariant | ai_service/main.py:691-694 | one placement with a whole-minute estimate keeps the schedule invariant (inside slots, ordered per slot, back to back, slots consumed) |
| Optimizer.AllocateAllInvariant | ai_service/main.py:690-694 | for valid slots and whole-minute estimates, every placement of the run lies inside its original slot, placements from one slot never overlap and each starts where the previous one from its slot ended |
| Optimizer.ScoreTasks | ai_service/main.py:675-684 | the scoring loop yields one scored entry per task in input order |
| Optimizer.AllocateRanked | ai_service/main.py:690-694 | the allocation loop over the shared slot array yields exactly the run's placements and leaves the slots as the run does |
| Optimizer.RankedEstimates | ai_service/main.py:687 | ranking keeps every task's estimate, so whole-minute estimates stay whole-minute |
| Optimizer.OptimizeSchedule | ai_service/main.py:665-711 | the reported total is the number of tasks and the allocated count is the number of placements; the placements are those of the ranked run over the effective slots; for valid slots and whole-minute estimates they lie inside their slots, do not overlap and follow back to back |
| Streak.Count | ai_service/main.py:1994-1998 | a day's count is at most the number of completions and positive exactly when the day has a completion |
| Streak.CurrentStreak | ai_service/main.py:1565-1573 | counting from today if it has a completion, otherwise from yesterday: every day in the streak has a completion, the streak stays within the 30-day window, and a streak shorter than the window stops at a day without one (the same loop appears again at lines 1985-1991) |
| Streak.CountSnoc | ai_service/main.py:1996-1998 | one more completion adds one to its day's count and nothing to other days |
| Streak.CountByDay | ai_service/main.py:1994-1998 | the per-day dictionary has exactly the completion days as keys, each mapped to its number of completions |
| Streak.LongestStreak | ai_service/main.py:1994-2001 | the reported value is at least every day's count and, when there are completions, equals some day's count; with none it is 0 |
| PriorityRule.BaseTier | verify_modules.py:35-40 | the tier is 1 exactly for at most 24 hours left (overdue included), 2 for 24-72, 3 for 72-168, 4 for 168-336, and 5 otherwise |
| PriorityRule.EffortAdjusted | verify_modules.py:41-42 | the tier drops by one exactly when the effort exceeds 5 hours and the tier is above 1; otherwise it is unchanged |
| PriorityRule.CategoryBump | verify_modules.py:43 | the bump lies in -1..1 and is 0 for any category outside academic/work/personal |
| PriorityRule.Clamp | verify_modules.py:44 | the result lies in 1..5, equals its input when that already does, is 5 for anything above 5 and 1 for anything below 1 |
| PriorityRule.CalculatePriority | verify_modules.py:30-44 | the priority always lies in 1..5 |
| PriorityRule.CategoryBumpValues | verify_modules.py:43 | academic bumps by -1, work by 0, personal by +1 |
| PriorityRule.PriorityMonotoneInDeadline | verify_modules.py:30-44 | for a fixed effort and category, a nearer deadline never gives a less urgent priority |
| PriorityRule.UnitTestVectors | verify_modules.py:47-53 | the five expected priorities hold on every hours value the tests can observe: 12h/6h/academic gives 1, 48h/2h/work 2, 5 days/3h/personal 4, 20 days/1h/academic 4, overdue/2h/work 1 |
| PriorityRule.AcademicTaskDueSoon | verify_modules.py:84-95 | the rule gives priority 1 to the live check's input: due in at most 10 hours, 6 hours of work, academic (what the rule computes, not what task creation stores) |

## Left out

- Reading tasks, schedules and completed tasks from the Appwrite store is not modelled. Inputs are parameters.
- Writing `scheduled_start`/`scheduled_end` back to each task is not modelled.
- The status and date filters of the task query are applied by the store. The model's task list is taken as already filtered.
- `datetime.now()` is a parameter (`now`, `today`).
- Parsing ISO timestamps, `HH:MM` strings and JSON (`free_slots`, `tags`) is not modelled. Times arrive as numbers.
- A malformed `HH:MM`, an hour of 24 or more, or a missing `deadline` raises in the service. These cases are outside `ValidTime` and the model's types.
- Floating-point rounding is not modelled. Scores are exact ten-thousandths and durations are exact reals.
- `timedelta`'s microsecond rounding is not modelled.
- `scheduled_start` and `scheduled_end` are reported as minutes (start) and real minutes (end) after midnight of the scheduled day, not as ISO strings.
- `Slots.Assignment` carries the slot index. The service's result dictionary does not; the field exists so properties can talk about slots.
- The other attributes `document_to_task` produces are not modelled: description, actual hours, scheduled times, completion time, recurrence rule and timestamps (passed through as stored), `tags` (decoded from JSON, falling back to an empty list when decoding fails) and `is_recurring` (defaulting to false).
- `get_quick_stats`' other statistics (totals, averages, best day) are outside this model.
- Optimizer.AllocateAllInvariant: the no-overlap and back-to-back properties are proved only for whole-minute estimates. For other estimates the code as written does overlap (see Findings).
- Optimizer.OptimizeSchedule: its schedule properties carry the same whole-minute condition.

## Findings

| source | as written | input that shows it | evidently intended | confidence | as-written member | corrected member |
|---|---|---|---|---|---|---|
| ai_service/main.py:819 | the slot's new start is the task's end formatted with `%H:%M`, which truncates the seconds | two tasks of 0.01 hours (36 s) on the default 08:00-22:00 slot: the first gets 08:00-08:00:36, the slot restarts at 08:00, and the second is also placed at 08:00 | the slot should restart no earlier than the end of the time already given out (round up to the minute) | not executed | Slots.TruncationOverlaps | Slots.RoundedUpNeverOverlaps |
