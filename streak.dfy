/**
 * Completion streaks (ai_service/main.py, get_quick_stats and get_streak).
 * Days are day numbers; `completedDays` holds the completion day of each
 * completed task, so a day with several completions appears several times.
 * A completed task without a completion time matches no day in either
 * computation and has no entry.
 */
module Streak {
  const StreakWindow: int := 30

  /** The number of completions on day `d`. */
  function Count(completedDays: seq<int>, d: int): (n: nat)
    ensures n <= |completedDays|
    ensures n > 0 <==> d in completedDays
  {
    if completedDays == [] then 0
    else
      var last := |completedDays| - 1;
      assert completedDays == completedDays[..last] + [completedDays[last]];
      Count(completedDays[..last], d) + (if completedDays[last] == d then 1 else 0)
  }

  /**
   * The current streak: walking back from `today` over at most 30 days, the
   * number of days with a completion, where an empty `today` is skipped and
   * the first empty earlier day ends the walk.
   */
  method CurrentStreak(completedDays: seq<int>, today: int) returns (streak: nat)
    ensures var first := if today in completedDays then today else today - 1;
            var cap := if today in completedDays then StreakWindow else StreakWindow - 1;
            && streak <= cap
            && (forall d :: first - streak < d <= first ==> d in completedDays)
            && (streak < cap ==> first - streak !in completedDays)
  {
    ghost var doneToday := today in completedDays;
    ghost var first := if doneToday then today else today - 1;
    streak := 0;
    for i := 0 to StreakWindow
      invariant streak == if doneToday || i == 0 then i else i - 1
      invariant forall d :: first - streak < d <= first ==> d in completedDays
    {
      var dayTasks := today - i in completedDays;
      if dayTasks {
        streak := streak + 1;
      } else if i > 0 {
        break;
      }
    }
  }

  /** Counting over one more completion. */
  lemma CountSnoc(completedDays: seq<int>, date: int, d: int)
    ensures Count(completedDays + [date], d) == Count(completedDays, d) + (if date == d then 1 else 0)
  {
    assert (completedDays + [date])[..|completedDays|] == completedDays;
  }

  /** The completions per day, as the dictionary built by the source. */
  method CountByDay(completedDays: seq<int>) returns (dateCount: map<int, nat>)
    ensures forall d :: d in dateCount <==> d in completedDays
    ensures forall d :: d in dateCount ==> dateCount[d] == Count(completedDays, d)
    ensures forall k :: 0 <= k < |completedDays| ==> completedDays[k] in dateCount
  {
    dateCount := map[];
    for i := 0 to |completedDays|
      invariant forall d :: d in dateCount <==> d in completedDays[..i]
      invariant forall d :: d in dateCount ==> dateCount[d] == Count(completedDays[..i], d)
    {
      var date := completedDays[i];
      assert completedDays[..i + 1] == completedDays[..i] + [date];
      forall d
        ensures Count(completedDays[..i + 1], d) == Count(completedDays[..i], d) + (if date == d then 1 else 0)
      {
        CountSnoc(completedDays[..i], date, d);
      }
      dateCount := dateCount[date := (if date in dateCount then dateCount[date] else 0) + 1];
    }
    assert completedDays[..|completedDays|] == completedDays;
    forall k | 0 <= k < |completedDays|
      ensures completedDays[k] in dateCount
    {
      var date := completedDays[k];
      assert date in completedDays;
    }
  }

  /**
   * The value reported as the longest streak: the largest number of
   * completions on any one day, 0 when nothing is completed. The maximum
   * over the dictionary's values is taken by visiting its keys in the order
   * the completions list them.
   */
  method LongestStreak(completedDays: seq<int>) returns (longest: nat)
    ensures forall d :: Count(completedDays, d) <= longest
    ensures completedDays == [] ==> longest == 0
    ensures completedDays != [] ==> exists d :: d in completedDays && Count(completedDays, d) == longest
  {
    var dateCount := CountByDay(completedDays);
    longest := 0;
    ghost var best := 0;
    for j := 0 to |completedDays|
      invariant forall k :: 0 <= k < j ==> dateCount[completedDays[k]] <= longest
      invariant j > 0 ==> 0 <= best < j && dateCount[completedDays[best]] == longest
      invariant j == 0 ==> longest == 0
    {
      var count := dateCount[completedDays[j]];
      if j == 0 || count > longest {
        longest := count;
        best := j;
      }
    }
    forall d
      ensures Count(completedDays, d) <= longest
    {
      if d in completedDays {
        var k :| 0 <= k < |completedDays| && completedDays[k] == d;
        assert dateCount[completedDays[k]] <= longest;
      } else {
        assert Count(completedDays, d) == 0;
      }
    }
    if completedDays != [] {
      var date := completedDays[best];
      assert date in completedDays;
      assert Count(completedDays, date) == longest;
    }
  }
}
