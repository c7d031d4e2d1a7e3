/**
 * Scoring every pending task and ranking by score, highest first
 * (ai_service/main.py, optimize_schedule). The ranking is Python's stable
 * sort in reverse: tasks with equal scores keep their input order. It is
 * modelled by an insertion sort, and RankIsUnique shows that any stable
 * descending sort gives the same sequence.
 */
module Ranking {
  import opened Tasks
  import opened Scoring

  datatype ScoredTask = ScoredTask(task: Task, score: int)

  /** One scored entry per task, in input order. */
  function ScoreAll(tasks: seq<Task>, now: real, targetHour: int): (r: seq<ScoredTask>)
    ensures |r| == |tasks|
    ensures forall i :: 0 <= i < |tasks| ==> r[i].task == tasks[i]
    ensures forall i :: 0 <= i < |tasks| ==> r[i].score == PriorityScore(tasks[i], now, targetHour)
  {
    seq(|tasks|, i requires 0 <= i < |tasks| => ScoredTask(tasks[i], PriorityScore(tasks[i], now, targetHour)))
  }

  ghost predicate SortedDescending(s: seq<ScoredTask>) {
    forall i, j :: 0 <= i < j < |s| ==> s[i].score >= s[j].score
  }

  /** The entries of `s` whose score is `v`, in order. */
  function WithScore(s: seq<ScoredTask>, v: int): seq<ScoredTask>
  {
    if s == [] then []
    else (if s[0].score == v then [s[0]] else []) + WithScore(s[1..], v)
  }

  /** Places `x` before the first entry whose score does not exceed its own. */
  function Insert(x: ScoredTask, r: seq<ScoredTask>): (s: seq<ScoredTask>)
    ensures |s| == |r| + 1
    ensures multiset(s) == multiset(r) + multiset{x}
  {
    if r == [] || x.score >= r[0].score then [x] + r
    else
      assert r == [r[0]] + r[1..];
      [r[0]] + Insert(x, r[1..])
  }

  /** The tasks sorted by score, highest first, equal scores in input order. */
  function Rank(s: seq<ScoredTask>): (r: seq<ScoredTask>)
    ensures |r| == |s| && multiset(r) == multiset(s)
  {
    if s == [] then []
    else
      assert s == [s[0]] + s[1..];
      Insert(s[0], Rank(s[1..]))
  }

  lemma {:induction false} InsertSorted(x: ScoredTask, r: seq<ScoredTask>)
    requires SortedDescending(r)
    ensures SortedDescending(Insert(x, r))
  {
    if r == [] || x.score >= r[0].score {
    } else {
      SortedTail(r);
      InsertSorted(x, r[1..]);
      var s := Insert(x, r[1..]);
      forall e | e in s
        ensures e.score <= r[0].score
      {
        assert e in multiset(s);
        if e != x {
          assert e in r[1..];
        }
      }
      var t := [r[0]] + s;
      forall i, j | 0 <= i < j < |t|
        ensures t[i].score >= t[j].score
      {
        assert t[j] == s[j - 1];
        if i > 0 {
          assert t[i] == s[i - 1];
        }
      }
      assert Insert(x, r) == t;
    }
  }

  lemma {:induction false} RankSorted(s: seq<ScoredTask>)
    ensures SortedDescending(Rank(s))
  {
    if s != [] {
      RankSorted(s[1..]);
      InsertSorted(s[0], Rank(s[1..]));
    }
  }

  lemma {:induction false} WithScoreAppend(a: seq<ScoredTask>, b: seq<ScoredTask>, v: int)
    ensures WithScore(a + b, v) == WithScore(a, v) + WithScore(b, v)
  {
    if a == [] {
      assert a + b == b;
    } else {
      var head := if a[0].score == v then [a[0]] else [];
      assert (a + b)[0] == a[0] && (a + b)[1..] == a[1..] + b;
      WithScoreAppend(a[1..], b, v);
      calc {
        WithScore(a + b, v);
        head + WithScore(a[1..] + b, v);
        head + (WithScore(a[1..], v) + WithScore(b, v));
        (head + WithScore(a[1..], v)) + WithScore(b, v);
      }
    }
  }

  /** Inserting `x` into a sorted sequence puts it first among its equals. */
  lemma {:induction false} InsertWithScore(x: ScoredTask, r: seq<ScoredTask>, v: int)
    requires SortedDescending(r)
    ensures WithScore(Insert(x, r), v) == (if x.score == v then [x] else []) + WithScore(r, v)
  {
    if r == [] || x.score >= r[0].score {
      WithScoreAppend([x], r, v);
    } else {
      InsertWithScore(x, r[1..], v);
      WithScoreAppend([r[0]], Insert(x, r[1..]), v);
      WithScoreAppend([r[0]], r[1..], v);
      assert [r[0]] + r[1..] == r;
    }
  }

  /** Stability: the entries with any one score appear in their input order. */
  lemma {:induction false} RankStable(s: seq<ScoredTask>, v: int)
    ensures WithScore(Rank(s), v) == WithScore(s, v)
  {
    if s != [] {
      RankSorted(s[1..]);
      RankStable(s[1..], v);
      InsertWithScore(s[0], Rank(s[1..]), v);
    }
  }

  lemma {:induction false} WithScoreNonEmpty(s: seq<ScoredTask>, i: nat)
    requires i < |s|
    ensures WithScore(s, s[i].score) != []
  {
    if i > 0 {
      WithScoreNonEmpty(s[1..], i - 1);
    }
  }

  /** Every entry WithScore keeps is an entry of `s` with score `v`. */
  lemma {:induction false} WithScoreMember(s: seq<ScoredTask>, v: int, k: nat)
    requires k < |WithScore(s, v)|
    ensures WithScore(s, v)[k] in s && WithScore(s, v)[k].score == v
  {
    if s[0].score != v {
      WithScoreMember(s[1..], v, k);
    } else if k > 0 {
      WithScoreMember(s[1..], v, k - 1);
    }
  }

  lemma SortedFirstIsMax(s: seq<ScoredTask>, e: ScoredTask)
    requires SortedDescending(s) && e in s
    ensures s[0].score >= e.score
  {
    var i :| 0 <= i < |s| && s[i] == e;
    if i > 0 {
      assert s[0].score >= s[i].score;
    }
  }

  /** Two stable descending orders of the same entries start with the same entry. */
  lemma HeadsAgree(x: seq<ScoredTask>, y: seq<ScoredTask>)
    requires SortedDescending(x) && SortedDescending(y) && x != []
    requires forall v :: WithScore(x, v) == WithScore(y, v)
    ensures y != [] && x[0] == y[0]
  {
    WithScoreNonEmpty(x, 0);
    var wx := WithScore(y, x[0].score);
    assert wx == WithScore(x, x[0].score);
    WithScoreMember(y, x[0].score, 0);
    WithScoreNonEmpty(y, 0);
    var wy := WithScore(x, y[0].score);
    assert wy == WithScore(y, y[0].score);
    WithScoreMember(x, y[0].score, 0);
    SortedFirstIsMax(x, wy[0]);
    SortedFirstIsMax(y, wx[0]);
    assert WithScore(x, x[0].score)[0] == x[0];
    assert WithScore(y, y[0].score)[0] == y[0];
  }

  lemma SortedTail(s: seq<ScoredTask>)
    requires SortedDescending(s) && s != []
    ensures SortedDescending(s[1..])
  {
    forall i, j | 0 <= i < j < |s| - 1
      ensures s[1..][i].score >= s[1..][j].score
    {
      assert s[1..][i] == s[i + 1] && s[1..][j] == s[j + 1];
    }
  }

  lemma TailsAgree(x: seq<ScoredTask>, y: seq<ScoredTask>, v: int)
    requires x != [] && y != [] && x[0] == y[0]
    requires WithScore(x, v) == WithScore(y, v)
    ensures WithScore(x[1..], v) == WithScore(y[1..], v)
  {
    var head := if x[0].score == v then [x[0]] else [];
    assert WithScore(x[1..], v) == WithScore(x, v)[|head|..];
    assert WithScore(y[1..], v) == WithScore(y, v)[|head|..];
  }

  /**
   * A descending order that is stable for every score is unique: two such
   * orders of the same entries are equal.
   */
  lemma {:induction false} StableOrderUnique(x: seq<ScoredTask>, y: seq<ScoredTask>)
    requires SortedDescending(x) && SortedDescending(y)
    requires forall v :: WithScore(x, v) == WithScore(y, v)
    ensures x == y
  {
    if x == [] {
      if y != [] {
        HeadsAgree(y, x);
      }
    } else {
      HeadsAgree(x, y);
      forall v
        ensures WithScore(x[1..], v) == WithScore(y[1..], v)
      {
        TailsAgree(x, y, v);
      }
      SortedTail(x);
      SortedTail(y);
      StableOrderUnique(x[1..], y[1..]);
      assert x == [x[0]] + x[1..];
      assert y == [y[0]] + y[1..];
    }
  }

  /**
   * Rank is the stable descending sort: any sequence sorted by score,
   * highest first, that keeps every score's entries in input order is Rank(s).
   */
  lemma RankIsUnique(s: seq<ScoredTask>, r: seq<ScoredTask>)
    requires SortedDescending(r)
    requires forall v :: WithScore(r, v) == WithScore(s, v)
    ensures r == Rank(s)
  {
    RankSorted(s);
    forall v
      ensures WithScore(r, v) == WithScore(Rank(s), v)
    {
      RankStable(s, v);
    }
    StableOrderUnique(r, Rank(s));
  }
}
