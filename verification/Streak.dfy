/** The total and the longest streak of an activity snapshot. */
module Streak {
  import opened Keyset
  import Heatmap

  datatype Day = Day(date: Option<int>, count: int)

  function Sum(days: seq<Day>): int {
    if days == [] then 0 else Sum(days[..|days| - 1]) + days[|days| - 1].count
  }

  /** A stretch of entries with positive counts on successive calendar dates. */
  ghost predicate IsRun(days: seq<Day>, i: int, j: int) {
    && 0 <= i <= j <= |days|
    && (forall k :: i <= k < j ==> days[k].count > 0 && days[k].date.Some?)
    && (forall k :: i < k < j ==> days[k].date.value == days[k - 1].date.value + 1)
  }

  /** n is the greatest length of a run among the first m entries. */
  ghost predicate Longest(days: seq<Day>, m: int, n: int) {
    && (exists i, j :: IsRun(days, i, j) && j <= m && j - i == n)
    && (forall i, j :: IsRun(days, i, j) && j <= m ==> j - i <= n)
  }

  /** n is the length of the longest run that ends just before entry m. */
  ghost predicate EndsWith(days: seq<Day>, m: int, n: int) {
    && n >= 0 && IsRun(days, m - n, m)
    && (forall i :: IsRun(days, i, m) ==> m - i <= n)
  }

  /** The loop over the days, for any list. It fails exactly on a negative count,
      an overflowing total, or a positive count without a date. */
  method Summarize(days: seq<Day>) returns (total: int, longest: int, ok: bool)
    ensures ok <==>
              && (forall i :: 0 <= i < |days| ==> days[i].count >= 0 && (days[i].count > 0 ==> days[i].date.Some?))
              && Sum(days) <= Heatmap.MAX_INT
    ensures ok ==> total == Sum(days) && Longest(days, |days|, longest)
  {
    hide IsRun, Longest, EndsWith;
    total, longest := 0, 0;
    var current, previous := 0, 0;
    Begins(days);
    for i := 0 to |days|
      invariant total == Sum(days[..i]) && 0 <= total <= Heatmap.MAX_INT
      invariant forall j :: 0 <= j < i ==> days[j].count >= 0 && (days[j].count > 0 ==> days[j].date.Some?)
      invariant Longest(days, i, longest) && EndsWith(days, i, current) && 0 <= current <= longest
      invariant current > 0 ==> i > 0 && days[i - 1].date == Some(previous)
    {
      var day := days[i];
      assert days[..i + 1][..i] == days[..i];
      var sum, failed := Heatmap.AddMetricValues(total, day.count);
      if failed.Some? {
        StaysTooLarge(days, i);
        return total, longest, false;
      }
      total := sum;
      if day.count <= 0 {
        Breaks(days, i, longest, current);
        current := 0;
        continue;
      }
      if day.date.None? { return total, longest, false; }
      if current > 0 && day.date.value == previous + 1 {
        Continues(days, i, longest, current);
        current := current + 1;
      } else {
        Restarts(days, i, longest, current);
        current := 1;
      }
      if current > longest { longest := current; }
      previous := day.date.value;
    }
    assert days[..|days|] == days;
    ok := true;
  }

  lemma Begins(days: seq<Day>)
    ensures Longest(days, 0, 0) && EndsWith(days, 0, 0)
  {
    assert IsRun(days, 0, 0);
  }

  /** A negative count, or a total already too large, spoils the whole list. */
  lemma StaysTooLarge(days: seq<Day>, i: int)
    requires 0 <= i < |days|
    requires days[i].count < 0 || Sum(days[..i]) + days[i].count > Heatmap.MAX_INT
    ensures !((forall j :: 0 <= j < |days| ==> days[j].count >= 0) && Sum(days) <= Heatmap.MAX_INT)
  {
    assert days[..i + 1][..i] == days[..i];
    if forall j :: 0 <= j < |days| ==> days[j].count >= 0 {
      SumGrows(days, i + 1);
    }
  }

  lemma {:induction false} SumGrows(days: seq<Day>, n: int)
    requires 0 <= n <= |days| && forall j :: 0 <= j < |days| ==> days[j].count >= 0
    ensures Sum(days[..n]) <= Sum(days)
  {
    if n < |days| {
      SumGrows(days[..|days| - 1], n);
      assert days[..|days| - 1][..n] == days[..n];
    } else {
      assert days[..n] == days;
    }
  }

  lemma Shorter(days: seq<Day>, i: int, j: int)
    requires IsRun(days, i, j) && i < j
    ensures IsRun(days, i, j - 1)
  {
  }

  lemma Breaks(days: seq<Day>, i: int, longest: int, current: int)
    requires 0 <= i < |days| && days[i].count <= 0 && Longest(days, i, longest) && longest >= 0
    ensures Longest(days, i + 1, longest) && EndsWith(days, i + 1, 0)
  {
    assert IsRun(days, i + 1, i + 1);
    assert forall a, b :: IsRun(days, a, b) && b == i + 1 ==> a == b;
    forall a, b | IsRun(days, a, b) && b <= i + 1 ensures b - a <= longest {
    }
  }

  lemma Continues(days: seq<Day>, i: int, longest: int, current: int)
    requires 0 < i < |days| && days[i].count > 0 && days[i].date.Some? && days[i - 1].date.Some?
    requires days[i].date.value == days[i - 1].date.value + 1
    requires Longest(days, i, longest) && EndsWith(days, i, current) && 0 < current <= longest
    ensures EndsWith(days, i + 1, current + 1)
    ensures Longest(days, i + 1, if current + 1 > longest then current + 1 else longest)
  {
    assert IsRun(days, i - current, i + 1);
    forall a, b | IsRun(days, a, b) && b == i + 1 ensures b - a <= current + 1 {
      if a < i + 1 { Shorter(days, a, i + 1); }
    }
  }

  lemma Restarts(days: seq<Day>, i: int, longest: int, current: int)
    requires 0 <= i < |days| && days[i].count > 0 && days[i].date.Some?
    requires Longest(days, i, longest) && EndsWith(days, i, current) && 0 <= current <= longest
    requires current > 0 ==> i > 0 && days[i - 1].date.Some? && days[i].date.value != days[i - 1].date.value + 1
    ensures EndsWith(days, i + 1, 1)
    ensures Longest(days, i + 1, if 1 > longest then 1 else longest)
  {
    assert IsRun(days, i, i + 1);
    forall a, b | IsRun(days, a, b) && b == i + 1 ensures b - a <= 1 {
      if a < i {
        Shorter(days, a, i + 1);
      }
    }
  }

  // ---------- calendar streaks ----------

  ghost predicate Ascending(days: seq<Day>) {
    && (forall i :: 0 <= i < |days| ==> days[i].date.Some?)
    && (forall i, j :: 0 <= i < j < |days| ==> days[i].date.value < days[j].date.value)
  }

  /** The calendar date has an entry with a positive count. */
  ghost predicate ActiveOn(days: seq<Day>, date: int) {
    exists i :: 0 <= i < |days| && days[i].date == Some(date) && days[i].count > 0
  }

  /** n consecutive calendar dates from a, all active. */
  ghost predicate Streak(days: seq<Day>, a: int, n: int) {
    n >= 0 && forall d :: a <= d < a + n ==> ActiveOn(days, d)
  }

  /** For days in date order, runs of entries are streaks of dates and the other
      way round: a missing date breaks a streak. */
  lemma RunIsStreak(days: seq<Day>, i: int, j: int)
    requires Ascending(days) && IsRun(days, i, j) && i < j
    ensures Streak(days, days[i].date.value, j - i)
  {
    forall d | days[i].date.value <= d < days[i].date.value + (j - i) ensures ActiveOn(days, d) {
      var k := i + (d - days[i].date.value);
      RunDates(days, i, j, k);
      assert days[k].date == Some(d);
    }
  }

  lemma {:induction false} RunDates(days: seq<Day>, i: int, j: int, k: int)
    requires IsRun(days, i, j) && i <= k < j
    ensures days[k].date == Some(days[i].date.value + (k - i))
    decreases k
  {
    if k > i { RunDates(days, i, j, k - 1); }
  }

  lemma {:induction false} StreakIsRun(days: seq<Day>, a: int, n: int) returns (i: int)
    requires Ascending(days) && Streak(days, a, n) && n > 0
    ensures IsRun(days, i, i + n) && days[i].date == Some(a)
    decreases n
  {
    hide Ascending;
    assert ActiveOn(days, a);
    if n == 1 {
      i :| 0 <= i < |days| && days[i].date == Some(a) && days[i].count > 0;
    } else {
      assert forall d :: a <= d < a + (n - 1) ==> ActiveOn(days, d);
      i := StreakIsRun(days, a, n - 1);
      assert ActiveOn(days, a + n - 1);
      RunGrows(days, i, a, n - 1);
    }
  }

  /** A run followed by an active date goes on to that date's entry. */
  lemma RunGrows(days: seq<Day>, i: int, a: int, n: int)
    requires Ascending(days) && n > 0 && IsRun(days, i, i + n) && days[i].date == Some(a) && ActiveOn(days, a + n)
    ensures IsRun(days, i, i + n + 1)
  {
    RunDates(days, i, i + n, i + n - 1);
    var k :| 0 <= k < |days| && days[k].date == Some(a + n) && days[k].count > 0;
    NextEntry(days, i + n - 1, k);
  }

  /** In date order the next date's entry is the next entry. */
  lemma NextEntry(days: seq<Day>, p: int, k: int)
    requires Ascending(days) && 0 <= p < |days| && 0 <= k < |days| && days[k].date.value == days[p].date.value + 1
    ensures k == p + 1
  {
    if k > p + 1 { TwoLater(days, p, k); }
  }

  lemma TwoLater(days: seq<Day>, p: int, k: int)
    requires Ascending(days) && 0 <= p && p + 1 < k < |days|
    ensures days[p].date.value + 2 <= days[k].date.value
  {
    assert days[p].date.value < days[p + 1].date.value < days[k].date.value;
  }

  /** The reported streak is the greatest number of consecutive active dates. */
  lemma LongestIsCalendarStreak(days: seq<Day>, longest: int)
    requires Ascending(days) && Longest(days, |days|, longest)
    ensures longest > 0 ==> exists a :: Streak(days, a, longest)
    ensures forall a, n :: Streak(days, a, n) ==> n <= longest
  {
    hide Ascending, Streak;
    var i, j :| IsRun(days, i, j) && j <= |days| && j - i == longest;
    if longest > 0 { RunIsStreak(days, i, j); }
    forall a, n | Streak(days, a, n) ensures n <= longest {
      if n > 0 {
        var k := StreakIsRun(days, a, n);
        assert IsRun(days, k, k + n);
      }
    }
  }
}
