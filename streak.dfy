/**
 * The day streak recomputed from a learner's history: the days with at least one attempt,
 * newest first, as the streak migration reads them. Days are day numbers.
 */
module Streaks {
  import opened Wrappers
  import opened Profiles
  import UserProgress

  /** Newest first, each day at most once: the order the history query returns. */
  predicate Descending(days: seq<int>)
  {
    forall j, k :: 0 <= j < k < |days| ==> days[j] > days[k]
  }

  /** What the loop counts from position `i` on while it expects the day `expected`: a match
      counts and moves the expected day back by one, an older day ends the run, and a newer
      day is passed over. */
  function Run(days: seq<int>, i: nat, expected: int): (n: nat)
    requires i <= |days|
    ensures n <= |days| - i
    decreases |days| - i
  {
    if i == |days| then 0
    else if days[i] == expected then 1 + Run(days, i + 1, expected - 1)
    else if days[i] < expected then 0
    else Run(days, i + 1, expected)
  }

  /** `calculate_streak_for_profile`: the run that ends on the newest day, counted only when
      that day is today or yesterday. */
  function Streak(days: seq<int>, today: int): (n: nat)
    ensures |days| == 0 ==> n == 0
    ensures n <= |days|
    ensures |days| > 0 && days[0] < today - 1 ==> n == 0
    ensures |days| > 0 && days[0] >= today - 1 ==> n >= 1
  {
    if |days| == 0 then 0
    else if days[0] >= today - 1 then Run(days, 0, days[0])
    else 0
  }

  /** The loop of the migration, proved to compute `Streak`. */
  method CalculateStreak(days: seq<int>, today: int) returns (streak: int)
    ensures streak == Streak(days, today)
  {
    if |days| == 0 {
      return 0;
    }
    var count := 0;
    var endedAt := days[0];
    var expected := endedAt;
    var i := 0;
    while i < |days|
      invariant 0 <= i <= |days|
      invariant count + Run(days, i, expected) == Run(days, 0, endedAt)
    {
      if days[i] == expected {
        count := count + 1;
        expected := expected - 1;
      } else if days[i] < expected {
        break;
      }
      i := i + 1;
    }
    streak := 0;
    if endedAt >= today - 1 {
      streak := count;
    }
  }

  /** On a history without repeats, the run from the newest day is exactly the longest
      stretch of consecutive days ending on it (helper, from any point of that stretch). */
  lemma {:induction false} RunIsConsecutiveFrom(days: seq<int>, i: nat)
    requires Descending(days) && 0 < |days| && i <= |days|
    requires forall k :: 0 <= k < i ==> days[k] == days[0] - k
    ensures var n := i + Run(days, i, days[0] - i);
      && n <= |days|
      && (forall k :: 0 <= k < n ==> days[k] == days[0] - k)
      && (n < |days| ==> days[n] < days[0] - n)
    decreases |days| - i
  {
    if i < |days| {
      if i > 0 {
        assert days[i] < days[i - 1];
      }
      assert days[i] <= days[0] - i;
      if days[i] == days[0] - i {
        RunIsConsecutiveFrom(days, i + 1);
      }
    }
  }

  /** The streak of a history that reaches today or yesterday is the number of consecutive
      days that end on its newest day, and the day before that stretch is missing. */
  lemma StreakCountsConsecutiveDays(days: seq<int>, today: int)
    requires Descending(days) && |days| > 0 && days[0] >= today - 1
    ensures var n := Streak(days, today);
      && (forall k :: 0 <= k < n ==> days[k] == days[0] - k)
      && (n < |days| ==> days[n] < days[0] - n)
  {
    RunIsConsecutiveFrom(days, 0);
  }

  /** Putting a newer day in front shifts every position of the run by one. */
  lemma {:induction false} RunShift(days: seq<int>, d: int, i: nat, expected: int)
    requires i <= |days|
    ensures Run([d] + days, i + 1, expected) == Run(days, i, expected)
    decreases |days| - i
  {
    var e := [d] + days;
    if i < |days| {
      assert e[i + 1] == days[i];
      RunShift(days, d, i + 1, expected - 1);
      RunShift(days, d, i + 1, expected);
    }
  }

  /** The history after an exercise today: today's day in front, unless it is already there. */
  function WithDay(days: seq<int>, today: int): seq<int>
  {
    if |days| > 0 && days[0] == today then days else [today] + days
  }

  lemma WithDayDescending(days: seq<int>, today: int)
    requires Descending(days) && (|days| > 0 ==> days[0] <= today)
    ensures Descending(WithDay(days, today))
    ensures |WithDay(days, today)| > 0 && WithDay(days, today)[0] == today
  {
  }

  /** A profile agrees with a history when its last exercise falls on the newest day and its
      streak is the history's streak on that day. */
  predicate Agrees(p: Profile, days: seq<int>)
  {
    && Descending(days)
    && (p.lastExerciseAt.None? <==> |days| == 0)
    && (|days| > 0 ==> DayOf(p.lastExerciseAt.value) == days[0] && p.currentStreakDays == Streak(days, days[0]))
  }

  /** The streak the next exercise records agrees with recomputing it from the history that
      includes today: the counter kept by the request path and the migration's recomputation
      are the same function of the history. */
  lemma NewStreakMatchesHistory(p: Profile, days: seq<int>, now: int)
    requires Agrees(p, days)
    requires |days| > 0 ==> days[0] <= DayOf(now)
    ensures UserProgress.NewStreak(p, now) == Streak(WithDay(days, DayOf(now)), DayOf(now))
  {
    var today := DayOf(now);
    if |days| > 0 && days[0] != today {
      RunShift(days, today, 0, today - 1);
    }
  }

  /** Recording an exercise keeps the profile in agreement with the history that now includes
      today. */
  lemma RecordingKeepsAgreement(p: Profile, days: seq<int>, now: int)
    requires Agrees(p, days)
    requires |days| > 0 ==> days[0] <= DayOf(now)
    ensures Agrees(p.(lastExerciseAt := Some(now), currentStreakDays := UserProgress.NewStreak(p, now)),
                   WithDay(days, DayOf(now)))
  {
    WithDayDescending(days, DayOf(now));
    NewStreakMatchesHistory(p, days, now);
  }
}
