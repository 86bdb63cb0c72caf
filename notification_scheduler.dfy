/**
 * The reminder scheduler: every few minutes it reminds learners whose session freeze just
 * ended, and climbs a ladder of long-break reminders for learners who stopped practising,
 * never faster than a cooldown. The profile queries are parameters (the profiles they return,
 * each with the behaviour of the queue for its task); sent reminders are recorded in the
 * profile store.
 */
module NotificationScheduler {
  import opened Wrappers
  import opened Profiles
  import opened NotificationProducer

  const SchedulerIntervalSeconds: int := 300
  const CooldownHours: int := 47
  const CooldownSeconds: int := CooldownHours * 3600

  /** The rungs of the long-break ladder, named as in the settings. */
  datatype Rung = Day1 | Day3 | Day5 | Day8 | Day13 | Day21 | Day30 | Day90

  /** The key of a rung in the settings, the text stored in the profile. */
  function RungName(r: Rung): string
  {
    match r
    case Day1 => "1d"
    case Day3 => "3d"
    case Day5 => "5d"
    case Day8 => "8d"
    case Day13 => "13d"
    case Day21 => "21d"
    case Day30 => "30d"
    case Day90 => "90d"
  }

  function RungDays(r: Rung): int
  {
    match r
    case Day1 => 1
    case Day3 => 3
    case Day5 => 5
    case Day8 => 8
    case Day13 => 13
    case Day21 => 21
    case Day30 => 30
    case Day90 => 90
  }

  /** The break, in seconds, after which a rung is due. */
  function Interval(r: Rung): int
  {
    RungDays(r) * SecondsPerDay
  }

  /** The ladder, shortest break first. */
  const ReminderSequence: seq<Rung> := [Day1, Day3, Day5, Day8, Day13, Day21, Day30, Day90]

  lemma RungNamesDistinct(a: Rung, b: Rung)
    requires RungName(a) == RungName(b)
    ensures a == b
  {
    assert RungName(a)[0] == RungName(b)[0];
    assert |RungName(a)| == |RungName(b)|;
  }

  /** The intervals grow strictly along the ladder. */
  lemma LadderAscending()
    ensures forall j, k :: 0 <= j < k < |ReminderSequence| ==> Interval(ReminderSequence[j]) < Interval(ReminderSequence[k])
  {
  }

  /** Every rung is on the ladder, at the position of its name. */
  lemma RungOnLadder(r: Rung) returns (k: nat)
    ensures k < |ReminderSequence| && ReminderSequence[k] == r
  {
    k := match r
      case Day1 => 0
      case Day3 => 1
      case Day5 => 2
      case Day8 => 3
      case Day13 => 4
      case Day21 => 5
      case Day30 => 6
      case Day90 => 7;
  }

  // ---------------------------------------------------------------------------------------
  // Session reminders

  /** The freeze ended within the last scheduler interval. */
  predicate FreezeEndedInWindow(frozenUntil: int, now: int)
  {
    now - SchedulerIntervalSeconds < frozenUntil <= now
  }

  /** `_process_session_reminders`: only a learner who asked for session reminders, and whose
      freeze ended since the previous cycle, is reminded. */
  predicate SessionReminderDue(p: Profile, now: int)
  {
    p.wantsSessionReminders == Some(true) && p.sessionFrozenUntil.Some? && FreezeEndedInWindow(p.sessionFrozenUntil.value, now)
  }

  /** Whenever the scheduler calls the producer, the producer's own guards pass, so the queue
      alone decides the result. */
  lemma SchedulerPassesProducerGuards(user: User, p: Profile, now: int, q: QueueBehaviour)
    requires SessionReminderDue(p, now)
    ensures PrepareSessionReminder(user, p, now, q) == EnqueueNotification(SessionReminderTask(user, p), q)
  {
  }

  /** With cycles one interval apart, starting at `start`, exactly one cycle sees the end of a
      freeze that happens after the first cycle's window opened: no reminder is missed and
      none is sent twice. */
  lemma ExactlyOneCycleSeesFreezeEnd(frozenUntil: int, start: int)
    requires frozenUntil > start - SchedulerIntervalSeconds
    ensures exists k: nat :: FreezeEndedInWindow(frozenUntil, start + k * SchedulerIntervalSeconds)
    ensures forall k: nat, m: nat ::
      (FreezeEndedInWindow(frozenUntil, start + k * SchedulerIntervalSeconds) &&
       FreezeEndedInWindow(frozenUntil, start + m * SchedulerIntervalSeconds)) ==> k == m
  {
    var n := frozenUntil - start + SchedulerIntervalSeconds - 1;
    var k := n / SchedulerIntervalSeconds;
    assert n == SchedulerIntervalSeconds * k + n % SchedulerIntervalSeconds;
    assert FreezeEndedInWindow(frozenUntil, start + k * SchedulerIntervalSeconds);
    forall k: nat, m: nat |
      FreezeEndedInWindow(frozenUntil, start + k * SchedulerIntervalSeconds) &&
      FreezeEndedInWindow(frozenUntil, start + m * SchedulerIntervalSeconds)
      ensures k == m
    {
      assert (k - m) * SchedulerIntervalSeconds < SchedulerIntervalSeconds;
      assert (m - k) * SchedulerIntervalSeconds < SchedulerIntervalSeconds;
    }
  }

  // ---------------------------------------------------------------------------------------
  // Long-break reminders

  /** `sequence.index(name)`: the position of the rung with that name, or -1 where Python
      raises ValueError. */
  function IndexOfName(xs: seq<Rung>, name: string): (i: int)
    ensures -1 <= i < |xs|
    ensures i >= 0 ==> RungName(xs[i]) == name
    ensures i == -1 <==> forall k :: 0 <= k < |xs| ==> RungName(xs[k]) != name
  {
    if |xs| == 0 then -1
    else if RungName(xs[0]) == name then 0
    else
      var i := IndexOfName(xs[1..], name);
      assert forall k :: 1 <= k < |xs| ==> xs[k] == xs[1..][k - 1];
      if i < 0 then -1 else i + 1
  }

  /** The rung of the last long-break reminder sent, or -1 when there is none (an empty type
      counts as none) or its name is not on the ladder. */
  function LastSentIndex(p: Profile): (i: int)
    ensures -1 <= i < |ReminderSequence|
  {
    match p.lastLongBreakTypeSent
    case None => -1
    case Some(t) => if |t| == 0 then -1 else IndexOfName(ReminderSequence, t)
  }

  /** The rungs still to climb: those after the last one sent. */
  function Candidates(p: Profile): seq<Rung>
  {
    ReminderSequence[LastSentIndex(p) + 1..]
  }

  /** The last rung (scanning from the end) whose interval has passed after `since` seconds
      of inactivity. */
  function LastFitting(cands: seq<Rung>, since: int): Option<Rung>
  {
    if |cands| == 0 then None
    else if Interval(cands[|cands| - 1]) <= since then Some(cands[|cands| - 1])
    else LastFitting(cands[..|cands| - 1], since)
  }

  /** The loop over the reversed candidates, proved to find `LastFitting`. */
  method ChooseReminder(cands: seq<Rung>, since: int) returns (r: Option<Rung>)
    ensures r == LastFitting(cands, since)
  {
    var i := |cands|;
    assert cands[..i] == cands;
    while i > 0 && Interval(cands[i - 1]) > since
      invariant 0 <= i <= |cands|
      invariant LastFitting(cands[..i], since) == LastFitting(cands, since)
    {
      assert cands[..i][..i - 1] == cands[..i - 1];
      i := i - 1;
    }
    if i > 0 {
      r := Some(cands[i - 1]);
    } else {
      r := None;
    }
  }

  predicate Ascending(cands: seq<Rung>)
  {
    forall j, k :: 0 <= j < k < |cands| ==> Interval(cands[j]) < Interval(cands[k])
  }

  /** On ascending candidates the chosen rung is the one with the largest interval that has
      passed; there is none exactly when no interval has passed. */
  lemma {:induction false} LastFittingIsLargestPassed(cands: seq<Rung>, since: int)
    requires Ascending(cands)
    ensures LastFitting(cands, since).None? <==> forall c :: c in cands ==> Interval(c) > since
    ensures LastFitting(cands, since).Some? ==>
      var t := LastFitting(cands, since).value;
      && t in cands
      && Interval(t) <= since
      && forall c :: c in cands && Interval(c) <= since ==> Interval(c) <= Interval(t)
    decreases |cands|
  {
    if |cands| > 0 {
      var last := cands[|cands| - 1];
      var init := cands[..|cands| - 1];
      assert cands == init + [last];
      if Interval(last) <= since {
        forall c | c in cands && Interval(c) <= since ensures Interval(c) <= Interval(last) {
          var k :| 0 <= k < |cands| && cands[k] == c;
          assert k < |cands| - 1 ==> Interval(cands[k]) < Interval(last);
        }
      } else {
        LastFittingIsLargestPassed(init, since);
      }
    }
  }

  /** A suffix of an ascending sequence is ascending. */
  lemma SuffixAscending(xs: seq<Rung>, i: nat)
    requires Ascending(xs) && i <= |xs|
    ensures Ascending(xs[i..])
  {
    var ys := xs[i..];
    forall j, k | 0 <= j < k < |ys| ensures Interval(ys[j]) < Interval(ys[k]) {
      assert ys[j] == xs[i + j] && ys[k] == xs[i + k];
    }
  }

  lemma CandidatesAscending(p: Profile)
    ensures Ascending(Candidates(p))
  {
    LadderAscending();
    SuffixAscending(ReminderSequence, LastSentIndex(p) + 1);
  }

  /** A missing, empty or unknown last type restarts from the first rung. */
  lemma UnknownTypeRestarts(p: Profile)
    requires p.lastLongBreakTypeSent.None? || forall r :: RungName(r) != p.lastLongBreakTypeSent.value
    ensures Candidates(p) == ReminderSequence
  {
  }

  /** Looking up a rung's name on the ladder finds that rung. */
  lemma NameFindsRung(t: Rung)
    ensures var i := IndexOfName(ReminderSequence, RungName(t));
      0 <= i < |ReminderSequence| && ReminderSequence[i] == t
  {
    var k0 := RungOnLadder(t);
    var i := IndexOfName(ReminderSequence, RungName(t));
    assert i != -1 by {
      assert RungName(ReminderSequence[k0]) == RungName(t);
    }
    RungNamesDistinct(ReminderSequence[i], t);
  }

  /** Every entry after position `i` of an ascending sequence lies above the entry at `i`. */
  lemma AboveInAscending(xs: seq<Rung>, i: nat)
    requires Ascending(xs) && i < |xs|
    ensures forall c :: c in xs[i + 1..] ==> Interval(c) > Interval(xs[i])
  {
    forall c | c in xs[i + 1..] ensures Interval(c) > Interval(xs[i]) {
      var k :| 0 <= k < |xs[i + 1..]| && xs[i + 1..][k] == c;
      assert c == xs[i + 1 + k];
    }
  }

  /** After rung `t` was sent, only higher rungs remain: the same reminder is never sent twice
      in a row, and the ladder only climbs. */
  lemma LadderOnlyClimbs(p: Profile, t: Rung)
    ensures var cands := Candidates(p.(lastLongBreakTypeSent := Some(RungName(t))));
      && t !in cands
      && forall c :: c in cands ==> Interval(c) > Interval(t)
  {
    var q := p.(lastLongBreakTypeSent := Some(RungName(t)));
    NameFindsRung(t);
    assert |RungName(t)| > 0;
    var i := LastSentIndex(q);
    assert i == IndexOfName(ReminderSequence, RungName(t));
    LadderAscending();
    AboveInAscending(ReminderSequence, i);
  }

  /** What the long-break check decides for one profile. */
  datatype LongBreakPlan =
    | NoReminder
    | CoolingDown(reminderType: Rung)
    | SendReminder(reminderType: Rung, daysInactive: int)

  /** The rung a break of the profile's length has reached among those still to climb, or
      none (always none without a last exercise). */
  function PassedRung(p: Profile, now: int): Option<Rung>
  {
    if p.lastExerciseAt.None? then None
    else LastFitting(Candidates(p), now - p.lastExerciseAt.value)
  }

  /** `_process_long_break_reminders` up to the send: no reminder without a passed rung; a
      passed rung waits while the previous reminder is younger than the cooldown; otherwise it
      is sent with the whole days of inactivity. */
  function PlanLongBreak(p: Profile, now: int): (plan: LongBreakPlan)
    ensures p.lastExerciseAt.None? ==> plan == NoReminder
    ensures plan.SendReminder? ==>
      && p.lastExerciseAt.Some?
      && plan.daysInactive == (now - p.lastExerciseAt.value) / SecondsPerDay
      && (p.lastLongBreakSentAt.None? || now - p.lastLongBreakSentAt.value >= CooldownSeconds)
    ensures plan.CoolingDown? ==> p.lastLongBreakSentAt.Some? && now - p.lastLongBreakSentAt.value < CooldownSeconds
  {
    match PassedRung(p, now)
    case None => NoReminder
    case Some(t) =>
      if p.lastLongBreakSentAt.Some? && now - p.lastLongBreakSentAt.value < CooldownSeconds then CoolingDown(t)
      else SendReminder(t, (now - p.lastExerciseAt.value) / SecondsPerDay)
  }

  /** The reminder planned, or held back by the cooldown, is the largest passed rung among
      those still to climb, and a profile whose break passed no rung gets none. */
  lemma PlanPicksLargestPassedRung(p: Profile, now: int)
    requires p.lastExerciseAt.Some?
    ensures var plan := PlanLongBreak(p, now);
      var since := now - p.lastExerciseAt.value;
      && (plan.NoReminder? <==> forall c :: c in Candidates(p) ==> Interval(c) > since)
      && (!plan.NoReminder? ==>
            && plan.reminderType in Candidates(p)
            && Interval(plan.reminderType) <= since
            && forall c :: c in Candidates(p) && Interval(c) <= since ==> Interval(c) <= Interval(plan.reminderType))
  {
    var since := now - p.lastExerciseAt.value;
    var cs := Candidates(p);
    PlanFollowsPassedRung(p, now);
    assert PassedRung(p, now) == LastFitting(cs, since);
    CandidatesAscending(p);
    LastFittingIsLargestPassed(cs, since);
  }

  /** The plan names the passed rung, and there is no reminder exactly when there is no
      passed rung. */
  lemma PlanFollowsPassedRung(p: Profile, now: int)
    ensures PlanLongBreak(p, now).NoReminder? <==> PassedRung(p, now).None?
    ensures !PlanLongBreak(p, now).NoReminder? ==> PlanLongBreak(p, now).reminderType == PassedRung(p, now).value
  {
  }

  /** The decision part of `_process_long_break_reminders`: no last exercise or no passed
      rung means no reminder, the rung is chosen by the loop over the reversed candidates, and
      a reminder younger than the cooldown holds it back. */
  method ChooseLongBreakPlan(p: Profile, now: int) returns (plan: LongBreakPlan)
    ensures plan == PlanLongBreak(p, now)
  {
    if p.lastExerciseAt.None? {
      return NoReminder;
    }
    var since := now - p.lastExerciseAt.value;
    var cands := Candidates(p);
    assert PassedRung(p, now) == LastFitting(cands, since);
    var reminderType := ChooseReminder(cands, since);
    if reminderType.None? {
      return NoReminder;
    }
    var t := reminderType.value;
    if p.lastLongBreakSentAt.Some? && now - p.lastLongBreakSentAt.value < CooldownSeconds {
      return CoolingDown(t);
    }
    return SendReminder(t, since / SecondsPerDay);
  }

  lemma PassedRungIgnoresSentAt(p: Profile, q: Profile, now: int)
    requires p.lastExerciseAt == q.lastExerciseAt && p.lastLongBreakTypeSent == q.lastLongBreakTypeSent
    ensures PassedRung(p, now) == PassedRung(q, now)
  {
    assert LastSentIndex(p) == LastSentIndex(q);
  }

  /** Exactly the cooldown since the previous reminder is enough; a second less is not. */
  lemma CooldownBoundary(p: Profile, now: int)
    requires PlanLongBreak(p.(lastLongBreakSentAt := None), now).SendReminder?
    ensures var q := p.(lastLongBreakSentAt := Some(now - CooldownSeconds));
      PlanLongBreak(q, now) == PlanLongBreak(p.(lastLongBreakSentAt := None), now)
    ensures var q := p.(lastLongBreakSentAt := Some(now - CooldownSeconds + 1));
      PlanLongBreak(q, now).CoolingDown?
  {
    var p0 := p.(lastLongBreakSentAt := None);
    PassedRungIgnoresSentAt(p0, p.(lastLongBreakSentAt := Some(now - CooldownSeconds)), now);
    PassedRungIgnoresSentAt(p0, p.(lastLongBreakSentAt := Some(now - CooldownSeconds + 1)), now);
  }

  /** `_get_min_long_break_duration`: the interval of the first rung, in seconds. */
  function MinLongBreakDuration(): (d: int)
    ensures d == Interval(ReminderSequence[0]) == SecondsPerDay
    ensures forall r :: d <= Interval(r)
  {
    Interval(ReminderSequence[0])
  }

  /** The query's minimum break drops no learner who could get a reminder. */
  lemma MinDurationKeepsEveryCandidate(p: Profile, now: int)
    requires !PlanLongBreak(p, now).NoReminder?
    ensures now - p.lastExerciseAt.value >= MinLongBreakDuration()
  {
    PlanPicksLargestPassedRung(p, now);
  }

  /** `_get_long_reminder_window_time`: the times of day (seconds after midnight) half a
      window before and after now; the half window is rounded down to whole seconds. */
  function LongReminderWindow(now: int, windowSeconds: int): (int, int)
  {
    var half := windowSeconds / 2;
    ((now - half) % SecondsPerDay, (now + half) % SecondsPerDay)
  }

  /** The current time of day lies in the window, which wraps past midnight when its start
      comes after its end. */
  lemma WindowContainsNow(now: int, windowSeconds: int)
    requires 0 <= windowSeconds < SecondsPerDay
    ensures var (start, end) := LongReminderWindow(now, windowSeconds);
      var t := now % SecondsPerDay;
      (start <= end ==> start <= t <= end) && (start > end ==> t >= start || t <= end)
  {
    var half := windowSeconds / 2;
    var t := now % SecondsPerDay;
    var d := now / SecondsPerDay;
    assert now == d * SecondsPerDay + t;
    if t - half >= 0 {
      assert (now - half) % SecondsPerDay == t - half by {
        assert now - half == d * SecondsPerDay + (t - half);
      }
    } else {
      assert (now - half) % SecondsPerDay == t - half + SecondsPerDay by {
        assert now - half == (d - 1) * SecondsPerDay + (t - half + SecondsPerDay);
      }
    }
    if t + half < SecondsPerDay {
      assert (now + half) % SecondsPerDay == t + half by {
        assert now + half == d * SecondsPerDay + (t + half);
      }
    } else {
      assert (now + half) % SecondsPerDay == t + half - SecondsPerDay by {
        assert now + half == (d + 1) * SecondsPerDay + (t + half - SecondsPerDay);
      }
    }
  }

  // ---------------------------------------------------------------------------------------
  // One cycle

  /** A profile returned by a query, its user, how the queue behaves for its task, and
      whether writing the profile back raises. */
  datatype ProfileEntry = ProfileEntry(user: User, profile: Profile, queue: QueueBehaviour, updateFails: bool)

  /** What one cycle works on: the time and the profiles of the two queries. */
  datatype CycleInput = CycleInput(now: int, sessionEntries: seq<ProfileEntry>, longBreakEntries: seq<ProfileEntry>)

  /** The tasks handed to the queue so far, and the stored profiles. */
  datatype SchedulerState = SchedulerState(enqueued: seq<TaskData>, profiles: map<ProfileKey, Profile>)

  /** The settings the cycle reads; the width of the long-break window is optional because
      the settings as shipped do not declare it. */
  datatype Settings = Settings(longBreakWindowSeconds: Option<int>)

  const ShippedSettings: Settings := Settings(None)

  datatype CycleError = MissingSetting(name: string)

  /** A user without an id or without a Telegram id is skipped. */
  predicate Incomplete(u: User)
  {
    u.userId == 0 || u.telegramId == 0
  }

  /** The profile as written back after a long-break reminder was enqueued. */
  function Recorded(p: Profile, reminderType: Rung, now: int): (q: Profile)
    ensures KeyOf(q) == KeyOf(p)
    ensures q.lastLongBreakTypeSent == Some(RungName(reminderType)) && q.lastLongBreakSentAt == Some(now)
    ensures q == p.(lastLongBreakTypeSent := q.lastLongBreakTypeSent, lastLongBreakSentAt := q.lastLongBreakSentAt)
  {
    p.(lastLongBreakTypeSent := Some(RungName(reminderType)), lastLongBreakSentAt := Some(now))
  }

  function SessionEffect(st: SchedulerState, e: ProfileEntry, now: int): SchedulerState
  {
    if SessionReminderDue(e.profile, now) && PrepareSessionReminder(e.user, e.profile, now, e.queue).ok then
      st.(enqueued := st.enqueued + [SessionReminderTask(e.user, e.profile)])
    else st
  }

  function LongBreakEffect(st: SchedulerState, e: ProfileEntry, now: int): SchedulerState
  {
    match PlanLongBreak(e.profile, now)
    case SendReminder(t, days) =>
      if PrepareLongBreakReminder(e.user, e.profile, RungName(t), days, e.queue).ok then
        var profiles := if e.updateFails then st.profiles else st.profiles[KeyOf(e.profile) := Recorded(e.profile, t, now)];
        SchedulerState(st.enqueued + [LongBreakTask(e.user, e.profile, RungName(t), days)], profiles)
      else st
    case _ => st
  }

  /** The effect of one profile of `_process_user_profiles`. */
  function EntryEffect(st: SchedulerState, e: ProfileEntry, kind: NotificationType, now: int): SchedulerState
  {
    if Incomplete(e.user) then st
    else match kind
      case SessionReminder => SessionEffect(st, e, now)
      case LongBreakReminder => LongBreakEffect(st, e, now)
  }

  /** The effect of a whole list of profiles, in order. */
  function ApplyEntries(st: SchedulerState, entries: seq<ProfileEntry>, kind: NotificationType, now: int): SchedulerState
    decreases |entries|
  {
    if |entries| == 0 then st
    else EntryEffect(ApplyEntries(st, entries[..|entries| - 1], kind, now), entries[|entries| - 1], kind, now)
  }

  /** Taking one more profile applies its effect and counts it when it is complete. */
  lemma ApplyEntriesStep(st: SchedulerState, entries: seq<ProfileEntry>, i: nat, kind: NotificationType, now: int)
    requires i < |entries|
    ensures ApplyEntries(st, entries[..i + 1], kind, now) == EntryEffect(ApplyEntries(st, entries[..i], kind, now), entries[i], kind, now)
    ensures CompleteCount(entries[..i + 1]) == CompleteCount(entries[..i]) + (if Incomplete(entries[i].user) then 0 else 1)
  {
    assert entries[..i + 1][..i] == entries[..i];
  }

  /** The number of profiles the loop counts: every one with both ids. */
  function CompleteCount(entries: seq<ProfileEntry>): (n: nat)
    ensures n <= |entries|
  {
    if |entries| == 0 then 0
    else CompleteCount(entries[..|entries| - 1]) + (if Incomplete(entries[|entries| - 1].user) then 0 else 1)
  }

  /** `run_check_cycle`: session reminders, then (when the window setting exists) long-break
      reminders. */
  function Cycle(st: SchedulerState, settings: Settings, input: CycleInput): SchedulerState
  {
    var afterSessions := ApplyEntries(st, input.sessionEntries, SessionReminder, input.now);
    if settings.longBreakWindowSeconds.None? then afterSessions
    else ApplyEntries(afterSessions, input.longBreakEntries, LongBreakReminder, input.now)
  }

  /** The tasks one profile adds. */
  function EntryTasks(e: ProfileEntry, kind: NotificationType, now: int): seq<TaskData>
  {
    EntryEffect(SchedulerState([], map[]), e, kind, now).enqueued
  }

  function AllTasks(entries: seq<ProfileEntry>, kind: NotificationType, now: int): seq<TaskData>
    decreases |entries|
  {
    if |entries| == 0 then []
    else AllTasks(entries[..|entries| - 1], kind, now) + EntryTasks(entries[|entries| - 1], kind, now)
  }

  lemma EntryEffectAppends(st: SchedulerState, e: ProfileEntry, kind: NotificationType, now: int)
    ensures EntryEffect(st, e, kind, now).enqueued == st.enqueued + EntryTasks(e, kind, now)
  {
  }

  /** A profile's tasks do not depend on the profiles before it: a failure on one profile,
      or a skip, does not keep the later ones from their reminders. */
  lemma {:induction false} ApplyEntriesTasks(st: SchedulerState, entries: seq<ProfileEntry>, kind: NotificationType, now: int)
    ensures ApplyEntries(st, entries, kind, now).enqueued == st.enqueued + AllTasks(entries, kind, now)
    decreases |entries|
  {
    if |entries| > 0 {
      var init := entries[..|entries| - 1];
      ApplyEntriesTasks(st, init, kind, now);
      EntryEffectAppends(ApplyEntries(st, init, kind, now), entries[|entries| - 1], kind, now);
    }
  }

  lemma {:induction false} AllTasksContain(entries: seq<ProfileEntry>, kind: NotificationType, now: int, k: nat)
    requires k < |entries|
    ensures forall t :: t in EntryTasks(entries[k], kind, now) ==> t in AllTasks(entries, kind, now)
    decreases |entries|
  {
    if k < |entries| - 1 {
      var init := entries[..|entries| - 1];
      assert init[k] == entries[k];
      AllTasksContain(init, kind, now, k);
    }
  }

  lemma {:induction false} AllTasksOfKind(entries: seq<ProfileEntry>, kind: NotificationType, now: int)
    ensures forall t :: t in AllTasks(entries, kind, now) ==> t.kind == kind
    decreases |entries|
  {
    if |entries| > 0 {
      AllTasksOfKind(entries[..|entries| - 1], kind, now);
    }
  }

  /** Session reminders never write a profile. */
  lemma {:induction false} SessionEntriesKeepProfiles(st: SchedulerState, entries: seq<ProfileEntry>, now: int)
    ensures ApplyEntries(st, entries, SessionReminder, now).profiles == st.profiles
    decreases |entries|
  {
    if |entries| > 0 {
      SessionEntriesKeepProfiles(st, entries[..|entries| - 1], now);
    }
  }

  /** A profile's record changes only after its long-break reminder was enqueued, and then
      it records that reminder and the time. */
  lemma LongBreakUpdateOnlyAfterEnqueue(st: SchedulerState, e: ProfileEntry, now: int)
    ensures var after := EntryEffect(st, e, LongBreakReminder, now);
      after.profiles != st.profiles ==>
        && !Incomplete(e.user)
        && PlanLongBreak(e.profile, now).SendReminder?
        && var plan := PlanLongBreak(e.profile, now);
           && EntryTasks(e, LongBreakReminder, now) == [LongBreakTask(e.user, e.profile, RungName(plan.reminderType), plan.daysInactive)]
           && after.profiles == st.profiles[KeyOf(e.profile) := Recorded(e.profile, plan.reminderType, now)]
  {
  }

  /** With the settings as shipped, a cycle enqueues session reminders only and never records
      a long-break reminder: the lookup of the missing window setting raises first. */
  lemma ShippedSettingsNeverSendLongBreaks(st: SchedulerState, input: CycleInput)
    ensures var after := Cycle(st, ShippedSettings, input);
      && after.profiles == st.profiles
      && |after.enqueued| >= |st.enqueued|
      && forall t :: t in after.enqueued[|st.enqueued|..] ==> t.kind == SessionReminder
  {
    var after := Cycle(st, ShippedSettings, input);
    SessionEntriesKeepProfiles(st, input.sessionEntries, input.now);
    ApplyEntriesTasks(st, input.sessionEntries, SessionReminder, input.now);
    AllTasksOfKind(input.sessionEntries, SessionReminder, input.now);
    assert after.enqueued[|st.enqueued|..] == AllTasks(input.sessionEntries, SessionReminder, input.now);
  }

  /** With the window configured, every complete long-break profile whose plan is to send and
      whose queue accepts the task gets its reminder in the cycle. */
  lemma ConfiguredCycleSendsDueLongBreaks(st: SchedulerState, settings: Settings, input: CycleInput, k: nat)
    requires settings.longBreakWindowSeconds.Some?
    requires k < |input.longBreakEntries|
    requires var e := input.longBreakEntries[k];
      && !Incomplete(e.user)
      && PlanLongBreak(e.profile, input.now).SendReminder?
      && e.queue.argsPrepared && e.queue.sendSucceeds
    ensures var e := input.longBreakEntries[k];
      var plan := PlanLongBreak(e.profile, input.now);
      LongBreakTask(e.user, e.profile, RungName(plan.reminderType), plan.daysInactive) in Cycle(st, settings, input).enqueued
  {
    var e := input.longBreakEntries[k];
    var plan := PlanLongBreak(e.profile, input.now);
    var task := LongBreakTask(e.user, e.profile, RungName(plan.reminderType), plan.daysInactive);
    var afterSessions := ApplyEntries(st, input.sessionEntries, SessionReminder, input.now);
    assert EntryTasks(e, LongBreakReminder, input.now) == [task];
    AllTasksContain(input.longBreakEntries, LongBreakReminder, input.now, k);
    ApplyEntriesTasks(afterSessions, input.longBreakEntries, LongBreakReminder, input.now);
  }

  // ---------------------------------------------------------------------------------------
  // The scheduler

  class ReminderScheduler {
    var running: bool
    /** The tasks handed to the notification queue. */
    var enqueued: seq<TaskData>
    const store: ProfileStore

    constructor(store: ProfileStore)
      ensures !running && enqueued == [] && this.store == store
    {
      running := false;
      enqueued := [];
      this.store := store;
    }

    function State(): SchedulerState
      reads this, store
    {
      SchedulerState(enqueued, store.profiles)
    }

    /** `_process_session_reminders` for one profile. */
    method ProcessSessionReminder(e: ProfileEntry, now: int)
      modifies this
      ensures running == old(running)
      ensures State() == SessionEffect(old(State()), e, now)
    {
      if !SessionReminderDue(e.profile, now) {
        return;
      }
      var r := PrepareSessionReminder(e.user, e.profile, now, e.queue);
      if r.ok {
        enqueued := enqueued + [SessionReminderTask(e.user, e.profile)];
      }
    }

    /** `_process_long_break_reminders` for one profile: the plan is made first, and the
        profile is written back only after the enqueue succeeded (a write that raises leaves
        it as it was). */
    method ProcessLongBreakReminder(e: ProfileEntry, now: int)
      requires store.Valid()
      modifies this, store
      ensures store.Valid()
      ensures running == old(running)
      ensures State() == LongBreakEffect(old(State()), e, now)
    {
      var p := e.profile;
      var plan := ChooseLongBreakPlan(p, now);
      if !plan.SendReminder? {
        return;
      }
      var t, days := plan.reminderType, plan.daysInactive;
      var r := PrepareLongBreakReminder(e.user, p, RungName(t), days, e.queue);
      if r.ok {
        enqueued := enqueued + [LongBreakTask(e.user, p, RungName(t), days)];
        if !e.updateFails {
          store.Save(Recorded(p, t, now));
        }
      }
    }

    /** `_process_user_profiles`: skips incomplete users, processes the others whatever
        happens to the ones before, and counts the processed profiles. */
    method ProcessUserProfiles(entries: seq<ProfileEntry>, kind: NotificationType, now: int)
      returns (processed: nat)
      requires store.Valid()
      modifies this, store
      ensures store.Valid()
      ensures running == old(running)
      ensures State() == ApplyEntries(old(State()), entries, kind, now)
      ensures processed == CompleteCount(entries)
    {
      processed := 0;
      var i := 0;
      while i < |entries|
        invariant 0 <= i <= |entries|
        invariant store.Valid()
        invariant running == old(running)
        invariant State() == ApplyEntries(old(State()), entries[..i], kind, now)
        invariant processed == CompleteCount(entries[..i])
      {
        var e := entries[i];
        ApplyEntriesStep(old(State()), entries, i, kind, now);
        if !Incomplete(e.user) {
          match kind {
            case SessionReminder => ProcessSessionReminder(e, now);
            case LongBreakReminder => ProcessLongBreakReminder(e, now);
          }
          processed := processed + 1;
        }
        i := i + 1;
      }
      assert entries[..i] == entries;
    }

    /** `run_check_cycle`: session reminders, then the long-break window, whose setting must
        exist, then long-break reminders. */
    method RunCheckCycle(settings: Settings, input: CycleInput) returns (r: Result<(), CycleError>)
      requires store.Valid()
      modifies this, store
      ensures store.Valid()
      ensures running == old(running)
      ensures State() == Cycle(old(State()), settings, input)
      ensures r.Err? <==> settings.longBreakWindowSeconds.None?
    {
      var _ := ProcessUserProfiles(input.sessionEntries, SessionReminder, input.now);
      if settings.longBreakWindowSeconds.None? {
        return Err(MissingSetting("long_break_reminder_time_window_seconds"));
      }
      var _ := ProcessUserProfiles(input.longBreakEntries, LongBreakReminder, input.now);
      return Ok(());
    }

    /** `start`: refused while already running; otherwise runs one cycle per input, each
        cycle's error caught, until the stop event that follows the last one, and ends not
        running. */
    method Start(settings: Settings, cycles: seq<CycleInput>) returns (started: bool)
      requires store.Valid()
      modifies this, store
      ensures store.Valid()
      ensures old(running) ==> !started && running && State() == old(State())
      ensures !old(running) ==> started && !running && State() == Cycles(old(State()), settings, cycles)
    {
      if running {
        return false;
      }
      running := true;
      var i := 0;
      while i < |cycles|
        invariant 0 <= i <= |cycles|
        invariant store.Valid() && running
        invariant State() == Cycles(old(State()), settings, cycles[..i])
      {
        assert cycles[..i + 1][..i] == cycles[..i];
        var _ := RunCheckCycle(settings, cycles[i]);
        i := i + 1;
      }
      assert cycles[..i] == cycles;
      running := false;
      return true;
    }

    method Stop()
      modifies this
      ensures !running && enqueued == old(enqueued)
    {
      running := false;
    }
  }

  /** The cycles one after the other. */
  function Cycles(st: SchedulerState, settings: Settings, cycles: seq<CycleInput>): SchedulerState
    decreases |cycles|
  {
    if |cycles| == 0 then st
    else Cycle(Cycles(st, settings, cycles[..|cycles| - 1]), settings, cycles[|cycles| - 1])
  }
}
