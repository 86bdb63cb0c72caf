/**
 * What a learner gets when asking for the next exercise: the session and set limits, the
 * freeze after a full session, and the day streak. The profile is read from and written back
 * to the profile store step by step; the exercise lookup and the clock are parameters.
 */
module UserProgress {
  import opened Wrappers
  import opened Profiles
  import opened Enums

  const ExercisesInSet: int := 5
  const SetsInSession: int := 3
  /** Three hours, in seconds. */
  const MaxSessionLength: int := 3 * 3600
  const DeltaBetweenSessions: int := 3 * 3600
  /** Every full period of a running session allows one more set: an hour. */
  const RenewingSetPeriod: int := DeltaBetweenSessions / SetsInSession

  /** The answer to the learner: the action, the exercise id for a new exercise, the `pause`
      field, and the waiting time written into the message text. */
  datatype NextAction = NextAction(
    action: UserAction,
    exerciseId: Option<int>,
    pause: Option<int>,
    waitInMessage: Option<int>)

  datatype ProgressError = UserNotFound

  /** The answer together with the profile as stored once the request is done. */
  datatype Outcome = Outcome(next: NextAction, profile: Profile)

  /** The streak the next exercise would record: unchanged on the day of the last exercise,
      one more on the day after it, 1 after a gap or for a first exercise. */
  function NewStreak(p: Profile, now: int): int
  {
    if p.lastExerciseAt.None? then 1
    else if DayOf(p.lastExerciseAt.value) == DayOf(now) then p.currentStreakDays
    else if DayOf(p.lastExerciseAt.value) == DayOf(now) - 1 then p.currentStreakDays + 1
    else 1
  }

  /** `_start_new_session`: counters back to zero, the session starting now, no freeze, and
      the reminder bookkeeping cleared. */
  function StartNewSession(p: Profile, now: int): (q: Profile)
    ensures KeyOf(q) == KeyOf(p) && q.status == p.status
    ensures q.exercisesInSession == 0 && q.exercisesInSet == 0 && q.errorsInSet == 0
    ensures q.sessionStartedAt == Some(now) && q.sessionFrozenUntil.None?
    ensures q.wantsSessionReminders.None? && q.lastLongBreakTypeSent.None? && q.lastLongBreakSentAt.None?
    ensures q.lastExerciseAt == p.lastExerciseAt && q.currentStreakDays == p.currentStreakDays
  {
    p.(exercisesInSession := 0, exercisesInSet := 0, errorsInSet := 0,
       sessionStartedAt := Some(now), sessionFrozenUntil := None, wantsSessionReminders := None,
       lastLongBreakTypeSent := None, lastLongBreakSentAt := None)
  }

  /** A new session is due: a freeze that has ended, no session yet, or a session that has
      run longer than allowed. */
  predicate SessionRestarts(p: Profile, now: int)
  {
    p.sessionFrozenUntil.Some? || p.sessionStartedAt.None? || now - p.sessionStartedAt.value > MaxSessionLength
  }

  /** The profile and the running session's length once the session checks are done (for a
      learner who is not frozen). */
  function OpenSession(p: Profile, now: int): (Profile, int)
  {
    if SessionRestarts(p, now) then (StartNewSession(p, now), 0)
    else (p, now - p.sessionStartedAt.value)
  }

  /** The number of exercises a session of this length allows: three sets, or one set per
      started hour when that is more. */
  function ExerciseLimit(sessionTime: int): (limit: int)
    ensures limit >= SetsInSession * ExercisesInSet
    ensures limit % ExercisesInSet == 0
  {
    var renewed := sessionTime / RenewingSetPeriod;
    (if SetsInSession >= renewed then SetsInSession else renewed) * ExercisesInSet
  }

  predicate Frozen(p: Profile, now: int)
  {
    p.sessionFrozenUntil.Some? && now < p.sessionFrozenUntil.value
  }

  /** The rest of a request once the session is open: freeze a full session, serve an
      exercise while the set has room (recording `streak`), or start the next set. */
  function Serve(p: Profile, sessionTime: int, now: int, streak: int, found: Option<int>): Outcome
  {
    if ExerciseLimit(sessionTime) - p.exercisesInSession <= 0 then
      Outcome(NextAction(CongratulationsAndWait, None, Some(DeltaBetweenSessions), Some(DeltaBetweenSessions)),
              p.(sessionFrozenUntil := Some(now + DeltaBetweenSessions), wantsSessionReminders := None))
    else if p.exercisesInSet < ExercisesInSet then
      if found.None? then Outcome(NextAction(Error, None, None, None), p)
      else
        Outcome(NextAction(NewExercise, found, None, None),
                p.(exercisesInSession := p.exercisesInSession + 1,
                   exercisesInSet := p.exercisesInSet + 1,
                   lastExerciseAt := Some(now),
                   lastLongBreakTypeSent := None, lastLongBreakSentAt := None,
                   currentStreakDays := streak))
    else
      Outcome(NextAction(PraiseAndNextSet, None, None, None), p.(exercisesInSet := 0, errorsInSet := 0))
  }

  /** `get_next_action` for a known learner whose stored profile is `p`, when the exercise
      lookup gives `found`: the answer and the profile as stored afterwards. */
  function Progress(p: Profile, now: int, found: Option<int>): Outcome
  {
    var p1 := if p.status == Blocked then p.(status := Active) else p;
    if Frozen(p1, now) then
      Outcome(NextAction(LimitReached, None, None, Some(p1.sessionFrozenUntil.value - now)), p1)
    else
      var (p2, sessionTime) := OpenSession(p1, now);
      Serve(p2, sessionTime, now, NewStreak(p, now), found)
  }

  /** The three stages of a request: reactivation, the freeze check, then the open session
      served with the streak of the profile as fetched. */
  lemma ProgressSteps(p: Profile, now: int, found: Option<int>)
    ensures var p1 := if p.status == Blocked then p.(status := Active) else p;
      && NewStreak(p1, now) == NewStreak(p, now)
      && (Frozen(p1, now) ==>
            Progress(p, now, found) == Outcome(NextAction(LimitReached, None, None, Some(p1.sessionFrozenUntil.value - now)), p1))
      && (!Frozen(p1, now) ==>
            Progress(p, now, found) == Serve(OpenSession(p1, now).0, OpenSession(p1, now).1, now, NewStreak(p, now), found))
  {
  }

  // ---------------------------------------------------------------------------------------
  // Properties of a request

  /** A blocked learner who asks again is active again, whatever else happens; the profile
      stays under its key. */
  lemma RequestReactivates(p: Profile, now: int, found: Option<int>)
    ensures KeyOf(Progress(p, now, found).profile) == KeyOf(p)
    ensures Progress(p, now, found).profile.status == (if p.status == Blocked then Active else p.status)
  {
  }

  /** While frozen, the learner is told how long to wait and nothing but the status changes. */
  lemma FrozenLearnerWaits(p: Profile, now: int, found: Option<int>)
    requires Frozen(p, now)
    ensures var o := Progress(p, now, found);
      && o.next.action == LimitReached
      && o.next.waitInMessage == Some(p.sessionFrozenUntil.value - now)
      && o.next.waitInMessage.value > 0
      && o.profile == p.(status := o.profile.status)
  {
  }

  /** A new session (after a freeze, on a first request, or after a session that ran too
      long) starts now with zeroed counters, so the learner gets an exercise, or an error
      when none is found, and never a limit. */
  lemma NewSessionServesExercise(p: Profile, now: int, found: Option<int>)
    requires !Frozen(p, now) && SessionRestarts(p, now)
    ensures var o := Progress(p, now, found);
      && o.profile.sessionStartedAt == Some(now)
      && o.profile.sessionFrozenUntil.None?
      && o.profile.errorsInSet == 0
      && (found.Some? ==> o.next.action == NewExercise && o.profile.exercisesInSession == 1 && o.profile.exercisesInSet == 1)
      && (found.None? ==> o.next.action == Error && o.profile.exercisesInSession == 0 && o.profile.exercisesInSet == 0)
  {
  }

  /** A running session at or over its limit is frozen for the pause between sessions. */
  lemma FullSessionFreezes(p: Profile, now: int, found: Option<int>)
    requires !Frozen(p, now) && !SessionRestarts(p, now)
    requires p.exercisesInSession >= ExerciseLimit(now - p.sessionStartedAt.value)
    ensures var o := Progress(p, now, found);
      && o.next.action == CongratulationsAndWait
      && o.next.pause == Some(DeltaBetweenSessions)
      && o.profile.sessionFrozenUntil == Some(now + DeltaBetweenSessions)
      && o.profile.wantsSessionReminders.None?
      && o.profile.exercisesInSession == p.exercisesInSession
      && o.profile.exercisesInSet == p.exercisesInSet
  {
  }

  /** Each action comes with its own change to the profile: a new exercise counts in the set
      and the session, stamps the time and the streak, and stays within the session's limit;
      praise empties the set; an error counts nothing. */
  lemma ActionEffects(p: Profile, now: int, found: Option<int>)
    ensures var o := Progress(p, now, found);
      var p1 := if p.status == Blocked then p.(status := Active) else p;
      var (p2, sessionTime) := OpenSession(p1, now);
      && (o.next.action == NewExercise ==>
            && found.Some? && o.next.exerciseId == found
            && o.profile.exercisesInSession == p2.exercisesInSession + 1
            && o.profile.exercisesInSet == p2.exercisesInSet + 1 <= ExercisesInSet
            && o.profile.exercisesInSession <= ExerciseLimit(sessionTime)
            && o.profile.lastExerciseAt == Some(now)
            && o.profile.currentStreakDays == NewStreak(p, now)
            && o.profile.lastLongBreakTypeSent.None?)
      && (o.next.action == PraiseAndNextSet ==>
            && p2.exercisesInSet >= ExercisesInSet
            && o.profile == p2.(exercisesInSet := 0, errorsInSet := 0))
      && (o.next.action == Error ==> found.None? && o.profile == p2)
  {
  }

  /** The exercise lookup decides only between a new exercise and an error. */
  lemma LookupOnlyDecidesError(p: Profile, now: int, e: int)
    ensures Progress(p, now, Some(e)).next.action == NewExercise <==> Progress(p, now, None).next.action == Error
    ensures Progress(p, now, None).next.action != NewExercise
  {
  }

  /** The counters a profile keeps in range: a set never holds more than five exercises and
      never more than the session. */
  predicate CountersInRange(p: Profile)
  {
    && 0 <= p.exercisesInSet <= ExercisesInSet
    && p.exercisesInSet <= p.exercisesInSession
    && 0 <= p.errorsInSet
  }

  lemma ProgressKeepsCountersInRange(p: Profile, now: int, found: Option<int>)
    requires CountersInRange(p)
    ensures CountersInRange(Progress(p, now, found).profile)
  {
  }

  // ---------------------------------------------------------------------------------------
  // The service

  class UserProgressService {
    const store: ProfileStore

    constructor(store: ProfileStore)
      ensures this.store == store
    {
      this.store := store;
    }

    /** The session checks of `get_next_action`, each new session written to the store. */
    method OpenSessionStep(p: Profile, now: int) returns (q: Profile, sessionTime: int)
      requires store.Valid() && KeyOf(p) in store.profiles && store.profiles[KeyOf(p)] == p
      requires !Frozen(p, now)
      modifies store
      ensures store.Valid()
      ensures (q, sessionTime) == OpenSession(p, now)
      ensures store.profiles == old(store.profiles)[KeyOf(p) := q]
    {
      q := p;
      if q.sessionFrozenUntil.Some? {
        q := StartNewSession(q, now);
        store.Save(q);
      }
      if q.sessionStartedAt.None? {
        q := StartNewSession(q, now);
        store.Save(q);
        sessionTime := 0;
      } else {
        sessionTime := now - q.sessionStartedAt.value;
      }
      if sessionTime > MaxSessionLength {
        q := StartNewSession(q, now);
        store.Save(q);
        sessionTime := 0;
      }
    }

    /** The limit and set checks of `get_next_action`, with the final write. */
    method ServeStep(p: Profile, sessionTime: int, now: int, streak: int, found: Option<int>)
      returns (next: NextAction)
      requires store.Valid() && KeyOf(p) in store.profiles && store.profiles[KeyOf(p)] == p
      modifies store
      ensures store.Valid()
      ensures var o := Serve(p, sessionTime, now, streak, found);
        next == o.next && store.profiles == old(store.profiles)[KeyOf(p) := o.profile]
    {
      var renewedSets := sessionTime / RenewingSetPeriod;
      var setLimit := if SetsInSession >= renewedSets then SetsInSession else renewedSets;
      var exerciseLimit := setLimit * ExercisesInSet;
      var q := p;
      if exerciseLimit - p.exercisesInSession <= 0 {
        q := p.(sessionFrozenUntil := Some(now + DeltaBetweenSessions), wantsSessionReminders := None);
        store.Save(q);
        next := NextAction(CongratulationsAndWait, None, Some(DeltaBetweenSessions), Some(DeltaBetweenSessions));
      } else if p.exercisesInSet < ExercisesInSet {
        if found.None? {
          next := NextAction(Error, None, None, None);
        } else {
          q := p.(exercisesInSession := p.exercisesInSession + 1, exercisesInSet := p.exercisesInSet + 1,
                  lastExerciseAt := Some(now), lastLongBreakTypeSent := None, lastLongBreakSentAt := None,
                  currentStreakDays := streak);
          store.Save(q);
          next := NextAction(NewExercise, found, None, None);
        }
      } else {
        q := p.(exercisesInSet := 0, errorsInSet := 0);
        store.Save(q);
        next := NextAction(PraiseAndNextSet, None, None, None);
      }
    }

    /** A blocked learner who asks again is saved as active. */
    method ReactivateStep(p: Profile) returns (q: Profile)
      requires store.Valid() && KeyOf(p) in store.profiles && store.profiles[KeyOf(p)] == p
      modifies store
      ensures store.Valid()
      ensures q == if p.status == Blocked then p.(status := Active) else p
      ensures store.profiles == old(store.profiles)[KeyOf(p) := q]
    {
      q := p;
      if p.status == Blocked {
        q := p.(status := Active);
        store.Save(q);
      }
    }

    /** `get_next_action`: a user that cannot be found (or has no id) is an error; otherwise
        the profile is fetched or created and updated as the request goes, and the stored
        profile ends up as `Progress` says. */
    method GetNextAction(user: Option<User>, userId: int, bot: BotId, now: int, found: Option<int>)
      returns (r: Result<NextAction, ProgressError>)
      requires store.Valid()
      modifies store
      ensures store.Valid()
      ensures user.None? || user.value.userId == 0 ==>
        r == Err(UserNotFound) && store.profiles == old(store.profiles)
      ensures user.Some? && user.value.userId != 0 ==>
        var o := Progress(old(store.Lookup(ProfileKey(userId, bot), DefaultUserLanguage)), now, found);
        r == Ok(o.next) && store.profiles == old(store.profiles)[ProfileKey(userId, bot) := o.profile]
    {
      if user.None? || user.value.userId == 0 {
        return Err(UserNotFound);
      }
      ghost var key := ProfileKey(userId, bot);
      ghost var base := store.profiles;
      var p := store.GetOrCreate(userId, bot, DefaultUserLanguage);
      ghost var fetched := p;
      ProgressSteps(fetched, now, found);
      p := ReactivateStep(p);
      assert KeyOf(p) == key && store.profiles == base[key := p];
      var streak := NewStreak(p, now);
      if p.sessionFrozenUntil.Some? && now < p.sessionFrozenUntil.value {
        return Ok(NextAction(LimitReached, None, None, Some(p.sessionFrozenUntil.value - now)));
      }
      var sessionTime;
      ghost var unopened := p;
      p, sessionTime := OpenSessionStep(p, now);
      assert store.profiles == base[key := p];
      assert Progress(fetched, now, found) == Serve(p, sessionTime, now, streak, found) by {
        assert (p, sessionTime) == OpenSession(unopened, now);
      }
      var next := ServeStep(p, sessionTime, now, streak, found);
      return Ok(next);
    }
  }
}
