/**
 * A learner's profile in one bot: the session and set counters, the freeze after a full
 * session, the streak, and the reminder bookkeeping. Times are whole seconds since the
 * epoch (UTC); a calendar day is a day number, seconds divided by 86400.
 */
module Profiles {
  import opened Wrappers

  /** The bots the service runs; only the Bulgarian one exists. */
  datatype BotId = Bulgarian

  function BotIdValue(b: BotId): string
  {
    match b
    case Bulgarian => "Bulgarian"
  }

  /** `BotID(s)`: None where the enum constructor raises. */
  function ParseBotId(s: string): (r: Option<BotId>)
    ensures r.Some? ==> BotIdValue(r.value) == s
    ensures r.None? ==> forall b: BotId :: BotIdValue(b) != s
  {
    if s == "Bulgarian" then Some(Bulgarian) else None
  }

  datatype UserStatus = Active | Blocked | Inactive

  const SecondsPerDay: int := 86400

  /** The calendar day (UTC) of a moment. */
  function DayOf(t: int): int
  {
    t / SecondsPerDay
  }

  /** A user as the user service returns it; 0 stands for a missing id. */
  datatype User = User(userId: int, telegramId: int)

  datatype Profile = Profile(
    userId: int,
    botId: BotId,
    userLanguage: string,
    status: UserStatus,
    exercisesInSession: int,
    exercisesInSet: int,
    errorsInSet: int,
    lastExerciseAt: Option<int>,
    sessionStartedAt: Option<int>,
    sessionFrozenUntil: Option<int>,
    currentStreakDays: int,
    wantsSessionReminders: Option<bool>,
    lastLongBreakTypeSent: Option<string>,
    lastLongBreakSentAt: Option<int>)

  datatype ProfileKey = ProfileKey(userId: int, bot: BotId)

  function KeyOf(p: Profile): ProfileKey
  {
    ProfileKey(p.userId, p.botId)
  }

  /** The language a profile is created with when none is known. */
  const DefaultUserLanguage: string := "en"

  /** The profile `get_or_create` makes for a learner seen for the first time: active, all
      counters zero, no session, no freeze, no reminders. */
  function NewProfile(userId: int, bot: BotId, language: string): (p: Profile)
    ensures KeyOf(p) == ProfileKey(userId, bot)
    ensures p.status == Active && p.exercisesInSession == 0 && p.exercisesInSet == 0 && p.errorsInSet == 0
    ensures p.lastExerciseAt.None? && p.sessionStartedAt.None? && p.sessionFrozenUntil.None?
  {
    Profile(userId, bot, language, Active, 0, 0, 0, None, None, None, 0, None, None, None)
  }

  /** The stored profiles, one per learner and bot. */
  class ProfileStore {
    var profiles: map<ProfileKey, Profile>

    /** Every stored profile sits under its own key. */
    ghost predicate Valid()
      reads this
    {
      forall k :: k in profiles ==> KeyOf(profiles[k]) == k
    }

    constructor()
      ensures profiles == map[]
      ensures Valid()
    {
      profiles := map[];
    }

    /** The profile of `key`, or the one `get_or_create` would make for it. */
    function Lookup(key: ProfileKey, language: string): (p: Profile)
      reads this
      requires Valid()
      ensures KeyOf(p) == key
      ensures key in profiles ==> p == profiles[key]
    {
      if key in profiles then profiles[key] else NewProfile(key.userId, key.bot, language)
    }

    /** `get_or_create`: the stored profile, or a new one that is stored first. */
    method GetOrCreate(userId: int, bot: BotId, language: string) returns (p: Profile)
      requires Valid()
      modifies this
      ensures Valid()
      ensures p == old(Lookup(ProfileKey(userId, bot), language))
      ensures profiles == old(profiles)[ProfileKey(userId, bot) := p]
    {
      var key := ProfileKey(userId, bot);
      if key in profiles {
        p := profiles[key];
      } else {
        p := NewProfile(userId, bot, language);
      }
      profiles := profiles[key := p];
    }

    /** Writes a profile back under its key. */
    method Save(p: Profile)
      requires Valid()
      modifies this
      ensures Valid()
      ensures profiles == old(profiles)[KeyOf(p) := p]
    {
      profiles := profiles[KeyOf(p) := p];
    }
  }
}
