/**
 * Notification tasks for the notifier queue: the session reminder with its guards, the
 * long-break reminder with its metadata, and the result of handing a task to the queue.
 * The queue client is a parameter: whether preparing the task's arguments works and whether
 * the send goes through.
 */
module NotificationProducer {
  import opened Wrappers
  import opened Strings
  import opened Profiles

  datatype NotificationType = SessionReminder | LongBreakReminder

  function NotificationTypeValue(t: NotificationType): string
  {
    match t
    case SessionReminder => "session_reminder"
    case LongBreakReminder => "long_break_reminder"
  }

  /** A metadata value: the reminder type is text, the days of inactivity a number. */
  datatype MetaValue = MetaText(text: string) | MetaNumber(number: int)

  /** What the Telegram side needs to deliver the message. */
  datatype MessagePayload = MessagePayload(
    telegramId: int,
    parseMode: Option<string>,
    disableWebPagePreview: Option<bool>)

  /** A notification task; its random id and creation time are not part of the model. */
  datatype TaskData = TaskData(
    userId: int,
    botId: BotId,
    text: string,
    kind: NotificationType,
    payload: MessagePayload,
    metadata: map<string, MetaValue>)

  /** How the queue client behaves for one task. */
  datatype QueueBehaviour = QueueBehaviour(argsPrepared: bool, sendSucceeds: bool)

  /** Whether the task was sent to the queue, and the result reported to the caller. */
  datatype Enqueued = Enqueued(sendCalled: bool, ok: bool)

  /** `enqueue_notification`: nothing is sent when the arguments cannot be prepared; otherwise
      the send is attempted and its success is the result. */
  function EnqueueNotification(task: TaskData, q: QueueBehaviour): (r: Enqueued)
    ensures r.ok ==> r.sendCalled
    ensures !q.argsPrepared ==> !r.sendCalled && !r.ok
    ensures q.argsPrepared ==> r.sendCalled && (r.ok <==> q.sendSucceeds)
  {
    if !q.argsPrepared then Enqueued(false, false)
    else Enqueued(true, q.sendSucceeds)
  }

  /** `language.lower().startswith('ru')`. No character other than 'R' lowers to 'r' and
      none other than 'U' to 'u', so the test only looks at the first two characters. */
  predicate PrefersRussian(language: string)
  {
    |language| >= 2 && (language[0] == 'r' || language[0] == 'R') && (language[1] == 'u' || language[1] == 'U')
  }

  const RussianSessionText: string := "Привет! Новая сессия упражнений ждет тебя. " + "Начнем?"
  const EnglishSessionText: string := "Hello! A new exercise session is waiting " + "for you. Shall we start?"

  function SessionReminderText(language: string): (t: string)
    ensures t == RussianSessionText <==> PrefersRussian(language)
    ensures t == EnglishSessionText <==> !PrefersRussian(language)
  {
    assert RussianSessionText[0] != EnglishSessionText[0];
    if PrefersRussian(language) then RussianSessionText else EnglishSessionText
  }

  const RussianLongBreakHead: string := "Привет! Мы заметили, что ты " + "не заходил уже "
  const RussianLongBreakTail: string := " дней. Возвращайся к " + "упражнениям!"
  const EnglishLongBreakHead: string := "Hello! We've noticed you haven't " + "been active for "
  const EnglishLongBreakTail: string := " days. Come back and " + "practice!"

  /** The long-break text, in Russian or English, with the number of days inactive. */
  function LongBreakReminderText(language: string, daysInactive: int): string
  {
    if PrefersRussian(language) then RussianLongBreakHead + IntToString(daysInactive) + RussianLongBreakTail
    else EnglishLongBreakHead + IntToString(daysInactive) + EnglishLongBreakTail
  }

  /** Text between a fixed head and a fixed tail is determined by the whole. */
  lemma MiddleDetermined(head: string, a: string, b: string, tail: string)
    requires head + a + tail == head + b + tail
    ensures a == b
  {
    var s := head + a + tail;
    assert |a| == |b|;
    assert a == s[|head|..|head| + |a|];
    assert b == (head + b + tail)[|head|..|head| + |b|];
  }

  /** The long-break text tells the learner the number of days: two texts in one language
      are the same only for the same number. */
  lemma LongBreakTextShowsDays(language: string, d1: int, d2: int)
    requires LongBreakReminderText(language, d1) == LongBreakReminderText(language, d2)
    ensures d1 == d2
  {
    if PrefersRussian(language) {
      MiddleDetermined(RussianLongBreakHead, IntToString(d1), IntToString(d2), RussianLongBreakTail);
    } else {
      MiddleDetermined(EnglishLongBreakHead, IntToString(d1), IntToString(d2), EnglishLongBreakTail);
    }
    IntStringRoundTrip(d1);
    IntStringRoundTrip(d2);
  }

  /** The long-break text is Russian by the same test as the session reminder. */
  lemma LongBreakTextLanguage(language: string, d: int)
    ensures StartsWith(LongBreakReminderText(language, d), RussianLongBreakHead) <==> PrefersRussian(language)
  {
    var t := LongBreakReminderText(language, d);
    if !PrefersRussian(language) {
      assert t[0] == 'H' && RussianLongBreakHead[0] != 'H';
    }
  }

  /** Both reminders go out as HTML without link previews. */
  function ReminderPayload(user: User): (m: MessagePayload)
    ensures m.telegramId == user.telegramId
    ensures m.parseMode == Some("HTML") && m.disableWebPagePreview == Some(true)
  {
    MessagePayload(user.telegramId, Some("HTML"), Some(true))
  }

  function SessionReminderTask(user: User, p: Profile): (t: TaskData)
    ensures t.kind == SessionReminder && t.userId == user.userId && t.botId == p.botId
    ensures t.metadata == map[]
    ensures t.text == SessionReminderText(p.userLanguage)
    ensures t.payload == ReminderPayload(user)
  {
    TaskData(user.userId, p.botId, SessionReminderText(p.userLanguage), SessionReminder, ReminderPayload(user), map[])
  }

  /** A long-break task carries the reminder type and the days of inactivity as metadata. */
  function LongBreakTask(user: User, p: Profile, reminderType: string, daysInactive: int): (t: TaskData)
    ensures t.kind == LongBreakReminder && t.userId == user.userId && t.botId == p.botId
    ensures t.metadata.Keys == {"reminder_type", "days_inactive"}
    ensures t.metadata["reminder_type"] == MetaText(reminderType)
    ensures t.metadata["days_inactive"] == MetaNumber(daysInactive)
    ensures t.text == LongBreakReminderText(p.userLanguage, daysInactive)
    ensures t.payload == ReminderPayload(user)
  {
    TaskData(user.userId, p.botId, LongBreakReminderText(p.userLanguage, daysInactive), LongBreakReminder,
             ReminderPayload(user),
             map["reminder_type" := MetaText(reminderType), "days_inactive" := MetaNumber(daysInactive)])
  }

  /** `prepare_and_enqueue_session_reminder`: refused without a send for a learner who turned
      reminders off or whose session is still frozen; otherwise the reminder is enqueued. */
  function PrepareSessionReminder(user: User, p: Profile, now: int, q: QueueBehaviour): (r: Enqueued)
    ensures p.wantsSessionReminders == Some(false) ==> !r.sendCalled && !r.ok
    ensures p.sessionFrozenUntil.Some? && p.sessionFrozenUntil.value > now ==> !r.sendCalled && !r.ok
    ensures p.wantsSessionReminders != Some(false) && !(p.sessionFrozenUntil.Some? && p.sessionFrozenUntil.value > now) ==>
      r == EnqueueNotification(SessionReminderTask(user, p), q)
  {
    if p.wantsSessionReminders == Some(false) then Enqueued(false, false)
    else if p.sessionFrozenUntil.Some? && p.sessionFrozenUntil.value > now then Enqueued(false, false)
    else EnqueueNotification(SessionReminderTask(user, p), q)
  }

  /** `prepare_and_enqueue_long_break_reminder`: no guards of its own. */
  function PrepareLongBreakReminder(user: User, p: Profile, reminderType: string, daysInactive: int,
                                    q: QueueBehaviour): (r: Enqueued)
    ensures r == EnqueueNotification(LongBreakTask(user, p, reminderType, daysInactive), q)
    ensures r.ok <==> q.argsPrepared && q.sendSucceeds
  {
    EnqueueNotification(LongBreakTask(user, p, reminderType, daysInactive), q)
  }
}
