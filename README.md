# Exercise lifecycle of a language-learning bot backend, in Dafny

This project models the decision and bookkeeping logic of a backend that serves short
language exercises to learners through chat bots. The backend keeps a stock of generated
exercises, judges learners' answers and caches the judgements, reviews exercises that
learners get wrong too often, tracks sessions and streaks, reminds learners to come back,
sells session unlocks, and writes weekly reports. The model states what each of these
operations promises and proves it.

Each core source file is one Dafny module:

| module | file | what it holds |
|---|---|---|
| `Canary` | `canary.dfy` | the canary bucket of a user |
| `QualityAssessor` | `quality_assessor.dfy` | the option checks that run before a generated exercise is assessed |
| `ExerciseData` | `exercise_data.dfy` | filling the blanks of a fill-in-the-blank exercise |
| `Answers` | `answer.dfy` | the answer kinds, their text and their dictionary form |
| `AccentGenerator` | `accent.dfy` | the accent helpers and the word filter of the accent exercise generator |
| `PendingReview` | `pending_review.dfy` | the verdict of the accent-exercise review |
| `ReviewProcessor` | `review_processor.dfy` | the review worker: grouping answers, choosing the new status, the comment trail |
| `Profiles` | `profile.dfy` | the user–bot profile and its store |
| `UserProgress` | `user_progress.dfy` | the next action: streak, freeze, session and set limits |
| `Streaks` | `streak.dfy` | the streak computed from activity dates |
| `NotificationProducer` | `notification_producer.dfy` | the guards and results of enqueuing a notification |
| `NotificationScheduler` | `notification_scheduler.dfy` | session-unfreeze reminders and the long-break reminder ladder |
| `AsyncTaskCaches` | `async_task_cache.dfy` | the Redis-backed task cache that shares one running task per key |
| `ValidationCaches` | `validation_cache.dfy` | the in-process cache with a timeout and a size bound |
| `AttemptValidation` | `attempt_validator.dfy` | judging an attempt from stored, translated or new judgements |
| `Payments` | `payment.dfy` | invoice payloads, invoice details, recording a payment |
| `Reports` | `reports.dfy` | the detailed report's status machine and the weekly report cycle |
| `UserReports` | `user_report.dfy` | requesting a detailed report, tag summaries, report windows |
| `StockRefill` | `stock_refill.dfy` | planning and running the exercise stock refill |

`Wrappers` (Option and Result), `Strings` (Python's `split`, `join`, `strip`, `int()` and
`str()` on integers) and `Enums` (the enumerations) are shared by the modules above.

Conventions:
- Time is an integer number of seconds since the epoch in UTC. A calendar date is the day
  number, the seconds divided by 86400.
- Calls to the language model, the translator, the database, Redis, the task queues and
  Telegram become parameters. A parameter holds the value the call returns, or whether
  the call succeeds.
- A repository or dictionary that an operation writes to is a field of a class. The
  method that writes it states the whole new state, usually as a function of the old one.
- An exception the code raises is an error value of a `Result`. An exception the code
  catches is the branch it takes.

What the code does, in the places where it is easy to misread:
- Answer validation chooses among all
  stored judgements by priority. It reuses a judgement that is correct or worded in the
  learner's language. It translates one worded in another language. Only when nothing is
  stored does it ask the model. The attempt itself is cached per learner.
- The review worker sets PUBLISHED, ARCHIVED or PENDING_ADMIN_REVIEW through an ordered
  chain of tests on the assessment. It archives an exercise without answers, or without a
  correct answer, without asking the assessor.
- The stock refill counts untouched exercises, with a floor of 5 per language and type.
  It has no per-cycle cap. It attaches no audio.
- The generation job of a detailed report is enqueued at once. Only the delivery job is
  deferred, by 3 seconds.

## Model

| member | source | states |
|---|---|---|
| Canary.IsUserInCanaryGroup | app/utils/ab_test.py:6-22 | a percentage outside 0..100 disables the feature, 100 enables it for everyone and 0 for nobody |
| Canary.CanaryIsBucketBelow | app/utils/ab_test.py:11-22 | for every valid percentage a user is in the group exactly when `user_id % 100` is below it, so the special cases agree with the bucket rule |
| Canary.CanaryMonotone | app/utils/ab_test.py:17-22 | raising the percentage never removes a user from the group |
| Canary.CanaryPeriodic | app/utils/ab_test.py:22 | ids a hundred apart are in or out together |
| QualityAssessor.ElementSetSize | app/llm/assessors/quality_assessor.py:109 | the set of options is smaller than the list exactly when some option is repeated |
| QualityAssessor.HasDuplicateOptions | app/llm/assessors/quality_assessor.py:107-109 | true exactly when two positions hold the same option |
| QualityAssessor.RepeatsSplit | app/llm/assessors/quality_assessor.py:107-109 | a list has a repetition exactly when its head recurs in its tail or its tail has one |
| QualityAssessor.Utf8Length | app/llm/assessors/quality_assessor.py:115 | the UTF-8 byte length of a text lies between its character count and four times it |
| QualityAssessor.AsciiUtf8Length | app/llm/assessors/quality_assessor.py:115 | ASCII text takes one byte per character |
| QualityAssessor.HasTooLongOptions | app/llm/assessors/quality_assessor.py:111-117 | an option of more than 64 characters is always too long; a flagged option has more than 16 characters |
| QualityAssessor.Assess | app/llm/assessors/quality_assessor.py:53-105 | duplicates are rejected first, then over-long options of fill-in-the-blank exercises, then an LLM verdict of invalid; the exercise passes exactly when none applies |
| QualityAssessor.VerdictIgnoredWhenOptionsRejected | app/llm/assessors/quality_assessor.py:56-89 | once the option checks reject an exercise the LLM's verdict does not change the outcome |
| QualityAssessor.LengthCheckOnlyForFillInTheBlank | app/llm/assessors/quality_assessor.py:70-72 | other exercise kinds without duplicates pass whatever the length of their options |
| ExerciseData.FillBlanks | app/core/value_objects/exercise.py:63-70 | the loop's text is the filled reading of the pieces and words, which `FilledIsWeave` ties to the pieces interleaved with the words |
| ExerciseData.GetFullExerciseText | app/core/value_objects/exercise.py:52-70 | the result is the full exercise text: an error for other exercise kinds and for a non-fill-in-the-blank answer, the text itself without words or without a blank, else the filled text |
| ExerciseData.FilledIsWeave | app/core/value_objects/exercise.py:63-68 | with one word per blank and pieces free of underscores, the loop interleaves pieces and words |
| ExerciseData.FillsEachBlank | app/core/value_objects/exercise.py:52-70 | a text built from pieces joined by `___` comes back with each word exactly where its blank was |
| ExerciseData.ExtraWordsDropped | app/core/value_objects/exercise.py:65-68 | words beyond the number of pieces never reach the text |
| ExerciseData.FullTextEdgeCases | app/core/value_objects/exercise.py:52-61 | other kinds raise, a wrong answer kind raises, and no words or no blank return the text unchanged |
| ExerciseData.ExerciseDict | app/core/value_objects/exercise.py:72-77 | the dictionary carries a string `type` tag; the fill-in-the-blank one holds the text and the words |
| ExerciseData.ExerciseDictTagsDistinct | app/core/value_objects/exercise.py:28-90 | equal tags mean the same exercise kind |
| Answers.LexLeTotal | app/core/value_objects/answer.py:73 | Python's string order, used by `sorted`, relates every two texts |
| Answers.LexLeAntisymmetric | app/core/value_objects/answer.py:73 | two texts each ordered before the other are equal |
| Answers.LexLeTransitive | app/core/value_objects/answer.py:73 | the string order is transitive |
| Answers.SortedStrings | app/core/value_objects/answer.py:73 | `sorted` of a set lists each member exactly once, in ascending string order |
| Answers.IntSetToList | app/core/value_objects/answer.py:78 | `list` of a set of indices lists each member exactly once |
| Answers.AnswerTextSplits | app/core/value_objects/answer.py:51-112 | splitting an answer text on `;` gives back its items when there is at least one and none holds a `;` |
| Answers.MultipleChoiceText | app/core/value_objects/answer.py:72-73 | a multiple-choice text lists every chosen index once, as decimal text, in string order, and nothing else |
| Answers.IntToStringInjective | app/core/value_objects/answer.py:73 | distinct indices have distinct texts, so no index is lost when the texts are collected |
| Answers.StrList | app/core/value_objects/answer.py:57-115 | a stored list of strings has one element per item |
| Answers.GetStrings | app/core/value_objects/answer.py:62-122 | a field read back as strings is present, is a list, and keeps its length |
| Answers.StringsRoundTrip | app/core/value_objects/answer.py:55-65 | a list of strings stored under a field is read back unchanged |
| Answers.IntSetRoundTrip | app/core/value_objects/answer.py:75-86 | a set of indices stored as a list is read back as the same set |
| Answers.DictRoundTrip | app/core/value_objects/answer.py:21-122 | every answer kind survives `to_dict` followed by `from_dict` |
| Answers.FromDictErrors | app/core/value_objects/answer.py:26-85 | a missing or non-string `type`, an unknown `type`, and a kind's field that is not a list are each refused with their own error |
| Profiles.ParseBotId | app/core/entities/user_bot_profile.py:17-18 | `BotID(s)` succeeds exactly for a bot's own value and yields that bot |
| Profiles.NewProfile | app/core/services/user_bot_profile.py:46-59 | a new profile is active, under its learner and bot, with zero counters and no session, last exercise or freeze |
| Profiles.ProfileStore.Lookup | app/core/services/user_bot_profile.py:43-45 | the stored profile when there is one, always under the requested key |
| Profiles.ProfileStore.GetOrCreate | app/core/services/user_bot_profile.py:37-62 | returns the stored profile, or stores and returns a new one; no other profile changes |
| Profiles.ProfileStore.Save | app/core/services/user_bot_profile.py:33-35 | the profile is written under its own key and nothing else changes |
| AccentGenerator.AccentIndex | app/services/choose_accent_generator.py:142-156 | -1 exactly when no vowel carries the stress mark (`has_accent_nfd` is false); otherwise the first vowel followed by the mark |
| AccentGenerator.GetAccentIndex | app/services/choose_accent_generator.py:150-156 | the scan returns the first vowel directly followed by U+0300, or -1 |
| AccentGenerator.VowelIndexesExact | app/services/choose_accent_generator.py:158-161 | the list holds exactly the positions of the vowels, each once, in ascending order |
| AccentGenerator.WithoutAccent | app/services/choose_accent_generator.py:167-169 | removing the character after the stressed vowel shortens the word by one |
| AccentGenerator.PlaceMark | app/services/choose_accent_generator.py:178-182 | the mark is inserted at the slot and the rest of the word is kept around it |
| AccentGenerator.OthersCount | app/services/choose_accent_generator.py:171-173 | skipping the stressed vowel drops exactly one position when it is a vowel |
| AccentGenerator.OthersKept | app/services/choose_accent_generator.py:171-173 | the skipped list keeps only positions of the vowel list other than the stressed one, in their order |
| AccentGenerator.GenerateIncorrectAccents | app/services/choose_accent_generator.py:163-184 | the loop yields the unaccented word with the mark placed after each other vowel, in order |
| AccentGenerator.WordIsMarkedWithoutAccent | app/services/choose_accent_generator.py:167-169 | a stressed word is its unaccented form with the mark put back after the stressed vowel |
| AccentGenerator.SlotFollowsVowel | app/services/choose_accent_generator.py:174-177 | the shifted slot of every other vowel lands right after that vowel in the unaccented word |
| AccentGenerator.IncorrectAccentsCount | app/services/choose_accent_generator.py:163-184 | a stressed word yields one wrong option per vowel other than the stressed one |
| AccentGenerator.IncorrectAccentShape | app/services/choose_accent_generator.py:163-184 | each wrong option is as long as the word, differs from it, and has the mark directly after another vowel |
| AccentGenerator.IncorrectAccentsDistinct | app/services/choose_accent_generator.py:163-184 | no two wrong options are alike |
| AccentGenerator.IncorrectAccentAt | app/services/choose_accent_generator.py:163-184 | the k-th wrong option is the unaccented word with the mark at the shifted slot of the k-th vowel other than the stressed one |
| AccentGenerator.OtherPlacementDiffers | app/services/choose_accent_generator.py:174-182 | putting the mark after any vowel but the stressed one never gives back the word itself |
| AccentGenerator.PlacementShape | app/services/choose_accent_generator.py:174-182 | such a placement is as long as the word, differs from it, and has the mark directly after a vowel other than the stressed one |
| AccentGenerator.Generate | app/services/choose_accent_generator.py:186-269 | no fetched word is one error and no suitable word another; otherwise the first suitable word, first among the options and as the answer |
| AccentGenerator.GeneratedExerciseOptions | app/services/choose_accent_generator.py:198-242 | a word passing the first filter has 1 to 4 wrong options, so the exercise has 2 to 5 options with the right one first and unlike all others |
| PendingReview.WordToAssess | app/llm/assessors/pending_review_assessor.py:86-101 | valid data exactly when there is a non-empty first option; the word is that option without backticks and apostrophes, everything else kept; malformed data is a ValueError |
| PendingReview.ChooseAccentVerdict | app/llm/assessors/pending_review_assessor.py:146-212 | a failed call gives flawed and ARCHIVE; a common word with HIGH confidence gives PUBLISH_OK, not flawed, no revision; a common word otherwise gives PENDING_ADMIN_REVIEW with a revision; an uncommon word gives flawed and ARCHIVE |
| PendingReview.AssessChooseAccent | app/llm/assessors/pending_review_assessor.py:79-212 | malformed data raises before the model is consulted; otherwise the verdict for the cleaned word |
| PendingReview.CorrectDetails | app/llm/assessors/pending_review_assessor.py:229-259 | one line per correct answer, falling back to the answer text when the exercise text cannot show it |
| PendingReview.CorrectAnswersFallback | app/llm/assessors/pending_review_assessor.py:261-266 | the fixed "no designated correct answers" sentence appears exactly when there is no correct answer |
| PendingReview.IncorrectDetails | app/llm/assessors/pending_review_assessor.py:268-282 | one entry per incorrect answer, with stored feedback when there is some; any answer that cannot be shown makes it fail |
| PendingReview.UserAnswersFallback | app/llm/assessors/pending_review_assessor.py:268-288 | the text fails exactly when some answer cannot be shown; otherwise the fixed sentence appears exactly when there are no incorrect answers |
| PendingReview.AssessPendingExercise | app/llm/assessors/pending_review_assessor.py:214-396 | CHOOSE_ACCENT always takes the dedicated assessment; other kinds pass both answer texts to the model, and a rendering or model failure propagates |
| ReviewProcessor.IndexOfKey | app/workers/exercise_review_processor.py:104 | the position of the group holding a key, or -1 when no group has it |
| ReviewProcessor.RowsWithKey | app/workers/exercise_review_processor.py:100-117 | the rows collected for a key all come from the input and carry that key |
| ReviewProcessor.AggregateGroups | app/workers/exercise_review_processor.py:96-117 | one group per (answer text, is_correct) key: keys distinct, each group holding exactly the rows of its key in order and the sum of their counts, and every row's key present |
| ReviewProcessor.AggregateAnswers | app/workers/exercise_review_processor.py:96-117 | the grouping loop yields exactly those groups |
| ReviewProcessor.Representative | app/workers/exercise_review_processor.py:130-140 | the first variant with feedback language 'en' when there is one, otherwise the first variant |
| ReviewProcessor.ChooseRepresentative | app/workers/exercise_review_processor.py:130-145 | the search loop picks that representative |
| ReviewProcessor.SummariesOf | app/workers/exercise_review_processor.py:126-163 | the summaries of one correctness are empty exactly when no group has that correctness |
| ReviewProcessor.Partition | app/workers/exercise_review_processor.py:126-163 | the loop splits the groups into correct and incorrect summaries, in group order |
| ReviewProcessor.CorrectSummaryExists | app/workers/exercise_review_processor.py:160-167 | there is a correct summary exactly when some stored answer is correct |
| ReviewProcessor.InsertDescPermutation | app/workers/exercise_review_processor.py:187-189 | inserting an entry keeps every entry and adds that one |
| ReviewProcessor.InsertDescSorted | app/workers/exercise_review_processor.py:187-189 | inserting into a list sorted by descending count keeps it sorted |
| ReviewProcessor.SortDescSortedPermutation | app/workers/exercise_review_processor.py:187-189 | the incorrect summaries end sorted by count, largest first, and are a permutation of the input |
| ReviewProcessor.SortDescStable | app/workers/exercise_review_processor.py:187-189 | the sort is stable: entries of equal count keep their order |
| ReviewProcessor.WithCountAppend | app/workers/exercise_review_processor.py:187-189 | the entries of one count in a concatenation are those of each part, in order |
| ReviewProcessor.SortByCountDesc | app/workers/exercise_review_processor.py:187-189 | the insertion loop gives the stable descending order |
| ReviewProcessor.Decide | app/workers/exercise_review_processor.py:245-274 | a revision gives PENDING_ADMIN_REVIEW; else PUBLISH_OK, or KEEP_AS_IS_COMPLEX when not flawed, gives PUBLISHED; else flawed or ARCHIVE gives ARCHIVED; else PENDING_ADMIN_REVIEW in the action gives it; else ARCHIVED (stated as iff conditions per status) |
| ReviewProcessor.PublishActionPublishes | app/workers/exercise_review_processor.py:245-251 | an assessment advising PUBLISH_OK with no revision publishes |
| ReviewProcessor.ArchiveActionArchives | app/workers/exercise_review_processor.py:252-256 | a flawed exercise whose assessment advises ARCHIVE with no revision is archived |
| ReviewProcessor.ChooseAccentDecisions | app/llm/assessors/pending_review_assessor.py:146-212 | a failed call or an uncommon word ends ARCHIVED, a common word with HIGH confidence PUBLISHED, a common word otherwise PENDING_ADMIN_REVIEW |
| ReviewProcessor.CommentParts | app/workers/exercise_review_processor.py:343-361 | the entry has the review time, the conclusion, the action, a revision line only when a revision is present, and ends with the new status |
| ReviewProcessor.ReviewExercise | app/workers/exercise_review_processor.py:62-393 | the review of one exercise: skipped without an id, otherwise the decision and store update of `Review` |
| ReviewProcessor.NoAnswersArchived | app/workers/exercise_review_processor.py:77-94 | no answer rows: ARCHIVED with no comments written and no assessor call |
| ReviewProcessor.NoCorrectAnswerArchived | app/workers/exercise_review_processor.py:165-185 | no correct answer: ARCHIVED with no comments written and no assessor call |
| ReviewProcessor.AssessedOutcome | app/workers/exercise_review_processor.py:191-393 | an assessor failure records PENDING_REVIEW and writes nothing; otherwise the status is the verdict's decision and the comments become the old comments plus exactly one entry |
| ReviewProcessor.Batch | app/workers/exercise_review_processor.py:44-49 | a cycle takes at most ten exercises |
| ReviewProcessor.CycleDecisions | app/workers/exercise_review_processor.py:62-67 | at most one decision per exercise of the cycle |
| ReviewProcessor.CycleExtends | app/workers/exercise_review_processor.py:62-67 | one more exercise adds its decision, if it was reviewed, and its effect on the store, after those of the ones before |
| ReviewProcessor.ReviewDecidesOwnExercise | app/workers/exercise_review_processor.py:62-393 | a review decides only the status of the exercise it was given |
| ReviewProcessor.CycleTouchesOnlyReviewed | app/workers/exercise_review_processor.py:62-393 | the status and comments of exercises outside the cycle do not change |
| ReviewProcessor.ExerciseStore.Update | app/workers/exercise_review_processor.py:375-379 | the status is written; the comments only when given |
| ReviewProcessor.ExerciseStore.ProcessCycle | app/workers/exercise_review_processor.py:35-402 | the decisions and the new store are those of reviewing the first ten waiting exercises in order |
| Streaks.Run | alembic/versions/c4870005fb1d_profile_extend_for_streak_days.py:35-40 | the count from a position never exceeds the number of remaining dates |
| Streaks.Streak | alembic/versions/c4870005fb1d_profile_extend_for_streak_days.py:24-49 | no dates give 0; a newest date before yesterday gives 0; otherwise at least 1; never more than the number of dates |
| Streaks.CalculateStreak | alembic/versions/c4870005fb1d_profile_extend_for_streak_days.py:24-49 | the migration's loop computes that streak |
| Streaks.RunIsConsecutiveFrom | alembic/versions/c4870005fb1d_profile_extend_for_streak_days.py:30-40 | on a strictly descending history the loop counts exactly the consecutive days ending at the newest date, and the day before them is missing |
| Streaks.StreakCountsConsecutiveDays | alembic/versions/c4870005fb1d_profile_extend_for_streak_days.py:30-47 | a current streak is the length of the run of consecutive days ending at the newest date |
| Streaks.RunShift | alembic/versions/c4870005fb1d_profile_extend_for_streak_days.py:35-40 | a newer date put in front shifts the count by one position |
| Streaks.WithDayDescending | alembic/versions/c4870005fb1d_profile_extend_for_streak_days.py:55-62 | the history with today added stays newest-first without repeats |
| Streaks.NewStreakMatchesHistory | app/core/services/user_progress.py:86-100 | the counter the request path records equals the migration's recomputation from the history that includes today |
| Streaks.RecordingKeepsAgreement | app/core/services/user_progress.py:86-100 | recording an exercise keeps the profile's streak and last exercise in agreement with the history |
| UserProgress.StartNewSession | app/core/services/user_progress.py:40-56 | a new session starts now with zeroed counters, no freeze and cleared reminder bookkeeping; the learner, last exercise and streak stay |
| UserProgress.ExerciseLimit | app/core/services/user_progress.py:146-151 | the limit is max(sets_in_session, renewed sets) × exercises_in_set: never below three sets and always whole sets |
| UserProgress.RequestReactivates | app/core/services/user_progress.py:77-81 | a blocked learner who asks again is active again; the profile stays under its key |
| UserProgress.UserProgressService.ReactivateStep | app/core/services/user_progress.py:77-81 | a blocked profile is stored as active, any other profile is left as it is, and only that key changes |
| UserProgress.ProgressSteps | app/core/services/user_progress.py:77-226 | reactivating does not change the streak; a frozen learner waits out the freeze; otherwise the session is opened and the next exercise served |
| UserProgress.FrozenLearnerWaits | app/core/services/user_progress.py:102-127 | while now < session_frozen_until the answer is limit_reached with the positive remaining time, and no counter changes |
| UserProgress.NewSessionServesExercise | app/core/services/user_progress.py:128-226 | an ended freeze, a missing session start or an over-long session start a new session now, so the learner gets an exercise (or an error when none is found), never a limit |
| UserProgress.FullSessionFreezes | app/core/services/user_progress.py:153-185 | at or over the limit the session is frozen until now + delta, reminders are cleared, the counters stay, and the answer is congratulations_and_wait with the pause |
| UserProgress.ActionEffects | app/core/services/user_progress.py:187-243 | a new exercise raises both counters by one within the limits and stamps the time and the streak; praise empties the set and its errors; an error changes nothing |
| UserProgress.LookupOnlyDecidesError | app/core/services/user_progress.py:188-203 | a found exercise gives a new exercise exactly where a missing one gives an error |
| UserProgress.ProgressKeepsCountersInRange | app/core/services/user_progress.py:153-243 | the set counter stays within 0..5 and never exceeds the session counter |
| UserProgress.UserProgressService.OpenSessionStep | app/core/services/user_progress.py:128-144 | the session checks leave the stored profile and the session time as the reference says |
| UserProgress.UserProgressService.ServeStep | app/core/services/user_progress.py:146-243 | the limit and set checks answer and write the profile as the reference says |
| UserProgress.UserProgressService.GetNextAction | app/core/services/user_progress.py:39-243 | a missing user is an error and nothing changes; otherwise the answer and the stored profile are those of the reference applied to the fetched or created profile |
| NotificationProducer.EnqueueNotification | app/services/notification_producer.py:102-171 | when the arguments cannot be prepared nothing is sent and the result is False; otherwise the send is attempted and the result is True exactly when it succeeds |
| NotificationProducer.SessionReminderText | app/services/notification_producer.py:173-181 | the Russian text exactly when the language starts with 'ru' in any case, the English one otherwise |
| NotificationProducer.LongBreakTextShowsDays | app/services/notification_producer.py:233-248 | two long-break texts in one language are equal only for the same number of days |
| NotificationProducer.LongBreakTextLanguage | app/services/notification_producer.py:240-248 | the long-break text is Russian by the same language test as the session reminder |
| NotificationProducer.ReminderPayload | app/services/notification_producer.py:218-273 | reminders go to the user's Telegram id as HTML without link previews |
| NotificationProducer.SessionReminderTask | app/services/notification_producer.py:212-226 | a session-reminder task for the user and bot, with the session text and no metadata |
| NotificationProducer.LongBreakTask | app/services/notification_producer.py:260-279 | a long-break task whose metadata holds exactly reminder_type and days_inactive |
| NotificationProducer.PrepareSessionReminder | app/services/notification_producer.py:183-231 | False without a send when reminders are turned off or the session is still frozen; otherwise the enqueue result for the session task |
| NotificationProducer.PrepareLongBreakReminder | app/services/notification_producer.py:250-284 | no guards of its own: True exactly when the arguments are prepared and the send succeeds |
| NotificationScheduler.RungNamesDistinct | app/config.py:77-86 | the ladder's names are distinct, so a stored name identifies its rung |
| NotificationScheduler.LadderAscending | app/config.py:67-86 | the intervals grow strictly along the ladder |
| NotificationScheduler.RungOnLadder | app/config.py:67-86 | every interval key is on the ladder |
| NotificationScheduler.SchedulerPassesProducerGuards | app/workers/notification_scheduler.py:46-69 | whenever the scheduler calls the producer, the producer's own guards pass and the queue alone decides the result |
| NotificationScheduler.ExactlyOneCycleSeesFreezeEnd | app/workers/notification_scheduler.py:52-60 | with cycles one interval apart, exactly one cycle sees the end of a freeze in its window (now − interval, now]: no reminder is missed or repeated |
| NotificationScheduler.IndexOfName | app/workers/notification_scheduler.py:92-103 | `index` of a name on the ladder, or -1 exactly where Python raises ValueError |
| NotificationScheduler.LastSentIndex | app/workers/notification_scheduler.py:89-103 | the position of the last type sent, or -1 for none, an empty or an unknown type |
| NotificationScheduler.ChooseReminder | app/workers/notification_scheduler.py:105-116 | the loop over the reversed candidates finds the last candidate whose interval has passed |
| NotificationScheduler.LastFittingIsLargestPassed | app/workers/notification_scheduler.py:105-116 | on an ascending ladder the chosen type is the passed one with the largest interval, and there is none exactly when no interval has passed |
| NotificationScheduler.CandidatesAscending | app/workers/notification_scheduler.py:105-108 | the candidates after the last type sent stay ascending |
| NotificationScheduler.UnknownTypeRestarts | app/workers/notification_scheduler.py:89-108 | a missing or unknown last type restarts from the first rung |
| NotificationScheduler.LadderOnlyClimbs | app/workers/notification_scheduler.py:89-168 | once a type is recorded only higher rungs remain: the same type is never sent twice in a row |
| NotificationScheduler.PlanLongBreak | app/workers/notification_scheduler.py:77-154 | no reminder without a last exercise; a send only after the cooldown, with the whole days of inactivity; a hold-back only inside the cooldown |
| NotificationScheduler.PlanPicksLargestPassedRung | app/workers/notification_scheduler.py:84-116 | the planned type is the largest passed rung still to climb, and there is none exactly when no rung has passed |
| NotificationScheduler.ChooseLongBreakPlan | app/workers/notification_scheduler.py:105-116 | the backwards loop over the remaining rungs yields exactly the planned reminder |
| NotificationScheduler.PlanFollowsPassedRung | app/workers/notification_scheduler.py:105-118 | a reminder is planned exactly when a rung after the last one sent has passed, and it is that rung |
| NotificationScheduler.PassedRungIgnoresSentAt | app/workers/notification_scheduler.py:84-116 | the rung chosen depends only on the last activity and the last rung sent |
| NotificationScheduler.CooldownBoundary | app/workers/notification_scheduler.py:119-140 | exactly the cooldown since the last reminder is enough; one second less holds it back |
| NotificationScheduler.MinLongBreakDuration | app/workers/notification_scheduler.py:216-222 | the first rung's interval, one day, the smallest of all |
| NotificationScheduler.MinDurationKeepsEveryCandidate | app/workers/notification_scheduler.py:263-272 | the query's minimum break drops no learner who could get a reminder |
| NotificationScheduler.WindowContainsNow | app/workers/notification_scheduler.py:224-246 | the current time of day lies inside the window, which wraps past midnight when its start is after its end |
| NotificationScheduler.Recorded | app/workers/notification_scheduler.py:161-168 | the written-back profile differs only in the type sent and its time |
| NotificationScheduler.CompleteCount | app/workers/notification_scheduler.py:176-205 | the processed count never exceeds the number of profiles |
| NotificationScheduler.EntryEffectAppends | app/workers/notification_scheduler.py:177-205 | a profile only appends its own tasks |
| NotificationScheduler.ApplyEntriesTasks | app/workers/notification_scheduler.py:177-205 | the tasks of a run are each profile's own tasks in order: a skip or a failure on one profile does not stop the later ones |
| NotificationScheduler.AllTasksContain | app/workers/notification_scheduler.py:177-205 | every task a profile produces is among the run's tasks |
| NotificationScheduler.AllTasksOfKind | app/workers/notification_scheduler.py:187-196 | a run enqueues tasks of its own kind only |
| NotificationScheduler.SessionEntriesKeepProfiles | app/workers/notification_scheduler.py:38-75 | session reminders never write a profile |
| NotificationScheduler.LongBreakUpdateOnlyAfterEnqueue | app/workers/notification_scheduler.py:148-168 | a profile is written only after its reminder was enqueued, and then records that type and the time |
| NotificationScheduler.ShippedSettingsNeverSendLongBreaks | app/workers/notification_scheduler.py:224-229 | with the settings as shipped a cycle enqueues session reminders only and writes no profile |
| NotificationScheduler.ConfiguredCycleSendsDueLongBreaks | app/workers/notification_scheduler.py:263-278 | with the window configured every complete due profile whose queue accepts gets its long-break reminder |
| NotificationScheduler.ReminderScheduler.ProcessSessionReminder | app/workers/notification_scheduler.py:38-75 | enqueues the session reminder exactly when it is due and the producer reports success |
| NotificationScheduler.ReminderScheduler.ProcessLongBreakReminder | app/workers/notification_scheduler.py:77-168 | enqueues the planned reminder and writes the profile back only after a successful enqueue |
| NotificationScheduler.ReminderScheduler.ProcessUserProfiles | app/workers/notification_scheduler.py:170-209 | the run's effect is each complete profile processed in order, and the count is the number of complete profiles |
| NotificationScheduler.ReminderScheduler.RunCheckCycle | app/workers/notification_scheduler.py:211-280 | session reminders first; the cycle fails exactly when the window setting is missing, before any long-break reminder |
| NotificationScheduler.ReminderScheduler.Start | app/workers/notification_scheduler.py:283-326 | refused while running; otherwise runs every cycle, each error caught, and ends not running |
| NotificationScheduler.ReminderScheduler.Stop | app/workers/notification_scheduler.py:328-330 | stops the loop and enqueues nothing |
| AsyncTaskCaches.CacheTtl | app/core/services/async_task_cache.py:55 | the TTL given, or the two-minute default when none is given |
| AsyncTaskCaches.Clear | app/core/services/async_task_cache.py:166-167 | forgets every running task and leaves Redis untouched |
| AsyncTaskCaches.HitRunsNothing | app/core/services/async_task_cache.py:57-62 | a non-empty entry the deserializer accepts is returned and no task is started |
| AsyncTaskCaches.UnreadableEntryIsMiss | app/core/services/async_task_cache.py:63-76 | an entry the deserializer rejects, or an unreachable Redis, behaves exactly like a missing key |
| AsyncTaskCaches.SecondRequestJoins | app/core/services/async_task_cache.py:80-94 | a request for a key whose task is running awaits that task and starts no other one |
| AsyncTaskCaches.BeginIssuesFreshTask | app/core/services/async_task_cache.py:80-94 | a new task gets a number no running task has; a joined task is the one registered under the key |
| AsyncTaskCaches.OnlyOwnTaskRemoved | app/core/services/async_task_cache.py:102-108 | the running entry is dropped only when it is the task that completed; other keys are untouched |
| AsyncTaskCaches.FailureCachesNothing | app/core/services/async_task_cache.py:159-164 | a task that raised returns nothing and writes nothing to Redis |
| AsyncTaskCaches.UncachedResultStillReturned | app/core/services/async_task_cache.py:128-157 | a result that does not serialize, or whose SET fails, is returned but not cached |
| AsyncTaskCaches.CachedResultServedNext | app/core/services/async_task_cache.py:122-157 | round trip: after a cached result, the next request for the key gets it back without starting a task |
| AsyncTaskCaches.AsyncTaskCache.GetOrCreateTask | app/core/services/async_task_cache.py:28-94 | the new state and answer are those of the hit / join / start step |
| AsyncTaskCaches.AsyncTaskCache.CompleteTask | app/core/services/async_task_cache.py:96-164 | the result and the new state are those of the completion step with the effective TTL |
| AsyncTaskCaches.AsyncTaskCache.ClearRunning | app/core/services/async_task_cache.py:166-167 | the state becomes the cleared state |
| ValidationCaches.IndexOfKey | app/api/cache.py:23 | the position holding the key, or -1 exactly when no entry has it |
| ValidationCaches.FindOldest | app/api/cache.py:37-39 | the scan finds the first entry with the smallest timestamp |
| ValidationCaches.OldestUnique | app/api/cache.py:37-39 | that entry is unique |
| ValidationCaches.PutKeepsDistinct | app/api/cache.py:34 | storing keeps keys distinct, grows the cache only for a new key, and the key then holds the new entry |
| ValidationCaches.RemoveAtKeepsDistinct | app/api/cache.py:40 | eviction keeps keys distinct and removes exactly one entry |
| ValidationCaches.ValidationCache.constructor | app/api/cache.py:10-14 | an empty cache with the given size bound and timeout |
| ValidationCaches.ValidationCache.Served | app/api/cache.py:23-30 | a served result is one stored under the key |
| ValidationCaches.ValidationCache.GetOrCreateValidation | app/api/cache.py:16-42 | a fresh entry is returned unchanged; otherwise the computed result is stored and returned, the oldest entry evicted past max_size, and the size bound kept |
| ValidationCaches.NewResultKeptUnlessOldest | app/api/cache.py:32-40 | the new result survives eviction whenever some other entry is strictly older |
| AttemptValidation.First | app/core/services/attempt_validator.py:61-79 | none exactly when no judgement passes the test; otherwise the earliest one that passes |
| AttemptValidation.ChoicePriority | app/core/services/attempt_validator.py:52-88 | a choice exists exactly when a judgement is stored; correct ones come first, then the learner's language, then any other |
| AttemptValidation.Matching | app/core/services/attempt_validator.py:55-59 | exactly the stored judgements of this answer to this exercise |
| AttemptValidation.TranslatedCopy | app/core/services/attempt_validator.py:274-281 | the same verdict with translated feedback in the target language, no id, and `created_by` naming the original |
| AttemptValidation.LlmAnswer | app/core/services/attempt_validator.py:229-238 | the model's verdict in the learner's language, no id, made by `LLM:user:<id>` |
| AttemptValidation.MadeByTellsApart | app/core/services/attempt_validator.py:229-281 | a translated copy and a model judgement never coincide and are told apart by `created_by` |
| AttemptValidation.PreAttempt | app/core/services/attempt_validator.py:121-129 | the pre-saved attempt carries the learner, exercise and answer with every result field empty |
| AttemptValidation.FreshJudgement | app/core/services/attempt_validator.py:136-148 | the judgement a fresh attempt gets carries the new id and the learner's language, with the verdict of the unusable stored judgement (feedback translated) or else the model's verdict |
| AttemptValidation.AttemptValidator.constructor | app/core/services/attempt_validator.py:30-42 | empty repositories |
| AttemptValidation.AttemptValidator.SaveAnswer | app/core/services/attempt_validator.py:239-241 | the judgement is stored last under the next id; attempts are untouched |
| AttemptValidation.AttemptValidator.SaveAttempt | app/core/services/attempt_validator.py:114-116 | the attempt is stored under the next id; answers are untouched |
| AttemptValidation.AttemptValidator.CopyAnswerTranslateFeedback | app/core/services/attempt_validator.py:265-305 | a cached translation is returned, or refused without an id; otherwise exactly the translated copy is saved and returned |
| AttemptValidation.AttemptValidator.LlmValidateAndSaveNewAnswer | app/core/services/attempt_validator.py:215-263 | a cached judgement is returned, or refused without an id; otherwise exactly the model's judgement is saved and returned |
| AttemptValidation.AttemptValidator.NewJudgement | app/core/services/attempt_validator.py:136-148 | with nothing cached, the judgement saved is in the learner's language: a translated copy of the stored one, or the model's |
| AttemptValidation.AttemptValidator.UpdateAttempt | app/core/services/attempt_validator.py:157-164 | only the result fields of that attempt change |
| AttemptValidation.AttemptValidator.HandleExerciseAttempt | app/core/services/attempt_validator.py:90-168 | no exercise id is an error that saves nothing; a usable stored judgement gives one saved attempt copied from it; otherwise the pre-saved attempt is completed from a stored, usable judgement; with nothing cached, the new judgement is the only answer stored and the attempt carries its verdict |
| AttemptValidation.AttemptValidator.JudgeNewAttempt | app/core/services/attempt_validator.py:117-168 | an empty attempt is saved first and filled from the new judgement; a judgement without an id leaves it empty and fails; with nothing cached, exactly that judgement is stored and the attempt carries its verdict |
| AttemptValidation.AttemptValidator.ValidateExerciseAttempt | app/core/services/attempt_validator.py:44-213 | a cached attempt is returned with nothing saved; otherwise the attempt is handled now, with the same outcome and the same new answers and attempts as the handling path |
| Payments.ParseInvoicePayload | app/core/services/payment.py:64-85 | a payload is accepted only with the prefix and a known source |
| Payments.ParseInvoicePayloadRejects | app/core/services/payment.py:65-81 | a missing prefix, an unknown source and a bad bot name raise their own errors |
| Payments.ItemFieldRejected | app/core/services/payment.py:59-83 | the item field `<id>_time_<ts>` is not an integer to int() |
| Payments.AsWrittenPayloadRejected | app/core/services/payment.py:47-85 | every payload the service builds fails to parse at its item field |
| Payments.InvoicePayloadRoundTrip | app/core/services/payment.py:47-85 | with the timestamp in its own field, parsing returns the source, user, bot and item the payload was built from |
| Payments.ParseJoinedPayload | app/core/services/payment.py:59-85 | a payload joined from the prefix, a known source, the user id and the bot name parses to those values and the item field's integer, or fails with that field's integer error |
| Payments.UnlockPrices | app/core/services/payment.py:93-108 | one price per tier, in the order 20, 50, 100, 200, 500, 1000 stars, strictly increasing, labelled tier 1 to 6 |
| Payments.GetUnlockPaymentDetails | app/core/services/payment.py:87-138 | the invoice is in XTR with the unlock button, carries the six tier prices, and its payload parses back to a session unlock for this payer and bot with item id -1 |
| Payments.GetReportDonationDetails | app/core/services/payment.py:140-183 | refused exactly when the report is not the user's; otherwise one price of the donation amount and a payload naming the report |
| Payments.GetInvoiceDetailsForSource | app/core/services/payment.py:185-216 | a donation without an item id and an unknown source are refused; an unlock always succeeds; a produced payload parses back to its source |
| Payments.PaymentLedger.constructor | app/core/services/payment.py:33-45 | no payments and no unlocks |
| Payments.PaymentLedger.ProcessSuccessfulPayment | app/core/services/payment.py:218-297 | a known charge id, a bad payload or a missing report changes nothing; otherwise exactly one payment is recorded, an unlock resets the payer's session, and charge ids stay unique |
| Reports.AsWrittenMissingProfileStaysGenerating | app/workers/arq_tasks/reports.py:46-68 | as written, a report whose learner has no profile returns False and stays GENERATING |
| Reports.GenerationSettles | app/workers/arq_tasks/reports.py:46-94 | corrected generation always settles: True exactly when GENERATED with the model's text, False exactly when FAILED; nothing else in the report changes |
| Reports.GenerateDiffersOnlyOnMissingProfile | app/workers/arq_tasks/reports.py:64-68 | the correction agrees with the code as written everywhere except the missing-profile case |
| Reports.SentOnlyAfterGenerated | app/workers/arq_tasks/reports.py:106-140 | only a GENERATED report with a non-empty text can be marked SENT |
| Reports.WeekStart | app/workers/arq_tasks/reports.py:207-209 | the day that contains the instant seven days before the cycle |
| Reports.WeeklyReport | app/workers/arq_tasks/reports.py:266-276 | a PENDING short report for the profile's learner and bot, for that week, with no full text |
| Reports.SavedMembers | app/workers/arq_tasks/reports.py:228-292 | the saved candidates are exactly those with at least 15 attempts whose save succeeds |
| Reports.Notices | app/workers/arq_tasks/reports.py:280 | one notice per saved report, with consecutive ids |
| Reports.WithReportsAt | app/workers/arq_tasks/reports.py:276 | the i-th saved report is stored under the i-th new id |
| Reports.WithReportsKeeps | app/workers/arq_tasks/reports.py:276 | every row outside the new ids is kept as it was |
| Reports.StampedContents | app/workers/arq_tasks/reports.py:277-278 | every saved report's profile records the cycle's time |
| Reports.SavedStep | app/workers/arq_tasks/reports.py:238-280 | one more candidate adds itself to the saved ones exactly when it qualifies and its save succeeds |
| Reports.AddCandidatesNextId | app/workers/arq_tasks/reports.py:228-292 | the loop issues one id per saved report |
| Reports.AddCandidatesNotices | app/workers/arq_tasks/reports.py:228-292 | the loop collects exactly the notices of the saved reports |
| Reports.AddCandidatesReports | app/workers/arq_tasks/reports.py:228-292 | the loop adds exactly the saved reports to the table |
| Reports.AddCandidatesStamps | app/workers/arq_tasks/reports.py:228-292 | the loop stamps exactly the saved reports' profiles |
| Reports.AddCandidatesSavesQualifying | app/workers/arq_tasks/reports.py:228-292 | the whole first loop: reports, ids, notices and stamps of the qualifying candidates only |
| Reports.BatchesCover | app/workers/arq_tasks/reports.py:300-301 | the batches of `range(0, n, size)` cover every notice, the last one holding fewer than `size` more |
| Reports.WithUsersMembers | app/workers/arq_tasks/reports.py:302-311 | an id is notified exactly when one of the notices carries it and has a user row |
| Reports.NoticedWithUser | app/workers/arq_tasks/reports.py:296-311 | every saved report whose learner has a user row is among those notified |
| Reports.NotifiedWasNoticed | app/workers/arq_tasks/reports.py:296-311 | every notified id belongs to a saved report whose learner has a user row |
| Reports.ReportWorker.constructor | app/workers/arq_tasks/reports.py:200-314 | an empty report table and empty queues |
| Reports.ReportWorker.GenerateDetailedReport | app/workers/arq_tasks/reports.py:30-94 | a missing or unaccepted report is skipped with False and nothing changes; otherwise only that report changes, as corrected generation says |
| Reports.ReportWorker.GenerateAndSendDetailedReport | app/workers/arq_tasks/reports.py:153-197 | without its context nothing happens; otherwise the delivery job is enqueued, deferred 3 seconds, exactly when generation succeeds; the report ids, profile stamps, weekly notifications and pauses stay as they were |
| Reports.ReportWorker.SendDetailedReportNotification | app/workers/arq_tasks/reports.py:97-150 | the report becomes SENT exactly when it is ready, its learner and profile are found and the notification is enqueued; otherwise nothing changes; no job, id, stamp, weekly notification or pause changes either way |
| Reports.ReportWorker.SaveWeeklyReport | app/workers/arq_tasks/reports.py:266-280 | the report is stored under the next id and its profile records the time |
| Reports.ReportWorker.NotifySaved | app/workers/arq_tasks/reports.py:296-314 | a missing setting or a zero batch size raises before any notification; otherwise the notices with a user row are notified, with a pause between batches |
| Reports.ReportWorker.NotifyBatch | app/workers/arq_tasks/reports.py:302-314 | one batch notifies exactly its notices with a user row, in order, then pauses for the delay when more batches follow; nothing else changes |
| Reports.ReportWorker.CreateWeeklyReports | app/workers/arq_tasks/reports.py:228-292 | the qualifying reports are stored under consecutive new ids, their profiles stamped with the time, one notice per saved report |
| Reports.ReportWorker.SaveEachCandidate | app/workers/arq_tasks/reports.py:228-292 | the first loop, candidate by candidate, leaves exactly the state the reference fold over the candidates computes |
| Reports.ReportWorker.NotifyInBatches | app/workers/arq_tasks/reports.py:300-314 | each notice with a user row is notified once, in order, with a pause after every batch but the last |
| Reports.ReportWorker.RunReportGenerationCycle | app/workers/arq_tasks/reports.py:200-314 | the qualifying reports are saved and committed and exactly their profiles stamped, whatever happens next; the notifications sent are exactly those the settings allow; the worker pauses once between batches when the settings allow batches, and never otherwise |
| Reports.ShippedSettingsNotifyNobody | app/workers/arq_tasks/reports.py:294-298 | as shipped, the undeclared batch setting makes the cycle raise after the commit and notify nobody |
| Reports.ConfiguredCycleNotifiesEachReportOnce | app/workers/arq_tasks/reports.py:296-314 | with the settings declared, every saved report with a user row is notified exactly once, in ascending id order |
| Reports.NoticesIncreasing | app/workers/arq_tasks/reports.py:300-311 | the notified ids keep the order the reports were saved in |
| UserReports.Latest | app/db/repositories/user_report.py:37-53 | none exactly when the learner has no report for the bot; otherwise one of theirs with the latest week start |
| UserReports.RequestOutcomes | app/core/services/user_report.py:47-86 | no profile or no report is an error that enqueues nothing; a report GENERATING, GENERATED or SENT is answered with its status; any other gets exactly one generation job and the answer GENERATING |
| UserReports.ReportRequests.constructor | app/core/services/user_report.py:25-35 | an empty queue |
| UserReports.ReportRequests.RequestDetailedReport | app/core/services/user_report.py:47-86 | the answer and the jobs enqueued are those of the request outcome |
| UserReports.AsWrittenStuckReportNeverRequeued | app/core/services/user_report.py:70-75 | as written, a report stuck GENERATING after a missing profile is answered GENERATING on every request and never enqueued again |
| UserReports.AsWrittenFailedReportNeverRetried | app/core/services/user_report.py:77-86 | as written, a FAILED report is enqueued and answered GENERATING, but the worker refuses it |
| UserReports.RequestedReportIsProcessed | app/core/services/user_report.py:70-86 | corrected: whenever GENERATING is answered, the report is generating or its job is accepted and settles it as GENERATED or FAILED |
| UserReports.InsertByCount | app/core/services/user_report.py:182-186 | inserting adds exactly that entry |
| UserReports.InsertKeepsDescending | app/core/services/user_report.py:182-186 | inserting into a descending list keeps it descending |
| UserReports.SortByCountSorts | app/core/services/user_report.py:182-186 | the sort is a permutation ordered from the largest count |
| UserReports.SortByCountPermutes | app/core/services/user_report.py:182-186 | sorting keeps exactly the entries it was given |
| UserReports.SortByCountDescending | app/core/services/user_report.py:182-186 | the sorted list is ordered from the largest count |
| UserReports.InsertKeepsBound | app/core/services/user_report.py:182-186 | inserting an entry no larger than a bound keeps every count within it |
| UserReports.PrefixDominates | app/core/services/user_report.py:182-186 | a prefix of a descending list is descending, taken from it, and no entry left out has a larger count than one taken |
| UserReports.TakePrefix | app/core/services/user_report.py:186 | Python slicing `[:n]`, negative `n` included: a prefix of the length Python gives |
| UserReports.TagTexts | app/core/services/user_report.py:191-193 | one `tag (n times)` text per tag, in order |
| UserReports.FormatTagsForSummary | app/core/services/user_report.py:172-194 | nothing exactly when the selection is empty; otherwise the label and the selected tags with their counts, comma-separated, ending in a period |
| UserReports.TopTagsAreMostFrequent | app/core/services/user_report.py:182-186 | the `top_n` entries named are sorted, taken from the dictionary, and none left out occurred more often |
| UserReports.DefaultTopTagsLine | app/core/services/user_report.py:172-189 | with the default of seven, there is a line exactly when the dictionary is not empty |
| UserReports.CurrentWindow | app/core/services/user_report.py:110-114 | seven days from midnight of the week start day |
| UserReports.PreviousWindow | app/core/services/user_report.py:115-116 | the seven days that end where the current window starts |
| UserReports.WindowsFollowWeeklyCycle | app/core/services/user_report.py:110-114 | for a report made by the weekly cycle, the current window lags the cycle's own seven days by less than a day |
| StockRefill.AllExerciseTypesListed | app/workers/exercise_stock_refill.py:122 | every exercise type is in the list the refill walks |
| StockRefill.TypesDistinct | app/core/configs/enums.py:9-13 | the list names each type once |
| StockRefill.Shortfall | app/workers/exercise_stock_refill.py:142-145 | a count below 5 is topped up to exactly 5; a count of 5 or more gets nothing |
| StockRefill.Repeat | app/workers/exercise_stock_refill.py:150-159 | `n` copies of the task |
| StockRefill.PlanTypesCounts | app/workers/exercise_stock_refill.py:128-159 | for one language, each listed type gets exactly its shortfall in tasks and nothing else is planned |
| StockRefill.RepeatCount | app/workers/exercise_stock_refill.py:150-159 | the repeated task occurs `n` times and no other task occurs |
| StockRefill.PlanCounts | app/workers/exercise_stock_refill.py:121-159 | each (language, type) pair gets exactly its shortfall in tasks, a missing count counting as zero, and no other language is planned |
| StockRefill.LastNotInPrefix | app/workers/exercise_stock_refill.py:121-122 | in a list without repetitions the last element occurs only last |
| StockRefill.PlanTypesForAllTypes | app/workers/exercise_stock_refill.py:128-159 | over all types, every task of the language is planned as often as its pair falls short |
| StockRefill.RefillTopsUpToMinimum | app/workers/exercise_stock_refill.py:121-159 | for the one target language, the untouched count plus the planned tasks reach the minimum, and a stocked pair gets none |
| StockRefill.PlanRefill | app/workers/exercise_stock_refill.py:114-159 | the nested loops collect exactly the plan |
| StockRefill.PlanLanguage | app/workers/exercise_stock_refill.py:128-159 | the inner loops over the types collect exactly the language's plan |
| StockRefill.PlanStep | app/workers/exercise_stock_refill.py:121-159 | the plan for one more language is the plan so far followed by that language's tasks |
| StockRefill.ChooseAccentOnlyForBulgarian | app/workers/exercise_stock_refill.py:43-55 | an accent task for any language but Bulgarian never succeeds |
| StockRefill.ExerciseStock.constructor | app/workers/exercise_stock_refill.py:66-70 | an empty store |
| StockRefill.ExerciseStock.GenerateAndSaveExercise | app/workers/exercise_stock_refill.py:29-106 | True exactly when the generator gives both parts and the save goes through; a failure stores nothing; a success stores the exercise and, for a truthy id, its correct answer by `scrapper` or `LLM`; every answer keeps an owning exercise |
| StockRefill.ExerciseStock.ExerciseStockRefill | app/workers/exercise_stock_refill.py:109-180 | the count is the number of planned tasks that succeed; the store gains exactly the exercises and correct answers that the planned tasks save, in plan order |
| StockRefill.ExerciseStock.RunTasks | app/workers/exercise_stock_refill.py:161-166 | one result per task, each True exactly when that task succeeds; the store gains exactly what each task saves, in task order, so one exercise per True result |
| StockRefill.NewExercisesPlanned | app/workers/exercise_stock_refill.py:150-176 | every exercise the refill stores is of the type and language of a planned task that succeeded |
| StockRefill.NewAnswersOwned | app/workers/exercise_stock_refill.py:29-106 | every answer the refill stores is marked correct and belongs to the id a succeeding task's exercise was given |
| StockRefill.NewExercisesCount | app/workers/exercise_stock_refill.py:166-176 | the refill stores exactly one exercise per task that returns True |
| StockRefill.CountTrueAppend | app/workers/exercise_stock_refill.py:167-176 | one more result adds one exactly when it is True |
| StockRefill.SucceedingIsCountTrue | app/workers/exercise_stock_refill.py:166-176 | counting the True results counts the tasks that succeed |
| StockRefill.SucceedingFrom | app/workers/exercise_stock_refill.py:166-176 | the count of succeeding tasks splits at the last task |
| StockRefill.CountSuccessful | app/workers/exercise_stock_refill.py:167-176 | the loop counts exactly the True results |

## Left out

- The language model, the translator, the accent scraper, the database, Redis, the task queues and Telegram are not modelled. What they return is a parameter of the operation that calls them.
- Async concurrency is not modelled. The `asyncio.gather` of the refill, the generation semaphore, the per-key `asyncio.Lock` of the validation cache and the interleaving of concurrent cache requests become one sequential run. A cache request is split into a begin step and a completion step, so that joining a running task can be stated.
- The `*_loop` functions and their stop events, sleeps and timeouts are not modelled. The scheduler's `start` runs a finite list of cycles.
- Logging, metrics, Sentry and the prompt text sent to the model are not modelled.
- Localised message texts (`get_text`) are not modelled. Invoice labels and buttons are named by their message keys, and the weekly short report text is an input.
- The accuracy percentages and `_prepare_summary_context` of the detailed report are not modelled, because they are floating point and text formatting. The report text the model writes is an input.
- Redis expiry is not modelled. The TTL is stored with the entry, but no entry expires in the model.
- Task ids and `created_at` timestamps that the repositories assign are not modelled.
- Answer ids that the repository assigns during the stock refill are not modelled. A stored correct answer has no id.
- The order in which a repository query returns rows is taken as storage order. The SQL filters of the profile queries are not modelled: the profiles they return are a parameter.
- `app/core/enums.py` in this tree lacks `ReportStatus`, `CHOOSE_ACCENT` and the other members the workers import from it. The workers' model uses the enumerations of `app/core/configs/enums.py`. QualityAssessor uses the `ExerciseType` of `app/core/enums.py`, which is what `app/llm/assessors/quality_assessor.py` imports.
- The entity files do not declare `feedback_language` on answers or `answer_id` on attempts, although the validator uses both. The model gives the entities those fields.
- `ChooseAccentAnswer` is not in `answer.py`. The accent exercise is modelled with the model's own option list.
- `update_exercise_status_and_data`, which the review worker calls, is not part of this model. Its effect is taken as setting the status and the comments.
- `enqueue_detailed_report_notification` and `enqueue_weekly_report_notification` do not exist in the notification producer. Whether the enqueue succeeds is a parameter.
- The session bookkeeping of `update_session` is not modelled beyond the counters it resets.
- The checks at `attempt_validator.py:150-155` cannot fail in the model, because a saved attempt always has an id.
- The half-window of the long-break reminder check is rounded down to whole seconds, where Python divides as a float.
- The word filter of the accent generator takes the words as already decomposed (NFD) and lower-cased. Unicode normalisation and case folding are not modelled.
- An exception raised inside a loop body is a flag of that item. Examples are a failed report save in the weekly cycle and a failed profile in the reminder scan. A failed profile update after a weekly report was created counts as a failed save.
- Answers.FromDict: rejects a list payload with an element that is not a string (or not an integer for the index kind), where the Python constructors would accept it unchecked.
- UserReports.FormatTagsForSummary: the proofs state that the tags named are the most frequent. They do not state that the sort is stable among equal counts, although it is by construction.
- ValidationCaches.ValidationCache.GetOrCreateValidation: the lock of a key is a member of a set. The mutual exclusion the lock gives is not stated.
- AsyncTaskCaches.AsyncTaskCache.GetOrCreateTask: an error raised by Redis other than a connection error is treated like an unreachable Redis, as the code's catch-all does. Which errors reach that branch is a parameter.
- The profile repository in this tree has no `get_active_profiles_for_reporting`, `update`, `get_unfrozen_for_reminder` or `get_with_long_break_for_reminder`, and `app/config.py` lacks several settings the services read (`min_session_unlock_payment_xtr`, `report_donation_amount_xtr`). The files come from different versions. The model assumes those methods exist and behave as their names say; their results are parameters.
- Payments.GetUnlockPaymentDetails: builds the payload with the timestamp in a field of its own (the corrected payload of Findings row 1). As written, `payment.py:120-125` builds `-1_time_<ts>` as the last field, which never parses (Payments.AsWrittenPayloadRejected).
- Payments.GetReportDonationDetails: builds the corrected payload too. As written, `payment.py:155-160` builds `<report_id>_time_<ts>`, which never parses, so the promise that the payload names the report holds only for the corrected payload.
- Payments.GetInvoiceDetailsForSource: inherits the corrected payloads of the two above. Its promise that a produced payload parses back to its source holds only for the corrected payload.
- Reports.ReportWorker.GenerateDetailedReport: the worker runs the corrected generation of Findings rows 4 and 5. It takes up a FAILED report as well as a PENDING one, where `reports.py:37-44` returns False for every status but PENDING. A missing profile marks the report FAILED, where `reports.py:64-68` returns False and leaves it GENERATING. The as-written behaviour is Reports.AcceptsAsWritten with Reports.GenerateAsWritten, stated by Reports.AsWrittenMissingProfileStaysGenerating and UserReports.AsWrittenFailedReportNeverRetried.
- Reports.ReportWorker.GenerateAndSendDetailedReport: inherits the corrected generation of GenerateDetailedReport, so a FAILED report with a model text is generated and its delivery enqueued, where the code skips it.
- ReviewProcessor.Upper: upper-cases ASCII letters only, where Python's `str.upper()` is full Unicode (`ß` becomes `SS`, Cyrillic letters change). The test for a suggested action in the assessor's analysis is therefore ASCII-only.

## Findings

| source | as written | input that shows it | evidently intended | confidence | as-written member | corrected member |
|---|---|---|---|---|---|---|
| app/core/services/payment.py:54-61,83 | the payload ends with `:<item>_time_<ts>`, so the parser's `int()` of the fifth field fails on every payload the service builds | session unlock for user 1 on the Bulgarian bot at time 1700000000: item field `-1_time_1700000000` | the timestamp in a field of its own, so that the item id parses back | high, not executed | Payments.AsWrittenPayloadRejected | Payments.InvoicePayloadRoundTrip |
| app/workers/notification_scheduler.py:224-229,265; app/config.py:90-94 | reads `settings.long_break_reminder_time_window_seconds`, which the settings class does not declare (it ignores unknown keys), so the cycle raises before any long-break reminder | any cycle with the shipped settings and a learner whose last exercise was two days ago and who got no reminder yet | the window declared in the settings | medium, not executed; this config.py may be older than the scheduler, whose repository methods it calls are missing here too | NotificationScheduler.ShippedSettingsNeverSendLongBreaks | NotificationScheduler.ConfiguredCycleSendsDueLongBreaks |
| app/workers/arq_tasks/reports.py:294-298 | reads `report_notification_batch_size` and `report_notification_batch_delay_seconds`, which the settings do not declare; the cycle raises after the reports were committed | a weekly cycle with one learner with 15 attempts and a user row | both settings declared, every saved report notified once | medium, not executed; this config.py may be older than the worker, whose repository methods it calls are missing here too | Reports.ShippedSettingsNotifyNobody | Reports.ConfiguredCycleNotifiesEachReportOnce |
| app/workers/arq_tasks/reports.py:64-68 | a missing profile returns False after the report was set to GENERATING, and a later request answers GENERATING without enqueuing anything | a PENDING report for the Bulgarian bot whose profile lookup returns nothing | the report marked FAILED like every other failure | medium, not executed | UserReports.AsWrittenStuckReportNeverRequeued | UserReports.RequestedReportIsProcessed |
| app/workers/arq_tasks/reports.py:37-44 with app/core/services/user_report.py:77-86 | a FAILED report is enqueued and answered GENERATING, but the job accepts only PENDING reports, so it stays FAILED | a request whose latest report is FAILED | the job retries a FAILED report | medium, not executed | UserReports.AsWrittenFailedReportNeverRetried | UserReports.RequestedReportIsProcessed |
