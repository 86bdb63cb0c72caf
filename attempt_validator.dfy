/**
 * Validation of a learner's attempt: the stored judgement chosen for the answer, the attempt
 * saved straight from it, or a pre-saved attempt completed from a translated copy or a new
 * judgement by the language model. The two repositories are fields of the validator (the
 * stored answers in the order the query returns them, the attempts by id); the model's
 * verdict, the translator and what the task cache holds for a key are parameters.
 */
module AttemptValidation {
  import opened Wrappers
  import opened Strings
  import opened Answers

  /** A stored judgement of one answer to one exercise. */
  datatype ExerciseAnswer = ExerciseAnswer(
    answerId: Option<int>,
    exerciseId: int,
    answer: Answer,
    isCorrect: bool,
    feedback: string,
    feedbackLanguage: string,
    createdBy: string)

  /** A learner's attempt; the result fields are empty while the judgement is pending. */
  datatype ExerciseAttempt = ExerciseAttempt(
    attemptId: Option<int>,
    userId: int,
    exerciseId: int,
    answer: Answer,
    isCorrect: Option<bool>,
    feedback: Option<string>,
    answerId: Option<int>)

  /** The learner as the validator sees them. */
  datatype Learner = Learner(userId: int, userLanguage: string, targetLanguage: string)

  /** What the language model returns for an answer. */
  datatype Verdict = Verdict(isCorrect: bool, feedback: string)

  /** The ValueErrors the validator raises. */
  datatype ValidationError = MissingExerciseId | MissingAnswerId

  /** The outside world of one validation: the model's verdict, the translator, and what the
      task cache returns without running the task for the validation key and for the
      translation key (None: the task runs). */
  datatype Externals = Externals(
    verdict: Verdict,
    translate: (string, string) -> string,
    cachedValidation: Option<ExerciseAnswer>,
    cachedTranslation: Option<ExerciseAnswer>)

  /** The three tests `_get_answer_from_db` searches by. */
  datatype Criterion = Correct | InLanguage | OtherLanguage

  predicate Holds(a: ExerciseAnswer, language: string, c: Criterion)
  {
    match c
    case Correct => a.isCorrect
    case InLanguage => a.feedbackLanguage == language
    case OtherLanguage => a.feedbackLanguage != language
  }

  /** `next((a for a in xs if test(a)), None)`. */
  function First(xs: seq<ExerciseAnswer>, language: string, c: Criterion): (r: Option<ExerciseAnswer>)
    ensures r.None? <==> forall i :: 0 <= i < |xs| ==> !Holds(xs[i], language, c)
    ensures r.Some? ==> exists i :: 0 <= i < |xs| && xs[i] == r.value && Holds(r.value, language, c)
                                    && forall j :: 0 <= j < i ==> !Holds(xs[j], language, c)
  {
    if |xs| == 0 then None
    else if Holds(xs[0], language, c) then Some(xs[0])
    else
      var r := First(xs[1..], language, c);
      assert forall k :: 1 <= k < |xs| ==> xs[k] == xs[1..][k - 1];
      if r.Some? then
        var i :| 0 <= i < |xs[1..]| && xs[1..][i] == r.value && Holds(r.value, language, c)
                 && forall j :: 0 <= j < i ==> !Holds(xs[1..][j], language, c);
        assert xs[i + 1] == r.value;
        r
      else r
  }

  /** `_get_answer_from_db`'s choice: the first correct judgement, else the first in the
      learner's language, else the first in another language, else none. */
  function ChooseStoredAnswer(xs: seq<ExerciseAnswer>, language: string): Option<ExerciseAnswer>
  {
    var correct := First(xs, language, Correct);
    var sameLanguage := First(xs, language, InLanguage);
    var otherLanguage := First(xs, language, OtherLanguage);
    if correct.Some? then correct
    else if sameLanguage.Some? then sameLanguage
    else otherLanguage
  }

  /** The priority of the choice: there is a choice exactly when some judgement is stored;
      the chosen one is stored; a correct choice is the first correct one and an incorrect
      one means none is correct; and it is neither correct nor in the learner's language
      only when no judgement is either. */
  lemma ChoicePriority(xs: seq<ExerciseAnswer>, language: string)
    ensures var c := ChooseStoredAnswer(xs, language);
      && (c.None? <==> |xs| == 0)
      && (c.Some? ==> c.value in xs)
      && (c.Some? && !c.value.isCorrect ==> forall a :: a in xs ==> !a.isCorrect)
      && (c.Some? && c.value.isCorrect ==> exists i :: 0 <= i < |xs| && xs[i] == c.value && forall j :: 0 <= j < i ==> !xs[j].isCorrect)
      && (c.Some? && !c.value.isCorrect && c.value.feedbackLanguage != language ==>
            forall a :: a in xs ==> !a.isCorrect && a.feedbackLanguage != language)
  {
    if |xs| > 0 {
      assert Holds(xs[0], language, InLanguage) || Holds(xs[0], language, OtherLanguage);
    }
  }

  /** The stored judgements of this answer to this exercise, in stored order. */
  function Matching(stored: seq<ExerciseAnswer>, exerciseId: int, answer: Answer): (r: seq<ExerciseAnswer>)
    ensures forall a :: a in r <==> a in stored && a.exerciseId == exerciseId && a.answer == answer
  {
    if |stored| == 0 then []
    else
      var rest := Matching(stored[..|stored| - 1], exerciseId, answer);
      var last := stored[|stored| - 1];
      assert stored == stored[..|stored| - 1] + [last];
      if last.exerciseId == exerciseId && last.answer == answer then rest + [last] else rest
  }

  /** A judgement that can be used as it is: correct, or worded in the learner's language. */
  predicate Usable(a: ExerciseAnswer, language: string)
  {
    a.isCorrect || a.feedbackLanguage == language
  }

  /** `str(answer_id)`. */
  function IdText(id: Option<int>): string
  {
    match id
    case None => "None"
    case Some(i) => IntToString(i)
  }

  const TranslatedPrefix: string := "translated_answer:"
  const LlmPrefix: string := "LLM:user:"

  /** The copy `copy_answer_translate_feedback` saves: the same judgement with the feedback
      translated into `target`, no id yet, and the original's id in `created_by`. */
  function TranslatedCopy(a: ExerciseAnswer, target: string, translate: (string, string) -> string): (c: ExerciseAnswer)
    ensures c.answerId.None? && c.feedbackLanguage == target
    ensures c.exerciseId == a.exerciseId && c.answer == a.answer && c.isCorrect == a.isCorrect
    ensures c.feedback == translate(a.feedback, target)
    ensures c.createdBy == TranslatedPrefix + IdText(a.answerId)
  {
    a.(answerId := None, feedback := translate(a.feedback, target), feedbackLanguage := target,
       createdBy := TranslatedPrefix + IdText(a.answerId))
  }

  /** The judgement `llm_validate_and_save_new_answer` saves: the model's verdict, worded in
      the learner's language, made by the model for this learner. */
  function LlmAnswer(user: Learner, exerciseId: int, answer: Answer, v: Verdict): (a: ExerciseAnswer)
    ensures a.answerId.None? && a.exerciseId == exerciseId && a.answer == answer
    ensures a.isCorrect == v.isCorrect && a.feedback == v.feedback
    ensures a.feedbackLanguage == user.userLanguage
    ensures a.createdBy == LlmPrefix + IntToString(user.userId)
  {
    ExerciseAnswer(None, exerciseId, answer, v.isCorrect, v.feedback, user.userLanguage, LlmPrefix + IntToString(user.userId))
  }

  /** The two kinds of judgement the validator makes are told apart by `created_by`. */
  lemma MadeByTellsApart(a: ExerciseAnswer, target: string, translate: (string, string) -> string,
                         user: Learner, exerciseId: int, answer: Answer, v: Verdict)
    ensures TranslatedCopy(a, target, translate) != LlmAnswer(user, exerciseId, answer, v)
    ensures StartsWith(LlmAnswer(user, exerciseId, answer, v).createdBy, LlmPrefix)
    ensures !StartsWith(TranslatedCopy(a, target, translate).createdBy, LlmPrefix)
  {
    assert TranslatedCopy(a, target, translate).createdBy[0] != LlmAnswer(user, exerciseId, answer, v).createdBy[0];
  }

  /** The attempt saved from a usable stored judgement. */
  function AttemptFrom(user: Learner, exerciseId: int, answer: Answer, a: ExerciseAnswer): ExerciseAttempt
  {
    ExerciseAttempt(None, user.userId, exerciseId, answer, Some(a.isCorrect), Some(a.feedback), a.answerId)
  }

  /** The attempt saved before a judgement exists. */
  function PreAttempt(user: Learner, exerciseId: int, answer: Answer): (t: ExerciseAttempt)
    ensures t.attemptId.None? && t.isCorrect.None? && t.feedback.None? && t.answerId.None?
    ensures t.userId == user.userId && t.exerciseId == exerciseId && t.answer == answer
  {
    ExerciseAttempt(None, user.userId, exerciseId, answer, None, None, None)
  }

  /** The judgement stored under `id` when nothing is cached: the stored judgement that was
      not usable, translated into the learner's language, or else the model's new one. */
  function FreshJudgement(db: Option<ExerciseAnswer>, user: Learner, exerciseId: int, answer: Answer,
                          ext: Externals, id: int): (j: ExerciseAnswer)
    ensures j.answerId == Some(id) && j.feedbackLanguage == user.userLanguage
    ensures db.Some? ==> j.isCorrect == db.value.isCorrect && j.feedback == ext.translate(db.value.feedback, user.userLanguage)
    ensures db.None? ==> j.isCorrect == ext.verdict.isCorrect && j.feedback == ext.verdict.feedback
  {
    if db.Some? then TranslatedCopy(db.value, user.userLanguage, ext.translate).(answerId := Some(id))
    else LlmAnswer(user, exerciseId, answer, ext.verdict).(answerId := Some(id))
  }

  /** Every stored judgement and attempt carries the id it was saved under. */
  predicate StoredWithIds(answers: seq<ExerciseAnswer>, nextAnswerId: int, attempts: map<int, ExerciseAttempt>, nextAttemptId: int)
  {
    && (forall a :: a in answers ==> a.answerId.Some? && a.answerId.value < nextAnswerId)
    && (forall k :: k in attempts ==> k < nextAttemptId && attempts[k].attemptId == Some(k))
  }

  /** `AttemptValidator` with the two repositories it writes to. */
  class AttemptValidator {
    var answers: seq<ExerciseAnswer>
    var nextAnswerId: int
    var attempts: map<int, ExerciseAttempt>
    var nextAttemptId: int

    ghost predicate Valid()
      reads this
    {
      StoredWithIds(answers, nextAnswerId, attempts, nextAttemptId)
    }

    constructor()
      ensures Valid() && answers == [] && attempts == map[]
    {
      answers := [];
      nextAnswerId := 1;
      attempts := map[];
      nextAttemptId := 1;
    }

    /** The answer repository's `save`: the judgement gets the next id and is stored last. */
    method SaveAnswer(a: ExerciseAnswer) returns (saved: ExerciseAnswer)
      requires Valid()
      modifies this
      ensures Valid()
      ensures saved == a.(answerId := Some(old(nextAnswerId)))
      ensures answers == old(answers) + [saved] && nextAnswerId == old(nextAnswerId) + 1
      ensures attempts == old(attempts) && nextAttemptId == old(nextAttemptId)
    {
      saved := a.(answerId := Some(nextAnswerId));
      answers := answers + [saved];
      nextAnswerId := nextAnswerId + 1;
    }

    /** The attempt repository's `save`. */
    method SaveAttempt(t: ExerciseAttempt) returns (saved: ExerciseAttempt)
      requires Valid()
      modifies this
      ensures Valid()
      ensures saved == t.(attemptId := Some(old(nextAttemptId)))
      ensures attempts == old(attempts)[old(nextAttemptId) := saved] && nextAttemptId == old(nextAttemptId) + 1
      ensures answers == old(answers) && nextAnswerId == old(nextAnswerId)
    {
      saved := t.(attemptId := Some(nextAttemptId));
      attempts := attempts[nextAttemptId := saved];
      nextAttemptId := nextAttemptId + 1;
    }

    /** `copy_answer_translate_feedback`: the cached translation if there is one, otherwise
        a translated copy saved now; an answer without an id is refused. */
    method CopyAnswerTranslateFeedback(a: ExerciseAnswer, target: string, ext: Externals)
      returns (r: Result<ExerciseAnswer, ValidationError>)
      requires Valid()
      modifies this
      ensures Valid()
      ensures attempts == old(attempts) && nextAttemptId == old(nextAttemptId)
      ensures ext.cachedTranslation.Some? ==> answers == old(answers) && nextAnswerId == old(nextAnswerId)
      ensures ext.cachedTranslation.Some? ==>
        r == if ext.cachedTranslation.value.answerId.None? then Err(MissingAnswerId) else Ok(ext.cachedTranslation.value)
      ensures ext.cachedTranslation.None? ==>
        && r == Ok(TranslatedCopy(a, target, ext.translate).(answerId := Some(old(nextAnswerId))))
        && answers == old(answers) + [r.value] && nextAnswerId == old(nextAnswerId) + 1
    {
      var translated: ExerciseAnswer;
      if ext.cachedTranslation.Some? {
        translated := ext.cachedTranslation.value;
      } else {
        translated := SaveAnswer(TranslatedCopy(a, target, ext.translate));
      }
      if translated.answerId.None? {
        return Err(MissingAnswerId);
      }
      r := Ok(translated);
    }

    /** `llm_validate_and_save_new_answer`: the cached judgement if there is one, otherwise
        the model's verdict saved now; an answer without an id is refused. */
    method LlmValidateAndSaveNewAnswer(user: Learner, exerciseId: int, answer: Answer, ext: Externals)
      returns (r: Result<ExerciseAnswer, ValidationError>)
      requires Valid()
      modifies this
      ensures Valid()
      ensures attempts == old(attempts) && nextAttemptId == old(nextAttemptId)
      ensures ext.cachedValidation.Some? ==> answers == old(answers) && nextAnswerId == old(nextAnswerId)
      ensures ext.cachedValidation.Some? ==>
        r == if ext.cachedValidation.value.answerId.None? then Err(MissingAnswerId) else Ok(ext.cachedValidation.value)
      ensures ext.cachedValidation.None? ==>
        && r == Ok(LlmAnswer(user, exerciseId, answer, ext.verdict).(answerId := Some(old(nextAnswerId))))
        && answers == old(answers) + [r.value] && nextAnswerId == old(nextAnswerId) + 1
    {
      var validated: ExerciseAnswer;
      if ext.cachedValidation.Some? {
        validated := ext.cachedValidation.value;
      } else {
        validated := SaveAnswer(LlmAnswer(user, exerciseId, answer, ext.verdict));
      }
      if validated.answerId.None? {
        return Err(MissingAnswerId);
      }
      r := Ok(validated);
    }

    /** The judgement that completes a pre-saved attempt: a translated copy of the stored
        judgement, or a new one from the model, translated when it is not in the learner's
        language. */
    method NewJudgement(user: Learner, exerciseId: int, answer: Answer, db: Option<ExerciseAnswer>, ext: Externals)
      returns (r: Result<ExerciseAnswer, ValidationError>)
      requires Valid()
      requires db.Some? ==> db.value.feedbackLanguage != user.userLanguage
      modifies this
      ensures Valid()
      ensures attempts == old(attempts) && nextAttemptId == old(nextAttemptId)
      ensures r.Err? ==> r.error == MissingAnswerId
      ensures r.Ok? ==> r.value.answerId.Some?
      ensures ext.cachedValidation.None? && ext.cachedTranslation.None? ==>
        && r.Ok?
        && answers == old(answers) + [r.value]
        && r.value.feedbackLanguage == user.userLanguage
        && (db.Some? ==> r.value == TranslatedCopy(db.value, user.userLanguage, ext.translate).(answerId := r.value.answerId))
        && (db.None? ==> r.value == LlmAnswer(user, exerciseId, answer, ext.verdict).(answerId := r.value.answerId))
        && r.value == FreshJudgement(db, user, exerciseId, answer, ext, old(nextAnswerId))
    {
      if db.Some? {
        r := CopyAnswerTranslateFeedback(db.value, user.userLanguage, ext);
      } else {
        r := LlmValidateAndSaveNewAnswer(user, exerciseId, answer, ext);
        if r.Ok? && r.value.feedbackLanguage != user.userLanguage {
          r := CopyAnswerTranslateFeedback(r.value, user.userLanguage, ext);
        }
      }
    }

    /** `attempt_repository.update`: fills the result fields of a saved attempt. */
    method UpdateAttempt(id: int, isCorrect: bool, feedback: string, answerId: int) returns (updated: ExerciseAttempt)
      requires Valid() && id in attempts
      modifies this
      ensures Valid()
      ensures updated == old(attempts)[id].(isCorrect := Some(isCorrect), feedback := Some(feedback), answerId := Some(answerId))
      ensures attempts == old(attempts)[id := updated] && nextAttemptId == old(nextAttemptId)
      ensures answers == old(answers) && nextAnswerId == old(nextAnswerId)
    {
      updated := attempts[id].(isCorrect := Some(isCorrect), feedback := Some(feedback), answerId := Some(answerId));
      attempts := attempts[id := updated];
    }

    /** `_handle_exercise_attempt`: without an exercise id nothing is done; a usable stored
        judgement is copied into one saved attempt; otherwise an empty attempt is saved first
        and then completed from a new judgement. */
    method HandleExerciseAttempt(user: Learner, exerciseId: Option<int>, answer: Answer, ext: Externals)
      returns (r: Result<ExerciseAttempt, ValidationError>)
      requires Valid()
      modifies this
      ensures Valid()
      ensures exerciseId.None? ==> r == Err(MissingExerciseId) && answers == old(answers) && attempts == old(attempts)
      ensures exerciseId.Some? ==>
        var db := ChooseStoredAnswer(Matching(old(answers), exerciseId.value, answer), user.userLanguage);
        && (db.Some? && Usable(db.value, user.userLanguage) ==>
              && r == Ok(AttemptFrom(user, exerciseId.value, answer, db.value).(attemptId := Some(old(nextAttemptId))))
              && attempts == old(attempts)[old(nextAttemptId) := r.value]
              && answers == old(answers))
        && (!(db.Some? && Usable(db.value, user.userLanguage)) ==>
              && old(nextAttemptId) in attempts
              && attempts[old(nextAttemptId)].userId == user.userId
              && (r.Err? ==> r.error == MissingAnswerId && attempts[old(nextAttemptId)] == PreAttempt(user, exerciseId.value, answer).(attemptId := Some(old(nextAttemptId))))
              && (r.Ok? ==> r.value == attempts[old(nextAttemptId)] && r.value.isCorrect.Some? && r.value.answerId.Some?))
      ensures exerciseId.Some? && ext.cachedValidation.None? && ext.cachedTranslation.None? ==>
        && r.Ok?
        && exists a :: a in answers && a.answerId == r.value.answerId && Usable(a, user.userLanguage)
                       && r.value.isCorrect == Some(a.isCorrect) && r.value.feedback == Some(a.feedback)
      ensures exerciseId.Some? && ext.cachedValidation.None? && ext.cachedTranslation.None? ==>
        var db := ChooseStoredAnswer(Matching(old(answers), exerciseId.value, answer), user.userLanguage);
        var j := FreshJudgement(db, user, exerciseId.value, answer, ext, old(nextAnswerId));
        !(db.Some? && Usable(db.value, user.userLanguage)) ==>
          && answers == old(answers) + [j]
          && r == Ok(AttemptFrom(user, exerciseId.value, answer, j).(attemptId := Some(old(nextAttemptId))))
          && attempts == old(attempts)[old(nextAttemptId) := r.value]
    {
      if exerciseId.None? {
        return Err(MissingExerciseId);
      }
      var id := exerciseId.value;
      var db := ChooseStoredAnswer(Matching(answers, id, answer), user.userLanguage);
      ChoicePriority(Matching(answers, id, answer), user.userLanguage);
      if db.Some? && Usable(db.value, user.userLanguage) {
        var saved := SaveAttempt(AttemptFrom(user, id, answer, db.value));
        assert db.value in old(answers);
        return Ok(saved);
      }
      r := JudgeNewAttempt(user, id, answer, db, ext);
    }

    /** The second path of `_handle_exercise_attempt`: an empty attempt is saved first, then
        completed from a new judgement; without an answer id it stays empty. */
    method JudgeNewAttempt(user: Learner, exerciseId: int, answer: Answer, db: Option<ExerciseAnswer>, ext: Externals)
      returns (r: Result<ExerciseAttempt, ValidationError>)
      requires Valid()
      requires !(db.Some? && Usable(db.value, user.userLanguage))
      modifies this
      ensures Valid()
      ensures old(nextAttemptId) in attempts
      ensures attempts[old(nextAttemptId)].userId == user.userId
      ensures r.Err? ==> r.error == MissingAnswerId && attempts[old(nextAttemptId)] == PreAttempt(user, exerciseId, answer).(attemptId := Some(old(nextAttemptId)))
      ensures r.Ok? ==> r.value == attempts[old(nextAttemptId)] && r.value.isCorrect.Some? && r.value.answerId.Some?
      ensures ext.cachedValidation.None? && ext.cachedTranslation.None? ==>
        var j := FreshJudgement(db, user, exerciseId, answer, ext, old(nextAnswerId));
        && answers == old(answers) + [j]
        && r == Ok(AttemptFrom(user, exerciseId, answer, j).(attemptId := Some(old(nextAttemptId))))
        && attempts == old(attempts)[old(nextAttemptId) := r.value]
    {
      var pre := SaveAttempt(PreAttempt(user, exerciseId, answer));
      var attemptId := pre.attemptId.value;
      var judged := NewJudgement(user, exerciseId, answer, db, ext);
      if judged.Err? {
        return Err(judged.error);
      }
      var a := judged.value;
      var updated := UpdateAttempt(attemptId, a.isCorrect, a.feedback, a.answerId.value);
      r := Ok(updated);
    }

    /** `validate_exercise_attempt`: the attempt cached for this learner, exercise and answer
        if there is one, otherwise the attempt handled now. */
    method ValidateExerciseAttempt(user: Learner, exerciseId: Option<int>, answer: Answer,
                                   cachedAttempt: Option<ExerciseAttempt>, ext: Externals)
      returns (r: Result<ExerciseAttempt, ValidationError>)
      requires Valid()
      modifies this
      ensures Valid()
      ensures cachedAttempt.Some? ==> r == Ok(cachedAttempt.value) && answers == old(answers) && attempts == old(attempts)
      ensures cachedAttempt.None? ==> (r == Err(MissingExerciseId) <==> exerciseId.None?)
      ensures cachedAttempt.None? && exerciseId.Some? && ext.cachedValidation.None? && ext.cachedTranslation.None? ==> r.Ok?
      ensures cachedAttempt.None? && exerciseId.Some? ==>
        var db := ChooseStoredAnswer(Matching(old(answers), exerciseId.value, answer), user.userLanguage);
        && (db.Some? && Usable(db.value, user.userLanguage) ==>
              && r == Ok(AttemptFrom(user, exerciseId.value, answer, db.value).(attemptId := Some(old(nextAttemptId))))
              && attempts == old(attempts)[old(nextAttemptId) := r.value]
              && answers == old(answers))
        && (!(db.Some? && Usable(db.value, user.userLanguage)) ==>
              && old(nextAttemptId) in attempts
              && attempts[old(nextAttemptId)].userId == user.userId
              && (r.Err? ==> r.error == MissingAnswerId && attempts[old(nextAttemptId)] == PreAttempt(user, exerciseId.value, answer).(attemptId := Some(old(nextAttemptId))))
              && (r.Ok? ==> r.value == attempts[old(nextAttemptId)] && r.value.isCorrect.Some? && r.value.answerId.Some?))
      ensures cachedAttempt.None? && exerciseId.Some? && ext.cachedValidation.None? && ext.cachedTranslation.None? ==>
        var db := ChooseStoredAnswer(Matching(old(answers), exerciseId.value, answer), user.userLanguage);
        var j := FreshJudgement(db, user, exerciseId.value, answer, ext, old(nextAnswerId));
        !(db.Some? && Usable(db.value, user.userLanguage)) ==>
          && answers == old(answers) + [j]
          && r == Ok(AttemptFrom(user, exerciseId.value, answer, j).(attemptId := Some(old(nextAttemptId))))
          && attempts == old(attempts)[old(nextAttemptId) := r.value]
    {
      if cachedAttempt.Some? {
        return Ok(cachedAttempt.value);
      }
      r := HandleExerciseAttempt(user, exerciseId, answer, ext);
    }
  }
}
