/**
 * The assessor consulted for exercises that many learners fail: the dedicated verdict for
 * choose-accent exercises and the answer summaries handed to the general assessment.
 * The language model itself is a parameter: its reply, or the failure it raised.
 */
module PendingReview {
  import opened Wrappers
  import opened Strings
  import Answers
  import Enums

  /** The assessor's verdict on an exercise. */
  datatype Analysis = Analysis(
    flawed: bool,
    complexButCorrect: bool,
    reason: string,
    action: string,
    revision: Option<string>)

  /** The model's reply about the word of a choose-accent exercise. */
  datatype WordAnalysis = WordAnalysis(word: string, commonAndKnown: bool, reasoning: string, confidence: string)

  /** An answer given by learners, how many gave it, and the feedback already stored for it. */
  datatype AnswerSummary = AnswerSummary(answer: Answers.Answer, count: int, existingFeedback: Option<string>)

  /** Why an assessment raised instead of returning a verdict. */
  datatype AssessError = InvalidChooseAccentData | AnswerTextFailed | LlmFailed(message: string)

  /** The two ways rendering an answer inside its exercise text can fail. */
  datatype TextError = NotImplemented | AnswerMismatch

  /** Python's truthiness of an optional string: present and non-empty. */
  predicate Truthy(s: Option<string>)
  {
    s.Some? && |s.value| > 0
  }

  /** Python's `str(b)` for a boolean. */
  function BoolText(b: bool): string
  {
    if b then "True" else "False"
  }

  // ---------------------------------------------------------------------------------------
  // Choose-accent exercises

  /** The word to assess: the first option of the exercise without backticks and
      apostrophes. Data that is not a choose-accent payload (None), has no options, or whose
      first option is empty is rejected. */
  function WordToAssess(options: Option<seq<string>>): (r: Result<string, AssessError>)
    ensures r.Ok? <==> options.Some? && |options.value| > 0 && |options.value[0]| > 0
    ensures r.Err? ==> r.error == InvalidChooseAccentData
    ensures r.Ok? ==> '`' !in r.value && '\'' !in r.value
    ensures r.Ok? ==> forall c :: c != '`' && c != '\'' ==> (c in r.value <==> c in options.value[0])
    ensures r.Ok? && '`' !in options.value[0] && '\'' !in options.value[0] ==> r.value == options.value[0]
  {
    if options.Some? && |options.value| > 0 && |options.value[0]| > 0 then
      Ok(RemoveChar(RemoveChar(options.value[0], '`'), '\''))
    else Err(InvalidChooseAccentData)
  }

  /** The verdict for a choose-accent word from the model's reply, or from the failure of the
      call (`outcome` is Err with the failure's message). */
  function ChooseAccentVerdict(word: string, level: string, outcome: Result<WordAnalysis, string>): (a: Analysis)
    ensures !a.complexButCorrect
    ensures outcome.Err? ==> a.flawed && a.action == "ARCHIVE" && a.revision.None?
    ensures outcome.Ok? && outcome.value.commonAndKnown && outcome.value.confidence == "HIGH" ==>
      !a.flawed && a.action == "PUBLISH_OK" && a.revision.None?
    ensures outcome.Ok? && outcome.value.commonAndKnown && outcome.value.confidence != "HIGH" ==>
      !a.flawed && a.action == "PENDING_ADMIN_REVIEW" && Truthy(a.revision)
    ensures outcome.Ok? && !outcome.value.commonAndKnown ==> a.flawed && a.action == "ARCHIVE" && a.revision.None?
  {
    match outcome
    case Err(e) =>
      Analysis(true, false,
               "LLM assessment failed for CHOOSE_ACCENT word: " + word + ". Error: " + e,
               "ARCHIVE", None)
    case Ok(w) =>
      if w.commonAndKnown then
        if w.confidence == "HIGH" then
          Analysis(false, false,
                   "Word '" + w.word + "' is common. User errors likely due to accent difficulty.",
                   "PUBLISH_OK", None)
        else
          Analysis(false, false,
                   "Word '" + w.word + "' might be common, but confidence is " + w.confidence
                     + ". Reasoning: " + w.reasoning,
                   "PENDING_ADMIN_REVIEW",
                   Some("Verify commonness of word: '" + w.word + "' for level " + level
                          + ". LLM confidence: " + w.confidence + "."))
      else
        Analysis(true, false,
                 "Word '" + w.word + "' assessed as not common/known enough for level " + level
                   + ". Reasoning: " + w.reasoning,
                 "ARCHIVE", None)
  }

  /** The dedicated assessment of a choose-accent exercise: invalid data raises before the
      model is consulted. */
  function AssessChooseAccent(options: Option<seq<string>>, level: string, outcome: Result<WordAnalysis, string>)
    : (r: Result<Analysis, AssessError>)
    ensures WordToAssess(options).Err? <==> r.Err?
    ensures r.Err? ==> r.error == InvalidChooseAccentData
    ensures r.Ok? ==> r.value == ChooseAccentVerdict(WordToAssess(options).value, level, outcome)
  {
    var word := WordToAssess(options);
    if word.Err? then Err(word.error) else Ok(ChooseAccentVerdict(word.value, level, outcome))
  }

  // ---------------------------------------------------------------------------------------
  // Answer summaries for the general assessment

  const NoCorrectAnswersText: string := "No designated correct answers provided " + "or no users chose them."
  const NoIncorrectAnswersText: string := "No incorrect user answers " + "provided for analysis."

  /** One line for a correct answer: the answer shown inside the exercise text, or its own
      text when that rendering fails for either reason. */
  function CorrectDetail(s: AnswerSummary, context: Answers.Answer -> Result<string, TextError>): (d: string)
    ensures |d| > 0 && d[0] == '-'
  {
    var shown := match context(s.answer)
      case Ok(t) => t
      case Err(_) => Answers.GetAnswerText(s.answer);
    "- '" + shown + "' (chosen by " + IntToString(s.count) + " users)"
  }

  function CorrectDetails(ss: seq<AnswerSummary>, context: Answers.Answer -> Result<string, TextError>)
    : (ds: seq<string>)
    ensures |ds| == |ss|
    ensures forall k :: 0 <= k < |ds| ==> ds[k] == CorrectDetail(ss[k], context)
  {
    if |ss| == 0 then [] else [CorrectDetail(ss[0], context)] + CorrectDetails(ss[1..], context)
  }

  /** The first character of a join is the first character of its first piece. */
  lemma JoinFirstChar(xs: seq<string>, sep: string)
    requires |xs| > 0 && |xs[0]| > 0
    ensures |Join(xs, sep)| > 0 && Join(xs, sep)[0] == xs[0][0]
  {
    if |xs| > 1 {
      assert Join(xs, sep) == xs[0] + sep + Join(xs[1..], sep);
    }
  }

  /** The correct answers, one per line, or a fixed sentence when there are none. */
  function CorrectAnswersText(ss: seq<AnswerSummary>, context: Answers.Answer -> Result<string, TextError>): string
  {
    var text := Join(CorrectDetails(ss, context), "\n");
    if text == "" then NoCorrectAnswersText else text
  }

  /** The fixed sentence appears exactly when there is no correct answer to list. */
  lemma CorrectAnswersFallback(ss: seq<AnswerSummary>, context: Answers.Answer -> Result<string, TextError>)
    ensures CorrectAnswersText(ss, context) == NoCorrectAnswersText <==> |ss| == 0
  {
    var ds := CorrectDetails(ss, context);
    if |ss| > 0 {
      JoinFirstChar(ds, "\n");
      assert Join(ds, "\n")[0] == '-';
      assert NoCorrectAnswersText[0] == 'N';
    }
  }

  /** One entry for an incorrect answer, with its stored feedback on a second line when there
      is any; the rendering inside the exercise text must succeed. */
  function IncorrectDetail(s: AnswerSummary, shown: string): (d: string)
    ensures |d| > 0 && d[0] == '-'
  {
    "- '" + shown + "' (given by " + IntToString(s.count) + " users)"
      + (if Truthy(s.existingFeedback) then "\n  Existing Feedback: \"" + s.existingFeedback.value + "\"" else "")
  }

  /** The entries of the incorrect answers, or the failure of the first answer that cannot be
      rendered. */
  function IncorrectDetails(ss: seq<AnswerSummary>, context: Answers.Answer -> Result<string, TextError>)
    : (r: Result<seq<string>, TextError>)
    ensures r.Ok? <==> forall k :: 0 <= k < |ss| ==> context(ss[k].answer).Ok?
    ensures r.Ok? ==> |r.value| == |ss|
    ensures r.Ok? ==> forall k :: 0 <= k < |ss| ==> r.value[k] == IncorrectDetail(ss[k], context(ss[k].answer).value)
  {
    if |ss| == 0 then Ok([])
    else
      match context(ss[0].answer)
      case Err(e) => Err(e)
      case Ok(shown) =>
        var rest := IncorrectDetails(ss[1..], context);
        if rest.Err? then rest
        else
          assert forall k :: 1 <= k < |ss| ==> ss[k] == ss[1..][k - 1];
          Ok([IncorrectDetail(ss[0], shown)] + rest.value)
  }

  /** The incorrect answers, one entry per line, or a fixed sentence when there are none. */
  function UserAnswersText(ss: seq<AnswerSummary>, context: Answers.Answer -> Result<string, TextError>)
    : Result<string, TextError>
  {
    var ds := IncorrectDetails(ss, context);
    if ds.Err? then Err(ds.error)
    else
      var text := Join(ds.value, "\n");
      Ok(if text == "" then NoIncorrectAnswersText else text)
  }

  /** The fixed sentence appears exactly when there is no incorrect answer to list; any answer
      that cannot be rendered makes the whole text fail. */
  lemma UserAnswersFallback(ss: seq<AnswerSummary>, context: Answers.Answer -> Result<string, TextError>)
    ensures UserAnswersText(ss, context).Ok? <==> forall k :: 0 <= k < |ss| ==> context(ss[k].answer).Ok?
    ensures UserAnswersText(ss, context).Ok? ==>
      (UserAnswersText(ss, context).value == NoIncorrectAnswersText <==> |ss| == 0)
  {
    var ds := IncorrectDetails(ss, context);
    if ds.Ok? && |ss| > 0 {
      assert ds.value[0] == IncorrectDetail(ss[0], context(ss[0].answer).value);
      JoinFirstChar(ds.value, "\n");
      assert Join(ds.value, "\n")[0] == '-';
      assert NoIncorrectAnswersText[0] == 'N';
    }
  }

  /** `assess_pending_exercise`: choose-accent exercises go to the dedicated assessment;
      every other kind sends the two answer texts to the general model, `general`, whose
      failure propagates. */
  function AssessPendingExercise(
    kind: Enums.ExerciseType, accentOptions: Option<seq<string>>, level: string,
    accentOutcome: Result<WordAnalysis, string>,
    correct: seq<AnswerSummary>, incorrect: seq<AnswerSummary>,
    context: Answers.Answer -> Result<string, TextError>,
    general: (string, string) -> Result<Analysis, string>)
    : (r: Result<Analysis, AssessError>)
    ensures kind == Enums.ChooseAccent ==> r == AssessChooseAccent(accentOptions, level, accentOutcome)
    ensures kind != Enums.ChooseAccent ==>
      (UserAnswersText(incorrect, context).Err? ==> r == Err(AnswerTextFailed))
    ensures kind != Enums.ChooseAccent && UserAnswersText(incorrect, context).Ok? ==>
      var reply := general(CorrectAnswersText(correct, context), UserAnswersText(incorrect, context).value);
      (reply.Ok? ==> r == Ok(reply.value)) && (reply.Err? ==> r == Err(LlmFailed(reply.error)))
  {
    if kind == Enums.ChooseAccent then AssessChooseAccent(accentOptions, level, accentOutcome)
    else
      var userText := UserAnswersText(incorrect, context);
      if userText.Err? then Err(AnswerTextFailed)
      else
        match general(CorrectAnswersText(correct, context), userText.value)
        case Ok(a) => Ok(a)
        case Err(e) => Err(LlmFailed(e))
  }
}
