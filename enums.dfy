/** The service's enumerations shared by several components. */
module Enums {

  /** The kinds of exercise the bot serves. */
  datatype ExerciseType = FillInTheBlank | ChooseSentence | ChooseAccent | StoryComprehension

  /** The stored value of an exercise type. */
  function ExerciseTypeValue(t: ExerciseType): string
  {
    match t
    case FillInTheBlank => "fill_in_the_blank"
    case ChooseSentence => "choose_sentence"
    case ChooseAccent => "choose_accent"
    case StoryComprehension => "story_comprehension"
  }

  /** The life-cycle states of a stored exercise. */
  datatype ExerciseStatus =
    | Published
    | PendingReview
    | RejectedByAssessor
    | RejectedByError
    | Archived
    | AudioGenerationError
    | ProcessingErrorRetry
    | PendingAdminReview

  /** The stored value of an exercise status. */
  function StatusValue(s: ExerciseStatus): string
  {
    match s
    case Published => "published"
    case PendingReview => "pending_review"
    case RejectedByAssessor => "rejected_by_assessor"
    case RejectedByError => "rejected_by_error"
    case Archived => "archived"
    case AudioGenerationError => "audio_generation_error"
    case ProcessingErrorRetry => "processing_error_retry"
    case PendingAdminReview => "pending_admin_review"
  }

  /** The life-cycle states of a detailed weekly report. */
  datatype ReportStatus = Pending | Generating | Generated | Sent | Failed

  /** What the bot should do next for a learner. */
  datatype UserAction = NewExercise | PraiseAndNextSet | CongratulationsAndWait | LimitReached | Error
}
