/**
 * The quality gate a freshly generated exercise passes before it is saved: duplicate options,
 * options too long for a Telegram button, then the LLM's verdict.
 */
module QualityAssessor {
  import opened Wrappers

  /** The exercise kinds the assessor distinguishes. */
  datatype ExerciseKind = SentenceConstruction | MultipleChoice | FillInTheBlank | Translation

  /** The longest button text Telegram accepts, in UTF-8 bytes. */
  const TelegramButtonMaxLength: nat := 64

  datatype Rejection = DuplicateOptions | TooLongOptions | RejectedByLlm

  /** Some option occurs twice. */
  predicate HasRepeats(options: seq<string>)
  {
    exists i, j :: 0 <= i < j < |options| && options[i] == options[j]
  }

  function ElementSet(options: seq<string>): set<string>
  {
    set o | o in options
  }

  lemma {:induction false} ElementSetSize(options: seq<string>)
    ensures |ElementSet(options)| <= |options|
    ensures |ElementSet(options)| < |options| <==> HasRepeats(options)
    decreases |options|
  {
    if |options| > 0 {
      var rest := options[1..];
      ElementSetSize(rest);
      RepeatsSplit(options);
      assert ElementSet(options) == ElementSet(rest) + {options[0]};
      if options[0] in rest {
        assert ElementSet(options) == ElementSet(rest);
      }
    }
  }

  /** A list has a repeat when its head recurs in its tail or the tail has one. */
  lemma RepeatsSplit(options: seq<string>)
    requires |options| > 0
    ensures HasRepeats(options) <==> options[0] in options[1..] || HasRepeats(options[1..])
  {
    var rest := options[1..];
    if options[0] in rest {
      var j :| 0 <= j < |rest| && rest[j] == options[0];
      assert options[0] == options[j + 1];
    }
    if HasRepeats(rest) {
      var i, j :| 0 <= i < j < |rest| && rest[i] == rest[j];
      assert options[i + 1] == options[j + 1];
    }
    if HasRepeats(options) {
      var i, j :| 0 <= i < j < |options| && options[i] == options[j];
      if i == 0 {
        assert rest[j - 1] == options[0];
      } else {
        assert rest[i - 1] == rest[j - 1];
      }
    }
  }

  /** `len(set(options)) < len(options)`: true exactly when some option is repeated. */
  function HasDuplicateOptions(options: seq<string>): (r: bool)
    ensures r <==> HasRepeats(options)
  {
    ElementSetSize(options);
    |ElementSet(options)| < |options|
  }

  /** The number of bytes of one character in UTF-8. */
  function Utf8CharLength(c: char): (n: nat)
    ensures 1 <= n <= 4
    ensures n == 1 <==> c as int < 0x80
  {
    if c as int < 0x80 then 1
    else if c as int < 0x800 then 2
    else if c as int < 0x10000 then 3
    else 4
  }

  /** `len(s.encode('utf-8'))`. */
  function Utf8Length(s: string): (n: nat)
    ensures |s| <= n <= 4 * |s|
  {
    if |s| == 0 then 0 else Utf8CharLength(s[0]) + Utf8Length(s[1..])
  }

  /** Text of ASCII characters takes one byte per character. */
  lemma {:induction false} AsciiUtf8Length(s: string)
    requires forall k :: 0 <= k < |s| ==> s[k] as int < 0x80
    ensures Utf8Length(s) == |s|
  {
    if |s| > 0 {
      AsciiUtf8Length(s[1..]);
    }
  }

  /** Some option is longer than a button allows. */
  function HasTooLongOptions(options: seq<string>): (r: bool)
    ensures r ==> exists k :: 0 <= k < |options| && |options[k]| > TelegramButtonMaxLength / 4
    ensures (exists k :: 0 <= k < |options| && |options[k]| > TelegramButtonMaxLength) ==> r
  {
    exists k | 0 <= k < |options| :: Utf8Length(options[k]) > TelegramButtonMaxLength
  }

  /** `assess`: the duplicate check first, the length check for fill-in-the-blank exercises
      only, then the LLM's `is_valid` verdict. */
  function Assess(kind: ExerciseKind, options: seq<string>, llmIsValid: bool): (r: Result<(), Rejection>)
    ensures HasRepeats(options) ==> r == Err(DuplicateOptions)
    ensures !HasRepeats(options) && kind == FillInTheBlank && HasTooLongOptions(options) ==> r == Err(TooLongOptions)
    ensures r.Ok? <==> !HasRepeats(options) && !(kind == FillInTheBlank && HasTooLongOptions(options)) && llmIsValid
    ensures r == Err(RejectedByLlm) ==> !llmIsValid
  {
    if HasDuplicateOptions(options) then Err(DuplicateOptions)
    else if kind == FillInTheBlank && HasTooLongOptions(options) then Err(TooLongOptions)
    else if !llmIsValid then Err(RejectedByLlm)
    else Ok(())
  }

  /** The LLM's verdict matters only once the option checks have passed. */
  lemma VerdictIgnoredWhenOptionsRejected(kind: ExerciseKind, options: seq<string>)
    requires HasRepeats(options) || (kind == FillInTheBlank && HasTooLongOptions(options))
    ensures Assess(kind, options, true) == Assess(kind, options, false)
    ensures Assess(kind, options, true).Err?
  {
  }

  /** Long options are tolerated in the other exercise kinds. */
  lemma LengthCheckOnlyForFillInTheBlank(kind: ExerciseKind, options: seq<string>)
    requires kind != FillInTheBlank && !HasRepeats(options)
    ensures Assess(kind, options, true) == Ok(())
  {
  }
}
