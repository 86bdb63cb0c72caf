/**
 * Exercise payloads and the full text of a fill-in-the-blank exercise once the learner's
 * words are put into its blanks.
 */
module ExerciseData {
  import opened Wrappers
  import opened Strings
  import Answers

  /** The blank marker in a fill-in-the-blank text. */
  const Blank: string := "___"

  datatype ExerciseData =
    | SentenceConstructionData(words: seq<string>)
    | MultipleChoiceData(options: seq<string>)
    | FillInTheBlankData(textWithBlanks: string, words: seq<string>)
    | TranslationData(translations: seq<string>)

  datatype ExerciseError = NotImplemented | AnswerMustBeFillInTheBlank

  /** The words left after the first `i`, or none. */
  function WordsFrom(words: seq<string>, i: nat): seq<string>
  {
    if i < |words| then words[i..] else []
  }

  /** The text the loop builds from the pieces between blanks: each piece loses its
      underscores and is followed by the word of the same position, when there is one. */
  function Filled(parts: seq<string>, words: seq<string>): string
    decreases |parts|
  {
    if |parts| == 0 then ""
    else
      RemoveChar(parts[0], '_') + (if |words| > 0 then words[0] else "")
        + Filled(parts[1..], WordsFrom(words, 1))
  }

  /** The full text of an exercise with the learner's answer in place. Only the
      fill-in-the-blank kind has one, and only for a fill-in-the-blank answer. */
  function FullExerciseText(data: ExerciseData, answer: Answers.Answer): Result<string, ExerciseError>
  {
    match data
    case FillInTheBlankData(text, _) =>
      if !answer.FillInTheBlank? then Err(AnswerMustBeFillInTheBlank)
      else if |answer.words| == 0 || !Contains(text, Blank) then Ok(text)
      else Ok(Filled(Split(text, Blank), answer.words))
    case _ => Err(NotImplemented)
  }

  lemma FilledStep(parts: seq<string>, words: seq<string>, i: nat)
    requires i < |parts|
    ensures Filled(parts[i..], WordsFrom(words, i)) ==
      RemoveChar(parts[i], '_') + (if i < |words| then words[i] else "")
        + Filled(parts[i + 1..], WordsFrom(words, i + 1))
  {
    var ws := WordsFrom(words, i);
    assert parts[i..][0] == parts[i];
    assert parts[i..][1..] == parts[i + 1..];
    assert WordsFrom(ws, 1) == WordsFrom(words, i + 1);
  }

  /** One piece appended keeps the loop's invariant: what is built plus what is left to
      build is the whole text. */
  lemma FillStepKeeps(parts: seq<string>, words: seq<string>, i: nat, built: string, piece: string)
    requires i < |parts|
    requires built + Filled(parts[i..], WordsFrom(words, i)) == Filled(parts, words)
    requires piece == RemoveChar(parts[i], '_') + (if i < |words| then words[i] else "")
    ensures (built + piece) + Filled(parts[i + 1..], WordsFrom(words, i + 1)) == Filled(parts, words)
  {
    var rest := Filled(parts[i + 1..], WordsFrom(words, i + 1));
    FilledStep(parts, words, i);
    assert built + (piece + rest) == (built + piece) + rest;
  }

  /** The loop of `get_full_exercise_text`: appends piece by piece, each piece without its
      underscores and followed by the learner's word of the same position. */
  method FillBlanks(parts: seq<string>, words: seq<string>) returns (result: string)
    ensures result == Filled(parts, words)
  {
    result := "";
    var i := 0;
    while i < |parts|
      invariant 0 <= i <= |parts|
      invariant result + Filled(parts[i..], WordsFrom(words, i)) == Filled(parts, words)
    {
      var piece := RemoveChar(parts[i], '_');
      if i < |words| {
        piece := piece + words[i];
      }
      FillStepKeeps(parts, words, i, result, piece);
      result := result + piece;
      i := i + 1;
    }
    assert parts[i..] == [];
  }

  /** `get_full_exercise_text`: splits the text on the blank marker and fills it. */
  method GetFullExerciseText(data: ExerciseData, answer: Answers.Answer) returns (r: Result<string, ExerciseError>)
    ensures r == FullExerciseText(data, answer)
  {
    if !data.FillInTheBlankData? {
      return Err(NotImplemented);
    }
    if !answer.FillInTheBlank? {
      return Err(AnswerMustBeFillInTheBlank);
    }
    var text := data.textWithBlanks;
    var words := answer.words;
    if |words| == 0 || !Contains(text, Blank) {
      return Ok(text);
    }
    var filled := FillBlanks(Split(text, Blank), words);
    return Ok(filled);
  }

  /** The reference reading of a filled text: the pieces with the words between them. */
  function Weave(parts: seq<string>, words: seq<string>): string
    requires |parts| >= 1 && |words| == |parts| - 1
    decreases |parts|
  {
    if |parts| == 1 then parts[0] else parts[0] + words[0] + Weave(parts[1..], words[1..])
  }

  lemma {:induction false} FilledIsWeave(parts: seq<string>, words: seq<string>)
    requires |parts| >= 1 && |words| == |parts| - 1
    requires forall k :: 0 <= k < |parts| ==> '_' !in parts[k]
    ensures Filled(parts, words) == Weave(parts, words)
    decreases |parts|
  {
    if |parts| == 1 {
      assert Filled(parts[1..], WordsFrom(words, 1)) == "";
    } else {
      assert WordsFrom(words, 1) == words[1..];
      FilledIsWeave(parts[1..], words[1..]);
    }
  }

  /** With one word per blank and no stray underscores, filling puts each word exactly where
      its blank was. */
  lemma FillsEachBlank(parts: seq<string>, words: seq<string>)
    requires |parts| >= 2 && |words| == |parts| - 1
    requires forall k :: 0 <= k < |parts| ==> '_' !in parts[k]
    ensures FullExerciseText(FillInTheBlankData(Join(parts, Blank), []), Answers.FillInTheBlank(words))
            == Ok(Weave(parts, words))
  {
    var text := Join(parts, Blank);
    SplitJoin(parts, Blank);
    FilledIsWeave(parts, words);
    assert Split(text, Blank) == parts;
  }

  /** Words beyond the number of pieces are never used. */
  lemma {:induction false} ExtraWordsDropped(parts: seq<string>, words: seq<string>)
    requires |words| >= |parts|
    ensures Filled(parts, words) == Filled(parts, words[..|parts|])
    decreases |parts|
  {
    if |parts| > 0 {
      var short := words[..|parts|];
      assert WordsFrom(short, 1) == WordsFrom(words, 1)[..|parts| - 1];
      ExtraWordsDropped(parts[1..], WordsFrom(words, 1));
    }
  }

  /** No words, or no blank, leaves the text as it is; any other exercise kind, or an answer
      of another kind, is an error. */
  lemma FullTextEdgeCases(data: ExerciseData, answer: Answers.Answer)
    ensures !data.FillInTheBlankData? ==> FullExerciseText(data, answer) == Err(NotImplemented)
    ensures data.FillInTheBlankData? && !answer.FillInTheBlank? ==>
      FullExerciseText(data, answer) == Err(AnswerMustBeFillInTheBlank)
    ensures data.FillInTheBlankData? && answer.FillInTheBlank? ==>
      (|answer.words| == 0 || !Contains(data.textWithBlanks, Blank) ==>
         FullExerciseText(data, answer) == Ok(data.textWithBlanks))
  {
  }

  // ---------------------------------------------------------------------------------------
  // to_dict

  function ExerciseDict(data: ExerciseData): (d: Answers.Dict)
    ensures "type" in d && d["type"].Str?
    ensures data.FillInTheBlankData? ==>
      && d["type"] == Answers.Str("FillInTheBlankExerciseData")
      && "text_with_blanks" in d && "words" in d
      && d["text_with_blanks"] == Answers.Str(data.textWithBlanks)
      && d["words"] == Answers.StrList(data.words)
  {
    match data
    case SentenceConstructionData(ws) =>
      map["type" := Answers.Str("SentenceConstructionExerciseData"), "words" := Answers.StrList(ws)]
    case MultipleChoiceData(os) =>
      map["type" := Answers.Str("MultipleChoiceExerciseData"), "options" := Answers.StrList(os)]
    case FillInTheBlankData(text, ws) =>
      map["type" := Answers.Str("FillInTheBlankExerciseData"), "text_with_blanks" := Answers.Str(text),
          "words" := Answers.StrList(ws)]
    case TranslationData(ts) =>
      map["type" := Answers.Str("TranslationExerciseData"), "translations" := Answers.StrList(ts)]
  }

  /** The dictionary form names each kind by a distinct tag. */
  lemma ExerciseDictTagsDistinct(a: ExerciseData, b: ExerciseData)
    requires ExerciseDict(a)["type"] == ExerciseDict(b)["type"]
    ensures a.FillInTheBlankData? <==> b.FillInTheBlankData?
    ensures a.SentenceConstructionData? <==> b.SentenceConstructionData?
    ensures a.MultipleChoiceData? <==> b.MultipleChoiceData?
  {
  }
}
