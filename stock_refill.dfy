/**
 * The exercise stock refill worker: it counts the untouched exercises of every target
 * language and exercise type, plans one generation task for each exercise missing below
 * the minimum, runs the tasks, and counts the ones that succeeded. A task stores the
 * generated exercise with its correct answer. The exercise store is a class; what the
 * generators return and what the database assigns are parameters.
 */
module StockRefill {
  import opened Wrappers
  import opened Enums
  import opened Profiles
  import Answers
  import AttemptValidation

  /** Below this many untouched exercises a (language, type) pair is refilled. */
  const MinExerciseCountToGenerateNew: int := 5

  /** `[bot_id.value for bot_id in BotID]`. */
  const TargetLanguages: seq<string> := [BotIdValue(Bulgarian)]

  /** `list(ExerciseType)`, in declaration order. */
  const AllExerciseTypes: seq<ExerciseType> := [FillInTheBlank, ChooseSentence, ChooseAccent, StoryComprehension]

  /** Every exercise type is planned for. */
  lemma AllExerciseTypesListed(t: ExerciseType) returns (k: nat)
    ensures k < |AllExerciseTypes| && AllExerciseTypes[k] == t
  {
    match t
    case FillInTheBlank => k := 0;
    case ChooseSentence => k := 1;
    case ChooseAccent => k := 2;
    case StoryComprehension => k := 3;
  }

  lemma TypesDistinct()
    ensures forall i, j :: 0 <= i < j < |AllExerciseTypes| ==> AllExerciseTypes[i] != AllExerciseTypes[j]
  {
  }

  /** The untouched counts by language and by the stored value of the type. */
  type Counts = map<string, map<string, int>>

  /** A missing language or type counts as zero. */
  function CountOf(counts: Counts, lang: string, t: ExerciseType): int
  {
    if lang in counts && ExerciseTypeValue(t) in counts[lang] then counts[lang][ExerciseTypeValue(t)] else 0
  }

  /** How many exercises are generated for a count: up to the minimum, and none at or above
      it. */
  function Shortfall(count: int): (n: nat)
    ensures count < MinExerciseCountToGenerateNew ==> count + n == MinExerciseCountToGenerateNew
    ensures count >= MinExerciseCountToGenerateNew ==> n == 0
  {
    if count < MinExerciseCountToGenerateNew then MinExerciseCountToGenerateNew - count else 0
  }

  /** A planned call of `generate_and_save_exercise`. */
  datatype Task = Task(targetLanguage: string, exerciseType: ExerciseType)

  function Repeat(t: Task, n: nat): (r: seq<Task>)
    ensures |r| == n && forall i :: 0 <= i < n ==> r[i] == t
  {
    if n == 0 then [] else Repeat(t, n - 1) + [t]
  }

  /** The tasks for one language and the given types. */
  function PlanTypes(counts: Counts, lang: string, types: seq<ExerciseType>): seq<Task>
  {
    if |types| == 0 then []
    else
      var t := types[|types| - 1];
      PlanTypes(counts, lang, types[..|types| - 1]) + Repeat(Task(lang, t), Shortfall(CountOf(counts, lang, t)))
  }

  /** The tasks for the languages in `langs`, each over all types. */
  function Plan(counts: Counts, langs: seq<string>): seq<Task>
  {
    if |langs| == 0 then []
    else Plan(counts, langs[..|langs| - 1]) + PlanTypes(counts, langs[|langs| - 1], AllExerciseTypes)
  }

  lemma {:induction false} PlanTypesCounts(counts: Counts, lang: string, types: seq<ExerciseType>, task: Task)
    ensures multiset(PlanTypes(counts, lang, types))[task] ==
      if task.targetLanguage == lang && task.exerciseType in types then Shortfall(CountOf(counts, lang, task.exerciseType)) else 0
    requires forall i, j :: 0 <= i < j < |types| ==> types[i] != types[j]
  {
    if |types| > 0 {
      var init := types[..|types| - 1];
      var t := types[|types| - 1];
      PlanTypesCounts(counts, lang, init, task);
      var rep := Repeat(Task(lang, t), Shortfall(CountOf(counts, lang, t)));
      RepeatCount(Task(lang, t), Shortfall(CountOf(counts, lang, t)), task);
      LastNotInPrefix(types);
    }
  }

  lemma {:induction false} RepeatCount(t: Task, n: nat, task: Task)
    ensures multiset(Repeat(t, n))[task] == if task == t then n else 0
  {
    if n > 0 {
      RepeatCount(t, n - 1, task);
    }
  }

  /** Each (language, type) pair gets exactly as many tasks as it falls short of the
      minimum, and no task names another language. */
  lemma {:induction false} PlanCounts(counts: Counts, langs: seq<string>, task: Task)
    requires forall i, j :: 0 <= i < j < |langs| ==> langs[i] != langs[j]
    ensures multiset(Plan(counts, langs))[task] ==
      if task.targetLanguage in langs then Shortfall(CountOf(counts, task.targetLanguage, task.exerciseType)) else 0
  {
    if |langs| > 0 {
      var init := langs[..|langs| - 1];
      var lang := langs[|langs| - 1];
      LastNotInPrefix(langs);
      PlanCounts(counts, init, task);
      PlanTypesForAllTypes(counts, lang, task);
      var here := PlanTypes(counts, lang, AllExerciseTypes);
      assert multiset(Plan(counts, langs))[task] == multiset(Plan(counts, init))[task] + multiset(here)[task];
    }
  }

  /** In a list without repetitions the last element does not occur before it. */
  lemma LastNotInPrefix<T>(xs: seq<T>)
    requires |xs| > 0 && forall i, j :: 0 <= i < j < |xs| ==> xs[i] != xs[j]
    ensures xs[|xs| - 1] !in xs[..|xs| - 1]
    ensures forall x :: x in xs <==> x in xs[..|xs| - 1] || x == xs[|xs| - 1]
  {
    assert xs == xs[..|xs| - 1] + [xs[|xs| - 1]];
  }

  lemma PlanTypesForAllTypes(counts: Counts, lang: string, task: Task)
    ensures multiset(PlanTypes(counts, lang, AllExerciseTypes))[task] ==
      if task.targetLanguage == lang then Shortfall(CountOf(counts, lang, task.exerciseType)) else 0
  {
    var k := AllExerciseTypesListed(task.exerciseType);
    TypesDistinct();
    PlanTypesCounts(counts, lang, AllExerciseTypes, task);
  }

  /** With the one target language, the plan tops every pair up to the minimum. */
  lemma RefillTopsUpToMinimum(counts: Counts, t: ExerciseType)
    ensures var planned := multiset(Plan(counts, TargetLanguages))[Task(BotIdValue(Bulgarian), t)];
      && (CountOf(counts, BotIdValue(Bulgarian), t) < MinExerciseCountToGenerateNew ==>
            CountOf(counts, BotIdValue(Bulgarian), t) + planned == MinExerciseCountToGenerateNew)
      && (CountOf(counts, BotIdValue(Bulgarian), t) >= MinExerciseCountToGenerateNew ==> planned == 0)
  {
    PlanCounts(counts, TargetLanguages, Task(BotIdValue(Bulgarian), t));
  }

  lemma PlanStep(counts: Counts, langs: seq<string>, l: nat)
    requires l < |langs|
    ensures Plan(counts, langs[..l + 1]) == Plan(counts, langs[..l]) + PlanTypes(counts, langs[l], AllExerciseTypes)
  {
    assert langs[..l + 1][..l] == langs[..l];
  }

  lemma PlanTypesStep(counts: Counts, lang: string, types: seq<ExerciseType>, k: nat)
    requires k < |types|
    ensures PlanTypes(counts, lang, types[..k + 1]) ==
      PlanTypes(counts, lang, types[..k]) + Repeat(Task(lang, types[k]), Shortfall(CountOf(counts, lang, types[k])))
  {
    assert types[..k + 1][..k] == types[..k];
  }

  /** The outer loop of `exercise_stock_refill` over the target languages. */
  method PlanRefill(counts: Counts) returns (tasks: seq<Task>)
    ensures tasks == Plan(counts, TargetLanguages)
  {
    var langs := TargetLanguages;
    tasks := [];
    var l := 0;
    while l < |langs|
      invariant 0 <= l <= |langs|
      invariant tasks == Plan(counts, langs[..l])
    {
      var here := PlanLanguage(counts, langs[l], AllExerciseTypes);
      PlanStep(counts, langs, l);
      tasks := tasks + here;
      l := l + 1;
    }
    assert langs[..l] == langs;
  }

  /** The middle loop, over the exercise types of one language: each type contributes its
      shortfall of tasks. */
  method PlanLanguage(counts: Counts, lang: string, types: seq<ExerciseType>) returns (tasks: seq<Task>)
    ensures tasks == PlanTypes(counts, lang, types)
  {
    tasks := [];
    var k := 0;
    while k < |types|
      invariant 0 <= k <= |types|
      invariant tasks == PlanTypes(counts, lang, types[..k])
    {
      var t := types[k];
      var count := CountOf(counts, lang, t);
      PlanTypesStep(counts, lang, types, k);
      if count < MinExerciseCountToGenerateNew {
        var n := 0;
        ghost var before := tasks;
        while n < MinExerciseCountToGenerateNew - count
          invariant 0 <= n <= MinExerciseCountToGenerateNew - count
          invariant tasks == before + Repeat(Task(lang, t), n)
        {
          tasks := tasks + [Task(lang, t)];
          n := n + 1;
        }
      }
      k := k + 1;
    }
    assert types[..k] == types;
  }

  // ---------------------------------------------------------------------------------------
  // One generation task

  /** What the generator gives: an exception (None), or the exercise and the answer, either
      of which may be missing. */
  datatype Generated = Generated(exercisePresent: bool, answer: Option<Answers.Answer>)

  /** What one task meets: the generator's result, the id the database gives the exercise,
      and whether saving raises. */
  datatype TaskWorld = TaskWorld(generated: Option<Generated>, assignedId: Option<int>, saveFails: bool)

  /** A stored exercise: its id, its type and its target language. */
  datatype StoredExercise = StoredExercise(exerciseId: Option<int>, exerciseType: ExerciseType, language: string)

  /** Who is recorded as the answer's author: the accent scraper or the language model. */
  function CreatedBy(t: ExerciseType): string
  {
    if t == ChooseAccent then "scrapper" else "LLM"
  }

  /** Python truthiness of the assigned id. */
  predicate IdTruthy(id: Option<int>)
  {
    id.Some? && id.value != 0
  }

  /** Whether `generate_and_save_exercise` returns True: accent exercises exist only for
      Bulgarian, and the generator must give both parts and the save must go through. */
  predicate Succeeds(task: Task, w: TaskWorld)
  {
    && !(task.exerciseType == ChooseAccent && task.targetLanguage != BotIdValue(Bulgarian))
    && w.generated.Some? && w.generated.value.exercisePresent && w.generated.value.answer.Some?
    && !w.saveFails
  }

  /** The accent generator is never asked for a language other than Bulgarian. */
  lemma ChooseAccentOnlyForBulgarian(lang: string, w: TaskWorld)
    requires lang != BotIdValue(Bulgarian)
    ensures !Succeeds(Task(lang, ChooseAccent), w)
  {
  }

  /** Every stored correct answer belongs to a stored exercise. */
  predicate AnswersOwned(exercises: seq<StoredExercise>, answers: seq<AttemptValidation.ExerciseAnswer>)
  {
    forall i :: 0 <= i < |answers| ==> Stored(exercises, answers[i].exerciseId)
  }

  /** Some stored exercise carries this id. */
  predicate Stored(exercises: seq<StoredExercise>, id: int)
  {
    exists j :: 0 <= j < |exercises| && exercises[j].exerciseId == Some(id)
  }

  /** Storing one more exercise, and with it possibly one answer that names it, keeps every
      answer owned. */
  lemma OwnedAfterSave(exercises: seq<StoredExercise>, answers: seq<AttemptValidation.ExerciseAnswer>,
                       e: StoredExercise, extra: seq<AttemptValidation.ExerciseAnswer>)
    requires AnswersOwned(exercises, answers)
    requires forall i :: 0 <= i < |extra| ==> e.exerciseId == Some(extra[i].exerciseId)
    ensures AnswersOwned(exercises + [e], answers + extra)
  {
    var ex := exercises + [e];
    var an := answers + extra;
    forall i | 0 <= i < |an|
      ensures Stored(ex, an[i].exerciseId)
    {
      if i < |answers| {
        var j :| 0 <= j < |exercises| && exercises[j].exerciseId == Some(answers[i].exerciseId);
        assert ex[j] == exercises[j] && an[i] == answers[i];
      } else {
        var k := i - |answers|;
        assert an[i] == extra[k] && e.exerciseId == Some(extra[k].exerciseId);
        assert ex[|exercises|].exerciseId == Some(an[i].exerciseId);
      }
    }
  }

  /** The exercise one task stores: its own, when it succeeds. */
  function ExerciseOf(task: Task, w: TaskWorld): seq<StoredExercise>
  {
    if Succeeds(task, w) then [StoredExercise(w.assignedId, task.exerciseType, task.targetLanguage)] else []
  }

  /** The correct answer one task stores: the generated one, when the task succeeds and its
      exercise was given a truthy id. */
  function AnswerOf(task: Task, w: TaskWorld): seq<AttemptValidation.ExerciseAnswer>
  {
    if Succeeds(task, w) && IdTruthy(w.assignedId) then
      [AttemptValidation.ExerciseAnswer(None, w.assignedId.value, w.generated.value.answer.value, true, "", "", CreatedBy(task.exerciseType))]
    else []
  }

  /** The exercises a run of the tasks stores, task `k` meeting world `k`. */
  function NewExercises(tasks: seq<Task>, worlds: int -> TaskWorld): (es: seq<StoredExercise>)
    ensures |es| <= |tasks|
  {
    if |tasks| == 0 then []
    else NewExercises(tasks[..|tasks| - 1], worlds) + ExerciseOf(tasks[|tasks| - 1], worlds(|tasks| - 1))
  }

  /** The correct answers a run of the tasks stores. */
  function NewAnswers(tasks: seq<Task>, worlds: int -> TaskWorld): (as_: seq<AttemptValidation.ExerciseAnswer>)
    ensures |as_| <= |tasks|
  {
    if |tasks| == 0 then []
    else NewAnswers(tasks[..|tasks| - 1], worlds) + AnswerOf(tasks[|tasks| - 1], worlds(|tasks| - 1))
  }

  /** Every stored exercise is of a planned task's type and language, the one that
      succeeded in storing it. */
  lemma {:induction false} NewExercisesPlanned(tasks: seq<Task>, worlds: int -> TaskWorld)
    ensures forall e :: e in NewExercises(tasks, worlds) ==>
      exists k :: 0 <= k < |tasks| && Succeeds(tasks[k], worlds(k)) && tasks[k] == Task(e.language, e.exerciseType)
    decreases |tasks|
  {
    if |tasks| > 0 {
      var n := |tasks| - 1;
      NewExercisesPlanned(tasks[..n], worlds);
      forall e | e in NewExercises(tasks, worlds)
        ensures exists k :: 0 <= k < |tasks| && Succeeds(tasks[k], worlds(k)) && tasks[k] == Task(e.language, e.exerciseType)
      {
        if e in NewExercises(tasks[..n], worlds) {
          var k :| 0 <= k < n && Succeeds(tasks[..n][k], worlds(k)) && tasks[..n][k] == Task(e.language, e.exerciseType);
          assert tasks[k] == tasks[..n][k];
        } else {
          assert Succeeds(tasks[n], worlds(n)) && tasks[n] == Task(e.language, e.exerciseType);
        }
      }
    }
  }

  /** Every stored answer is marked correct and belongs to the id that a succeeding task's
      exercise was given. */
  lemma {:induction false} NewAnswersOwned(tasks: seq<Task>, worlds: int -> TaskWorld)
    ensures forall a :: a in NewAnswers(tasks, worlds) ==> (a.isCorrect &&
      exists k :: 0 <= k < |tasks| && Succeeds(tasks[k], worlds(k)) && worlds(k).assignedId == Some(a.exerciseId))
    decreases |tasks|
  {
    if |tasks| > 0 {
      var n := |tasks| - 1;
      NewAnswersOwned(tasks[..n], worlds);
      forall a | a in NewAnswers(tasks, worlds)
        ensures a.isCorrect && exists k :: 0 <= k < |tasks| && Succeeds(tasks[k], worlds(k)) && worlds(k).assignedId == Some(a.exerciseId)
      {
        if a in NewAnswers(tasks[..n], worlds) {
          var k :| 0 <= k < n && Succeeds(tasks[..n][k], worlds(k)) && worlds(k).assignedId == Some(a.exerciseId);
          assert tasks[k] == tasks[..n][k];
        } else {
          assert Succeeds(tasks[n], worlds(n)) && worlds(n).assignedId == Some(a.exerciseId);
        }
      }
    }
  }

  /** What each planned task returns, in plan order. */
  function Outcomes(tasks: seq<Task>, worlds: int -> TaskWorld): (rs: seq<bool>)
    ensures |rs| == |tasks|
  {
    if |tasks| == 0 then []
    else Outcomes(tasks[..|tasks| - 1], worlds) + [Succeeds(tasks[|tasks| - 1], worlds(|tasks| - 1))]
  }

  /** Task `k`'s outcome is whether it succeeds in world `k`. */
  lemma {:induction false} OutcomesAt(tasks: seq<Task>, worlds: int -> TaskWorld)
    ensures forall k :: 0 <= k < |tasks| ==> Outcomes(tasks, worlds)[k] == Succeeds(tasks[k], worlds(k))
  {
    if |tasks| > 0 {
      var n := |tasks| - 1;
      OutcomesAt(tasks[..n], worlds);
      assert forall k :: 0 <= k < n ==> tasks[..n][k] == tasks[k];
    }
  }

  /** One more task appends its own effect to a store that holds the run so far. */
  lemma RunStep(tasks: seq<Task>, worlds: int -> TaskWorld, i: nat,
                e0: seq<StoredExercise>, a0: seq<AttemptValidation.ExerciseAnswer>,
                es: seq<StoredExercise>, as_: seq<AttemptValidation.ExerciseAnswer>)
    requires i < |tasks|
    requires es == e0 + NewExercises(tasks[..i], worlds) && as_ == a0 + NewAnswers(tasks[..i], worlds)
    ensures es + ExerciseOf(tasks[i], worlds(i)) == e0 + NewExercises(tasks[..i + 1], worlds)
    ensures as_ + AnswerOf(tasks[i], worlds(i)) == a0 + NewAnswers(tasks[..i + 1], worlds)
    ensures Outcomes(tasks[..i], worlds) + [Succeeds(tasks[i], worlds(i))] == Outcomes(tasks[..i + 1], worlds)
  {
    assert tasks[..i + 1][..i] == tasks[..i];
    assert es + ExerciseOf(tasks[i], worlds(i)) == e0 + (NewExercises(tasks[..i], worlds) + ExerciseOf(tasks[i], worlds(i)));
    assert as_ + AnswerOf(tasks[i], worlds(i)) == a0 + (NewAnswers(tasks[..i], worlds) + AnswerOf(tasks[i], worlds(i)));
  }

  /** The run stores one exercise per task that returns True. */
  lemma {:induction false} NewExercisesCount(tasks: seq<Task>, worlds: int -> TaskWorld)
    ensures |NewExercises(tasks, worlds)| == CountSucceeding(tasks, worlds, 0)
    decreases |tasks|
  {
    if |tasks| > 0 {
      var n := |tasks| - 1;
      NewExercisesCount(tasks[..n], worlds);
      SucceedingFrom(tasks, worlds, 0, n);
    }
  }

  class ExerciseStock {
    var exercises: seq<StoredExercise>
    var answers: seq<AttemptValidation.ExerciseAnswer>

    ghost predicate Valid()
      reads this
    {
      AnswersOwned(exercises, answers)
    }

    constructor()
      ensures Valid() && exercises == [] && answers == []
    {
      exercises := [];
      answers := [];
    }

    /** `generate_and_save_exercise`: every failure returns False and stores nothing; a
        success stores the exercise and, when it was given a (truthy) id, its correct answer
        with empty feedback. */
    method GenerateAndSaveExercise(task: Task, w: TaskWorld) returns (ok: bool)
      requires Valid()
      modifies this
      ensures Valid()
      ensures ok == Succeeds(task, w)
      ensures exercises == old(exercises) + ExerciseOf(task, w)
      ensures answers == old(answers) + AnswerOf(task, w)
    {
      if task.exerciseType == ChooseAccent && task.targetLanguage != BotIdValue(Bulgarian) {
        return false;
      }
      if w.generated.None? {
        return false;
      }
      var g := w.generated.value;
      if !g.exercisePresent || g.answer.None? {
        return false;
      }
      if w.saveFails {
        return false;
      }
      var e := StoredExercise(w.assignedId, task.exerciseType, task.targetLanguage);
      var extra := if IdTruthy(w.assignedId)
        then [AttemptValidation.ExerciseAnswer(None, w.assignedId.value, g.answer.value, true, "", "", CreatedBy(task.exerciseType))]
        else [];
      OwnedAfterSave(exercises, answers, e, extra);
      exercises := exercises + [e];
      answers := answers + extra;
      ok := true;
    }

    /** `exercise_stock_refill`: plans the tasks from the counts, runs them with the world
        each one meets, and counts the ones that returned True. The stock grows by exactly
        one exercise per success. */
    method ExerciseStockRefill(counts: Counts, worlds: int -> TaskWorld) returns (successes: nat)
      requires Valid()
      modifies this
      ensures Valid()
      ensures successes == CountSucceeding(Plan(counts, TargetLanguages), worlds, 0)
      ensures exercises == old(exercises) + NewExercises(Plan(counts, TargetLanguages), worlds)
      ensures answers == old(answers) + NewAnswers(Plan(counts, TargetLanguages), worlds)
      ensures |exercises| == |old(exercises)| + successes
      ensures successes <= |Plan(counts, TargetLanguages)|
    {
      var tasks := PlanRefill(counts);
      var results := RunTasks(tasks, worlds);
      successes := CountSuccessful(results);
      SucceedingIsCountTrue(tasks, worlds, results);
      NewExercisesCount(tasks, worlds);
    }

    /** `asyncio.gather` over the planned tasks, taken one after another: task `k` meets
        world `k`, and each success adds one exercise. */
    method RunTasks(tasks: seq<Task>, worlds: int -> TaskWorld) returns (results: seq<bool>)
      requires Valid()
      modifies this
      ensures Valid()
      ensures |results| == |tasks|
      ensures forall k :: 0 <= k < |tasks| ==> results[k] == Succeeds(tasks[k], worlds(k))
      ensures exercises == old(exercises) + NewExercises(tasks, worlds)
      ensures answers == old(answers) + NewAnswers(tasks, worlds)
    {
      results := [];
      var i := 0;
      while i < |tasks|
        invariant 0 <= i <= |tasks|
        invariant Valid()
        invariant results == Outcomes(tasks[..i], worlds)
        invariant exercises == old(exercises) + NewExercises(tasks[..i], worlds)
        invariant answers == old(answers) + NewAnswers(tasks[..i], worlds)
      {
        RunStep(tasks, worlds, i, old(exercises), old(answers), exercises, answers);
        var ok := GenerateAndSaveExercise(tasks[i], worlds(i));
        results := results + [ok];
        i := i + 1;
      }
      assert tasks[..i] == tasks;
      OutcomesAt(tasks, worlds);
    }
  }

  function CountTrue(rs: seq<bool>): (n: nat)
    ensures n <= |rs|
  {
    if |rs| == 0 then 0 else CountTrue(rs[..|rs| - 1]) + (if rs[|rs| - 1] then 1 else 0)
  }

  lemma CountTrueAppend(rs: seq<bool>, b: bool)
    ensures CountTrue(rs + [b]) == CountTrue(rs) + (if b then 1 else 0)
  {
    assert (rs + [b])[..|rs|] == rs;
  }

  /** The number of tasks from index `from` on that return True. */
  function CountSucceeding(tasks: seq<Task>, worlds: int -> TaskWorld, from: nat): nat
    decreases |tasks| - from
  {
    if from >= |tasks| then 0 else (if Succeeds(tasks[from], worlds(from)) then 1 else 0) + CountSucceeding(tasks, worlds, from + 1)
  }

  lemma {:induction false} SucceedingIsCountTrue(tasks: seq<Task>, worlds: int -> TaskWorld, results: seq<bool>)
    requires |results| == |tasks|
    requires forall k :: 0 <= k < |tasks| ==> results[k] == Succeeds(tasks[k], worlds(k))
    ensures CountSucceeding(tasks, worlds, 0) == CountTrue(results)
    decreases |tasks|
  {
    if |tasks| > 0 {
      var n := |tasks| - 1;
      SucceedingFrom(tasks, worlds, 0, n);
      SucceedingIsCountTrue(tasks[..n], worlds, results[..n]);
    }
  }

  /** Splitting the count at the last task. */
  lemma {:induction false} SucceedingFrom(tasks: seq<Task>, worlds: int -> TaskWorld, from: nat, n: nat)
    requires from <= n < |tasks| && n == |tasks| - 1
    ensures CountSucceeding(tasks, worlds, from) == CountSucceeding(tasks[..n], worlds, from) + (if Succeeds(tasks[n], worlds(n)) then 1 else 0)
    decreases n - from
  {
    if from < n {
      SucceedingFrom(tasks, worlds, from + 1, n);
      assert tasks[..n][from] == tasks[from];
    }
  }

  /** The loop that counts the results that are exactly True (`result is True`); a task
      that raised counts as not successful. */
  method CountSuccessful(results: seq<bool>) returns (n: nat)
    ensures n == CountTrue(results)
  {
    n := 0;
    var i := 0;
    while i < |results|
      invariant 0 <= i <= |results|
      invariant n == CountTrue(results[..i])
    {
      assert results[..i + 1] == results[..i] + [results[i]];
      CountTrueAppend(results[..i], results[i]);
      if results[i] {
        n := n + 1;
      }
      i := i + 1;
    }
    assert results[..i] == results;
  }
}
