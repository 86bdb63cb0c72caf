/**
 * The review worker: for each exercise waiting in review it groups the stored answers by
 * (text, correctness), builds the summaries the assessor reads, and turns the assessor's
 * verdict into a new exercise status and an entry appended to the exercise's comments.
 */
module ReviewProcessor {
  import opened Wrappers
  import opened Strings
  import Answers
  import Enums
  import opened PendingReview

  const MaxExercisesPerCycle: nat := 10
  /** The feedback language preferred for the answer representing a group. */
  const AssessorLanguage: string := "en"

  /** A stored answer of an exercise together with the number of attempts that gave it. */
  datatype AnswerRow = AnswerRow(
    answer: Answers.Answer,
    isCorrect: bool,
    feedback: Option<string>,
    feedbackLanguage: string,
    count: int)

  /** The grouping key: the answer's text and whether it is correct. */
  datatype Key = Key(text: string, isCorrect: bool)

  function KeyOf(r: AnswerRow): Key
  {
    Key(Answers.GetAnswerText(r.answer), r.isCorrect)
  }

  /** The rows sharing a key, in the order they came, and the sum of their counts. */
  datatype Group = Group(key: Key, variants: seq<AnswerRow>, total: int)

  // ---------------------------------------------------------------------------------------
  // Aggregation

  /** The position of the group with key `k`, at or after `from`, or -1. */
  function IndexOfKeyFrom(groups: seq<Group>, k: Key, from: nat): (i: int)
    ensures i == -1 || from <= i < |groups|
    ensures i >= 0 ==> groups[i].key == k && forall j :: from <= j < i ==> groups[j].key != k
    ensures i == -1 ==> forall j :: from <= j < |groups| ==> groups[j].key != k
    decreases |groups| - from
  {
    if from >= |groups| then -1
    else if groups[from].key == k then from
    else IndexOfKeyFrom(groups, k, from + 1)
  }

  function IndexOfKey(groups: seq<Group>, k: Key): (i: int)
    ensures -1 <= i < |groups|
    ensures i >= 0 ==> groups[i].key == k
    ensures i == -1 ==> forall j :: 0 <= j < |groups| ==> groups[j].key != k
  {
    IndexOfKeyFrom(groups, k, 0)
  }

  /** One row added to the groups: joins the group of its key, or opens a new group at the
      end. */
  function AddRow(groups: seq<Group>, r: AnswerRow): seq<Group>
  {
    var i := IndexOfKey(groups, KeyOf(r));
    if i < 0 then groups + [Group(KeyOf(r), [r], r.count)]
    else groups[i := Group(groups[i].key, groups[i].variants + [r], groups[i].total + r.count)]
  }

  /** The groups of a list of rows, in the order their keys first appear. */
  function Aggregate(rows: seq<AnswerRow>): seq<Group>
  {
    if |rows| == 0 then [] else AddRow(Aggregate(rows[..|rows| - 1]), rows[|rows| - 1])
  }

  /** The rows with key `k`, in order. */
  function RowsWithKey(rows: seq<AnswerRow>, k: Key): (r: seq<AnswerRow>)
    ensures forall j :: 0 <= j < |r| ==> r[j] in rows && KeyOf(r[j]) == k
  {
    if |rows| == 0 then []
    else RowsWithKey(rows[..|rows| - 1], k) + (if KeyOf(rows[|rows| - 1]) == k then [rows[|rows| - 1]] else [])
  }

  /** The sum of the counts of the rows with key `k`. */
  function CountWithKey(rows: seq<AnswerRow>, k: Key): int
  {
    if |rows| == 0 then 0
    else CountWithKey(rows[..|rows| - 1], k) + (if KeyOf(rows[|rows| - 1]) == k then rows[|rows| - 1].count else 0)
  }

  predicate KeysDistinct(groups: seq<Group>)
  {
    forall i, j :: 0 <= i < j < |groups| ==> groups[i].key != groups[j].key
  }

  /** What the grouping means: one group per key that occurs, holding exactly the rows with
      that key, in order, and the sum of their counts. */
  predicate GroupsOf(groups: seq<Group>, rows: seq<AnswerRow>)
  {
    && KeysDistinct(groups)
    && (forall j :: 0 <= j < |groups| ==>
          && groups[j].variants == RowsWithKey(rows, groups[j].key)
          && groups[j].total == CountWithKey(rows, groups[j].key)
          && |groups[j].variants| > 0)
    && (forall i :: 0 <= i < |rows| ==> IndexOfKey(groups, KeyOf(rows[i])) >= 0)
  }

  lemma {:induction false} AggregateGroups(rows: seq<AnswerRow>)
    ensures GroupsOf(Aggregate(rows), rows)
    decreases |rows|
  {
    if |rows| > 0 {
      var init := rows[..|rows| - 1];
      var r := rows[|rows| - 1];
      assert rows == init + [r];
      assert Aggregate(rows) == AddRow(Aggregate(init), r);
      AggregateGroups(init);
      AddRowGroups(Aggregate(init), init, r);
    }
  }

  /** The rows with a key, and their sum, after one more row. */
  lemma RowsWithKeyStep(rows: seq<AnswerRow>, r: AnswerRow, k: Key)
    ensures RowsWithKey(rows + [r], k) == RowsWithKey(rows, k) + (if KeyOf(r) == k then [r] else [])
    ensures CountWithKey(rows + [r], k) == CountWithKey(rows, k) + (if KeyOf(r) == k then r.count else 0)
  {
    assert (rows + [r])[..|rows|] == rows;
  }

  lemma AddRowKeysDistinct(groups: seq<Group>, r: AnswerRow)
    requires KeysDistinct(groups)
    ensures KeysDistinct(AddRow(groups, r))
  {
  }

  lemma AddRowContents(groups: seq<Group>, rows: seq<AnswerRow>, r: AnswerRow)
    requires GroupsOf(groups, rows)
    ensures var ng := AddRow(groups, r);
      forall j :: 0 <= j < |ng| ==>
        && ng[j].variants == RowsWithKey(rows + [r], ng[j].key)
        && ng[j].total == CountWithKey(rows + [r], ng[j].key)
        && |ng[j].variants| > 0
  {
    var i := IndexOfKey(groups, KeyOf(r));
    var ng := AddRow(groups, r);
    forall j | 0 <= j < |ng|
      ensures ng[j].variants == RowsWithKey(rows + [r], ng[j].key)
      ensures ng[j].total == CountWithKey(rows + [r], ng[j].key)
      ensures |ng[j].variants| > 0
    {
      RowsWithKeyStep(rows, r, ng[j].key);
      if i < 0 && j == |groups| {
        forall m | 0 <= m < |rows| ensures KeyOf(rows[m]) != KeyOf(r) {
          assert IndexOfKey(groups, KeyOf(rows[m])) >= 0;
        }
        NoRowsWithKey(rows, KeyOf(r));
      }
    }
  }

  lemma AddRowCovers(groups: seq<Group>, rows: seq<AnswerRow>, r: AnswerRow)
    requires forall i :: 0 <= i < |rows| ==> IndexOfKey(groups, KeyOf(rows[i])) >= 0
    ensures var all := rows + [r];
      forall m :: 0 <= m < |all| ==> IndexOfKey(AddRow(groups, r), KeyOf(all[m])) >= 0
  {
    var all := rows + [r];
    var i := IndexOfKey(groups, KeyOf(r));
    var ng := AddRow(groups, r);
    forall m | 0 <= m < |all| ensures IndexOfKey(ng, KeyOf(all[m])) >= 0 {
      if m < |rows| {
        var g := IndexOfKey(groups, KeyOf(rows[m]));
        assert ng[g].key == KeyOf(all[m]);
      } else if i < 0 {
        assert ng[|groups|].key == KeyOf(r);
      } else {
        assert ng[i].key == KeyOf(r);
      }
    }
  }

  lemma AddRowGroups(groups: seq<Group>, rows: seq<AnswerRow>, r: AnswerRow)
    requires GroupsOf(groups, rows)
    ensures GroupsOf(AddRow(groups, r), rows + [r])
  {
    AddRowKeysDistinct(groups, r);
    AddRowContents(groups, rows, r);
    AddRowCovers(groups, rows, r);
  }

  /** A key no row has selects nothing and sums to nothing. */
  lemma {:induction false} NoRowsWithKey(rows: seq<AnswerRow>, k: Key)
    requires forall m :: 0 <= m < |rows| ==> KeyOf(rows[m]) != k
    ensures RowsWithKey(rows, k) == [] && CountWithKey(rows, k) == 0
    decreases |rows|
  {
    if |rows| > 0 {
      NoRowsWithKey(rows[..|rows| - 1], k);
    }
  }

  /** The grouping loop of the worker: a dictionary keyed by (text, correctness) kept in
      insertion order, here the sequence of its entries. */
  method AggregateAnswers(rows: seq<AnswerRow>) returns (groups: seq<Group>)
    ensures groups == Aggregate(rows)
    ensures GroupsOf(groups, rows)
  {
    groups := [];
    for n := 0 to |rows|
      invariant groups == Aggregate(rows[..n])
    {
      assert rows[..n + 1][..n] == rows[..n];
      var row := rows[n];
      var k := KeyOf(row);
      var i := IndexOfKey(groups, k);
      if i < 0 {
        groups := groups + [Group(k, [row], row.count)];
      } else {
        groups := groups[i := Group(groups[i].key, groups[i].variants + [row], groups[i].total + row.count)];
      }
    }
    assert rows[..|rows|] == rows;
    AggregateGroups(rows);
  }

  // ---------------------------------------------------------------------------------------
  // Representative answer of a group

  /** The first row at or after `from` whose feedback is in the assessor's language, or -1. */
  function EnglishIndexFrom(vs: seq<AnswerRow>, from: nat): (i: int)
    ensures i == -1 || from <= i < |vs|
    ensures i >= 0 ==> vs[i].feedbackLanguage == AssessorLanguage
    ensures i >= 0 ==> forall j :: from <= j < i ==> vs[j].feedbackLanguage != AssessorLanguage
    ensures i == -1 ==> forall j :: from <= j < |vs| ==> vs[j].feedbackLanguage != AssessorLanguage
    decreases |vs| - from
  {
    if from >= |vs| then -1
    else if vs[from].feedbackLanguage == AssessorLanguage then from
    else EnglishIndexFrom(vs, from + 1)
  }

  /** The answer that stands for a group: the first with English feedback, else the first. */
  function Representative(vs: seq<AnswerRow>): (r: AnswerRow)
    requires |vs| > 0
    ensures r in vs
    ensures (exists j :: 0 <= j < |vs| && vs[j].feedbackLanguage == AssessorLanguage) ==>
      r.feedbackLanguage == AssessorLanguage
    ensures r.feedbackLanguage == AssessorLanguage ==>
      exists j :: 0 <= j < |vs| && vs[j] == r && forall m :: 0 <= m < j ==> vs[m].feedbackLanguage != AssessorLanguage
    ensures r.feedbackLanguage != AssessorLanguage ==> r == vs[0]
  {
    var i := EnglishIndexFrom(vs, 0);
    if i >= 0 then vs[i] else vs[0]
  }

  /** The search loop over a group's rows. The worker raises for a group without rows, which
      the grouping never produces (AggregateGroups). */
  method ChooseRepresentative(vs: seq<AnswerRow>) returns (r: AnswerRow)
    requires |vs| > 0
    ensures r == Representative(vs)
  {
    var n := 0;
    while n < |vs| && vs[n].feedbackLanguage != AssessorLanguage
      invariant 0 <= n <= |vs|
      invariant EnglishIndexFrom(vs, 0) == EnglishIndexFrom(vs, n)
    {
      n := n + 1;
    }
    r := if n < |vs| then vs[n] else vs[0];
  }

  // ---------------------------------------------------------------------------------------
  // Summaries

  predicate NonEmptyGroups(groups: seq<Group>)
  {
    forall j :: 0 <= j < |groups| ==> |groups[j].variants| > 0
  }

  function SummaryOf(g: Group): AnswerSummary
    requires |g.variants| > 0
  {
    var rep := Representative(g.variants);
    AnswerSummary(rep.answer, g.total, rep.feedback)
  }

  /** The summaries of the groups whose correctness is `flag`, in group order. */
  function SummariesOf(groups: seq<Group>, flag: bool): (ss: seq<AnswerSummary>)
    requires NonEmptyGroups(groups)
    ensures |ss| == 0 <==> forall j :: 0 <= j < |groups| ==> groups[j].key.isCorrect != flag
  {
    if |groups| == 0 then []
    else
      var init := groups[..|groups| - 1];
      var g := groups[|groups| - 1];
      SummariesOf(init, flag) + (if g.key.isCorrect == flag then [SummaryOf(g)] else [])
  }

  /** The loop that splits the groups into correct and incorrect summaries. */
  method Partition(groups: seq<Group>) returns (correct: seq<AnswerSummary>, incorrect: seq<AnswerSummary>)
    requires NonEmptyGroups(groups)
    ensures correct == SummariesOf(groups, true)
    ensures incorrect == SummariesOf(groups, false)
  {
    correct := [];
    incorrect := [];
    for n := 0 to |groups|
      invariant correct == SummariesOf(groups[..n], true)
      invariant incorrect == SummariesOf(groups[..n], false)
    {
      assert groups[..n + 1][..n] == groups[..n];
      var g := groups[n];
      var rep := ChooseRepresentative(g.variants);
      var item := AnswerSummary(rep.answer, g.total, rep.feedback);
      if g.key.isCorrect {
        correct := correct + [item];
      } else {
        incorrect := incorrect + [item];
      }
    }
    assert groups[..|groups|] == groups;
  }

  /** There is a correct summary exactly when some stored answer is correct. */
  lemma CorrectSummaryExists(rows: seq<AnswerRow>)
    ensures NonEmptyGroups(Aggregate(rows))
    ensures |SummariesOf(Aggregate(rows), true)| > 0 <==> exists i :: 0 <= i < |rows| && rows[i].isCorrect
  {
    var groups := Aggregate(rows);
    AggregateGroups(rows);
    if i :| 0 <= i < |rows| && rows[i].isCorrect {
      var j := IndexOfKey(groups, KeyOf(rows[i]));
      assert groups[j].key.isCorrect;
    }
    if j :| 0 <= j < |groups| && groups[j].key.isCorrect {
      var v := groups[j].variants[0];
      assert v in rows && KeyOf(v) == groups[j].key;
      var i :| 0 <= i < |rows| && rows[i] == v;
      assert rows[i].isCorrect;
    }
  }

  // ---------------------------------------------------------------------------------------
  // Stable sort of the incorrect summaries, largest count first

  predicate SortedDesc(xs: seq<AnswerSummary>)
  {
    forall i, j :: 0 <= i < j < |xs| ==> xs[i].count >= xs[j].count
  }

  /** `x` placed after every entry whose count is at least its own. */
  function InsertDesc(xs: seq<AnswerSummary>, x: AnswerSummary): (r: seq<AnswerSummary>)
    ensures |r| == |xs| + 1
  {
    if |xs| == 0 then [x]
    else if xs[0].count >= x.count then [xs[0]] + InsertDesc(xs[1..], x)
    else [x] + xs
  }

  lemma {:induction false} InsertDescPermutation(xs: seq<AnswerSummary>, x: AnswerSummary)
    ensures multiset(InsertDesc(xs, x)) == multiset(xs) + multiset{x}
    decreases |xs|
  {
    if |xs| > 0 && xs[0].count >= x.count {
      InsertDescPermutation(xs[1..], x);
      assert xs == [xs[0]] + xs[1..];
    }
  }

  lemma {:induction false} InsertDescSorted(xs: seq<AnswerSummary>, x: AnswerSummary)
    requires SortedDesc(xs)
    ensures SortedDesc(InsertDesc(xs, x))
    decreases |xs|
  {
    if |xs| > 0 && xs[0].count >= x.count {
      var rest := InsertDesc(xs[1..], x);
      InsertDescSorted(xs[1..], x);
      InsertDescPermutation(xs[1..], x);
      forall k | 0 <= k < |rest| ensures xs[0].count >= rest[k].count {
        assert rest[k] in multiset(rest);
        assert rest[k] in multiset(xs[1..]) || rest[k] == x;
      }
    }
  }

  /** The sorted order the worker's stable descending sort produces. */
  function SortDesc(xs: seq<AnswerSummary>): (r: seq<AnswerSummary>)
    ensures |r| == |xs|
  {
    if |xs| == 0 then [] else InsertDesc(SortDesc(xs[..|xs| - 1]), xs[|xs| - 1])
  }

  /** The sort orders by count, largest first, and keeps every entry. */
  lemma {:induction false} SortDescSortedPermutation(xs: seq<AnswerSummary>)
    ensures SortedDesc(SortDesc(xs))
    ensures multiset(SortDesc(xs)) == multiset(xs)
    decreases |xs|
  {
    if |xs| > 0 {
      var init := xs[..|xs| - 1];
      SortDescSortedPermutation(init);
      InsertDescSorted(SortDesc(init), xs[|xs| - 1]);
      InsertDescPermutation(SortDesc(init), xs[|xs| - 1]);
      assert xs == init + [xs[|xs| - 1]];
    }
  }

  /** The entries with count `c`, in order. */
  function WithCount(xs: seq<AnswerSummary>, c: int): (r: seq<AnswerSummary>)
    ensures forall k :: 0 <= k < |r| ==> r[k] in xs && r[k].count == c
  {
    if |xs| == 0 then []
    else (if xs[0].count == c then [xs[0]] else []) + WithCount(xs[1..], c)
  }

  lemma {:induction false} WithCountAppend(a: seq<AnswerSummary>, b: seq<AnswerSummary>, c: int)
    ensures WithCount(a + b, c) == WithCount(a, c) + WithCount(b, c)
    decreases |a|
  {
    if |a| > 0 {
      var head := if a[0].count == c then [a[0]] else [];
      assert (a + b)[0] == a[0];
      assert (a + b)[1..] == a[1..] + b;
      WithCountAppend(a[1..], b, c);
      calc {
        WithCount(a + b, c);
        head + WithCount(a[1..] + b, c);
        head + (WithCount(a[1..], c) + WithCount(b, c));
        (head + WithCount(a[1..], c)) + WithCount(b, c);
        WithCount(a, c) + WithCount(b, c);
      }
    } else {
      assert a + b == b;
    }
  }

  lemma {:induction false} InsertDescStable(xs: seq<AnswerSummary>, x: AnswerSummary, c: int)
    requires SortedDesc(xs)
    ensures WithCount(InsertDesc(xs, x), c) == WithCount(xs, c) + (if x.count == c then [x] else [])
    decreases |xs|
  {
    var e := if x.count == c then [x] else [];
    if |xs| == 0 {
    } else if xs[0].count >= x.count {
      var tail := xs[1..];
      var h := if xs[0].count == c then [xs[0]] else [];
      SortedDescTail(xs);
      InsertDescStable(tail, x, c);
      WithCountCons(xs[0], InsertDesc(tail, x), c);
      WithCountCons(xs[0], tail, c);
      assert xs == [xs[0]] + tail;
      calc {
        WithCount(InsertDesc(xs, x), c);
        WithCount([xs[0]] + InsertDesc(tail, x), c);
        h + WithCount(InsertDesc(tail, x), c);
        h + (WithCount(tail, c) + e);
        (h + WithCount(tail, c)) + e;
        WithCount(xs, c) + e;
      }
    } else {
      InsertBeforeAll(xs, x, c);
    }
  }

  lemma SortedDescTail(xs: seq<AnswerSummary>)
    requires |xs| > 0 && SortedDesc(xs)
    ensures SortedDesc(xs[1..])
  {
    var tail := xs[1..];
    forall i, j | 0 <= i < j < |tail| ensures tail[i].count >= tail[j].count {
      assert tail[i] == xs[i + 1] && tail[j] == xs[j + 1];
    }
  }

  /** An entry with a larger count than the head of a sorted list goes first, and no entry
      of the list shares its count. */
  lemma InsertBeforeAll(xs: seq<AnswerSummary>, x: AnswerSummary, c: int)
    requires SortedDesc(xs) && |xs| > 0 && xs[0].count < x.count
    ensures WithCount([x] + xs, c) == WithCount(xs, c) + (if x.count == c then [x] else [])
  {
    forall k | 0 <= k < |xs| ensures xs[k].count != x.count {
      assert xs[k].count <= xs[0].count;
    }
    if x.count == c {
      WithCountNone(xs, c);
    }
    WithCountCons(x, xs, c);
  }

  lemma WithCountCons(y: AnswerSummary, ys: seq<AnswerSummary>, c: int)
    ensures WithCount([y] + ys, c) == (if y.count == c then [y] else []) + WithCount(ys, c)
  {
    assert ([y] + ys)[1..] == ys;
  }

  lemma {:induction false} WithCountNone(xs: seq<AnswerSummary>, c: int)
    requires forall k :: 0 <= k < |xs| ==> xs[k].count != c
    ensures WithCount(xs, c) == []
    decreases |xs|
  {
    if |xs| > 0 {
      WithCountNone(xs[1..], c);
    }
  }

  /** The sort is stable: the entries of any one count keep their original order. */
  lemma {:induction false} SortDescStable(xs: seq<AnswerSummary>, c: int)
    ensures WithCount(SortDesc(xs), c) == WithCount(xs, c)
    decreases |xs|
  {
    if |xs| > 0 {
      var init := xs[..|xs| - 1];
      var last := xs[|xs| - 1];
      SortDescStable(init, c);
      SortDescSortedPermutation(init);
      InsertDescStable(SortDesc(init), last, c);
      assert xs == init + [last];
      WithCountAppend(init, [last], c);
      assert WithCount([last], c) == (if last.count == c then [last] else []) by {
        assert [last][1..] == [];
      }
    }
  }

  /** Where the search stops, splicing `x` in gives the reference insertion. */
  lemma {:induction false} InsertAtPosition(ys: seq<AnswerSummary>, x: AnswerSummary, pos: nat)
    requires pos <= |ys|
    requires forall k :: 0 <= k < pos ==> ys[k].count >= x.count
    requires pos == |ys| || ys[pos].count < x.count
    ensures ys[..pos] + [x] + ys[pos..] == InsertDesc(ys, x)
    decreases pos
  {
    if pos == 0 {
      assert ys[pos..] == ys;
    } else {
      InsertAtPosition(ys[1..], x, pos - 1);
      assert ys[..pos] == [ys[0]] + ys[1..][..pos - 1];
      assert ys[pos..] == ys[1..][pos - 1..];
    }
  }

  /** `list.sort(key=count, reverse=True)`: insertion of each entry after those whose count is
      at least its own. */
  method SortByCountDesc(xs: seq<AnswerSummary>) returns (ys: seq<AnswerSummary>)
    ensures ys == SortDesc(xs)
  {
    ys := [];
    for n := 0 to |xs|
      invariant ys == SortDesc(xs[..n])
    {
      assert xs[..n + 1][..n] == xs[..n];
      var x := xs[n];
      var pos := 0;
      while pos < |ys| && ys[pos].count >= x.count
        invariant 0 <= pos <= |ys|
        invariant forall k :: 0 <= k < pos ==> ys[k].count >= x.count
      {
        pos := pos + 1;
      }
      InsertAtPosition(ys, x, pos);
      ys := ys[..pos] + [x] + ys[pos..];
    }
    assert xs[..|xs|] == xs;
  }

  // ---------------------------------------------------------------------------------------
  // Status decision

  function UpperChar(c: char): char
  {
    if 'a' <= c <= 'z' then (c as int - 32) as char else c
  }

  /** `s.upper()` on ASCII letters. */
  function Upper(s: string): (r: string)
    ensures |r| == |s| && forall k :: 0 <= k < |s| ==> r[k] == UpperChar(s[k])
  {
    seq(|s|, k requires 0 <= k < |s| => UpperChar(s[k]))
  }

  /** The suggested action mentions `word`, ignoring case. */
  predicate ActionHas(a: Analysis, word: string)
    requires |word| > 0
  {
    Contains(Upper(a.action), word)
  }

  /** An explicit signal to publish: PUBLISH_OK, or KEEP_AS_IS_COMPLEX for a sound exercise. */
  predicate PublishSignal(a: Analysis)
  {
    ActionHas(a, "PUBLISH_OK") || (ActionHas(a, "KEEP_AS_IS_COMPLEX") && !a.flawed)
  }

  /** A signal to archive: a flawed exercise, or ARCHIVE in the action. */
  predicate ArchiveSignal(a: Analysis)
  {
    a.flawed || ActionHas(a, "ARCHIVE")
  }

  /** The new status for a verdict. A suggested revision always goes to an administrator;
      otherwise publishing needs an explicit signal, and everything without one ends archived
      unless the action asks for an administrator. */
  function Decide(a: Analysis): (s: Enums.ExerciseStatus)
    ensures s == Enums.PendingAdminReview || s == Enums.Published || s == Enums.Archived
    ensures s == Enums.Published <==> !Truthy(a.revision) && PublishSignal(a)
    ensures s == Enums.PendingAdminReview <==>
      Truthy(a.revision) || (!PublishSignal(a) && !ArchiveSignal(a) && ActionHas(a, "PENDING_ADMIN_REVIEW"))
    ensures a.flawed && s == Enums.Published ==> ActionHas(a, "PUBLISH_OK")
  {
    if Truthy(a.revision) then Enums.PendingAdminReview
    else if PublishSignal(a) then Enums.Published
    else if ArchiveSignal(a) then Enums.Archived
    else if ActionHas(a, "PENDING_ADMIN_REVIEW") && !Truthy(a.revision) then Enums.PendingAdminReview
    else Enums.Archived
  }

  /** An action written in capitals is its own upper-case form. */
  lemma UpperOfCapitals(s: string)
    requires forall k :: 0 <= k < |s| ==> !('a' <= s[k] <= 'z')
    ensures Upper(s) == s
  {
  }

  /** Every choose-accent verdict leads where its wording says: a failed call or an uncommon
      word to the archive, a common word with high confidence to publication, and a common
      word with lower confidence to an administrator. */
  lemma ChooseAccentDecisions(word: string, level: string, outcome: Result<WordAnalysis, string>)
    ensures var s := Decide(ChooseAccentVerdict(word, level, outcome));
      && (outcome.Err? ==> s == Enums.Archived)
      && (outcome.Ok? && !outcome.value.commonAndKnown ==> s == Enums.Archived)
      && (outcome.Ok? && outcome.value.commonAndKnown && outcome.value.confidence == "HIGH" ==> s == Enums.Published)
      && (outcome.Ok? && outcome.value.commonAndKnown && outcome.value.confidence != "HIGH" ==>
            s == Enums.PendingAdminReview)
  {
    var a := ChooseAccentVerdict(word, level, outcome);
    if a.action == "ARCHIVE" {
      ArchiveActionArchives(a);
    } else if a.action == "PUBLISH_OK" {
      PublishActionPublishes(a);
    }
  }

  /** A flawed verdict whose action is ARCHIVE and that suggests no revision is archived. */
  lemma ArchiveActionArchives(a: Analysis)
    requires a.flawed && a.action == "ARCHIVE" && a.revision.None?
    ensures Decide(a) == Enums.Archived
  {
    UpperOfCapitals("ARCHIVE");
    MissingCharNoOccurrence("ARCHIVE", "PUBLISH_OK", 0);
    MissingCharNoOccurrence("ARCHIVE", "KEEP_AS_IS_COMPLEX", 0);
    assert !PublishSignal(a);
  }

  /** A verdict whose action is PUBLISH_OK and that suggests no revision is published. */
  lemma PublishActionPublishes(a: Analysis)
    requires a.action == "PUBLISH_OK" && a.revision.None?
    ensures Decide(a) == Enums.Published
  {
    UpperOfCapitals("PUBLISH_OK");
    assert OccursAt("PUBLISH_OK", "PUBLISH_OK", 0);
    assert PublishSignal(a);
  }

  // ---------------------------------------------------------------------------------------
  // Reason and comment entry

  /** The reason recorded with the decision. */
  function ReasonFor(a: Analysis, s: Enums.ExerciseStatus): string
  {
    var tail := "(Action: " + a.action + ", Flawed: " + BoolText(a.flawed) + "). ";
    match s
    case PendingAdminReview =>
      if Truthy(a.revision) then
        "Reason: " + a.reason + ". Assessor suggested revision: '" + a.revision.value + "'. " + tail
          + "Status set to PENDING_ADMIN_REVIEW."
      else
        "Reason: " + a.reason + ". Needs admin verification. " + tail + "Status set to PENDING_ADMIN_REVIEW."
    case Published =>
      if ActionHas(a, "KEEP_AS_IS_COMPLEX") then
        "Assessor: complex but correct. No revision suggested. Status set to PUBLISHED."
      else if ActionHas(a, "PUBLISH_OK") then "Assessor: exercise is OK. Status set to PUBLISHED."
      else "Assessor: reviewed and approved. Status set to PUBLISHED."
    case Archived =>
      if ArchiveSignal(a) then "Reason: " + a.reason + ". " + tail + "Status set to ARCHIVED."
      else
        "Reason: " + a.reason + ". Defaulted to ARCHIVE as no clear publish/admin_review signal. "
          + "(Action: " + a.action + ", Flawed: " + BoolText(a.flawed) + ", Complex: "
          + BoolText(a.complexButCorrect) + ")."
    case _ => "Unhandled status path for " + Enums.StatusValue(s)
  }

  /** The lines of one review entry. */
  function CommentParts(a: Analysis, s: Enums.ExerciseStatus, timestamp: string): (parts: seq<string>)
    ensures |parts| == (if Truthy(a.revision) then 7 else 6)
    ensures parts[0] == "Review at " + timestamp
    ensures parts[1] == "  Assessor Conclusion: " + a.reason
    ensures parts[2] == "  Assessor Suggested Action: " + a.action
    ensures Truthy(a.revision) ==> parts[5] == "  Assessor Suggested Revision: " + a.revision.value
    ensures parts[|parts| - 1] == "  Processor Action: Status changed to " + Enums.StatusValue(s)
  {
    ["Review at " + timestamp,
     "  Assessor Conclusion: " + a.reason,
     "  Assessor Suggested Action: " + a.action,
     "  Is Flawed: " + BoolText(a.flawed),
     "  Is Complex but Correct: " + BoolText(a.complexButCorrect)]
    + (if Truthy(a.revision) then ["  Assessor Suggested Revision: " + a.revision.value] else [])
    + ["  Processor Action: Status changed to " + Enums.StatusValue(s)]
  }

  /** The entry appended to the comments: a separator line, then the parts one per line. */
  function CommentEntry(a: Analysis, s: Enums.ExerciseStatus, timestamp: string): string
  {
    "\n---\n" + Join(CommentParts(a, s, timestamp), "\n")
  }

  // ---------------------------------------------------------------------------------------
  // One exercise, one cycle

  /** What the language model would reply for this exercise: to the dedicated choose-accent
      question, how each answer reads inside the exercise text, and to the general question
      given the two answer texts. */
  datatype AssessorReplies = AssessorReplies(
    accent: Result<WordAnalysis, string>,
    context: Answers.Answer -> Result<string, TextError>,
    general: (string, string) -> Result<Analysis, string>)

  /** An exercise waiting in review, with its stored answers. */
  datatype PendingExercise = PendingExercise(
    id: Option<int>,
    kind: Enums.ExerciseType,
    accentOptions: Option<seq<string>>,
    level: string,
    comments: Option<string>,
    rows: seq<AnswerRow>,
    replies: AssessorReplies)

  datatype ReviewDecision = ReviewDecision(exerciseId: int, newStatus: Enums.ExerciseStatus, reason: string)

  /** A status write, with new comments or leaving them as they are. */
  datatype StoreUpdate = StoreUpdate(status: Enums.ExerciseStatus, comments: Option<string>)

  datatype ReviewStep = Skipped | Reviewed(decision: ReviewDecision, update: Option<StoreUpdate>)

  const NoAnswersReason: string := "No ExerciseAnswers (with counts) found."
  const NoCorrectReason: string := "No correct reference answers found in ExerciseAnswers (with counts)."

  /** The assessor's verdict on an exercise from its summaries. */
  function AssessExercise(ex: PendingExercise, correct: seq<AnswerSummary>, incorrect: seq<AnswerSummary>)
    : Result<Analysis, AssessError>
  {
    AssessPendingExercise(ex.kind, ex.accentOptions, ex.level, ex.replies.accent, correct, incorrect,
                          ex.replies.context, ex.replies.general)
  }

  function ErrorText(e: AssessError): string
  {
    match e
    case InvalidChooseAccentData => "Invalid CHOOSE_ACCENT exercise data."
    case AnswerTextFailed => "answer text could not be rendered"
    case LlmFailed(m) => m
  }

  /** What reviewing an exercise decides, given the verdict the assessor returns for it. */
  function Decision(id: int, ex: PendingExercise, verdict: Result<Analysis, AssessError>, timestamp: string): ReviewStep
  {
    match verdict
    case Err(e) => Reviewed(ReviewDecision(id, Enums.PendingReview, "Assessment error: " + ErrorText(e)), None)
    case Ok(a) =>
      var s := Decide(a);
      var old_ := if ex.comments.Some? then ex.comments.value else "";
      Reviewed(ReviewDecision(id, s, ReasonFor(a, s)), Some(StoreUpdate(s, Some(old_ + CommentEntry(a, s, timestamp)))))
  }

  /** The review of one exercise. */
  function Review(ex: PendingExercise, timestamp: string): ReviewStep
  {
    if ex.id.None? then Skipped
    else if |ex.rows| == 0 then
      Reviewed(ReviewDecision(ex.id.value, Enums.Archived, NoAnswersReason), Some(StoreUpdate(Enums.Archived, None)))
    else
      var groups := Aggregate(ex.rows);
      CorrectSummaryExists(ex.rows);
      var correct := SummariesOf(groups, true);
      if |correct| == 0 then
        Reviewed(ReviewDecision(ex.id.value, Enums.Archived, NoCorrectReason), Some(StoreUpdate(Enums.Archived, None)))
      else
        var incorrect := SortDesc(SummariesOf(groups, false));
        Decision(ex.id.value, ex, AssessExercise(ex, correct, incorrect), timestamp)
  }

  /** The review of one exercise as the worker carries it out. */
  method ReviewExercise(ex: PendingExercise, timestamp: string) returns (step: ReviewStep)
    ensures step == Review(ex, timestamp)
  {
    if ex.id.None? {
      return Skipped;
    }
    var id := ex.id.value;
    if |ex.rows| == 0 {
      return Reviewed(ReviewDecision(id, Enums.Archived, NoAnswersReason), Some(StoreUpdate(Enums.Archived, None)));
    }
    var groups := AggregateAnswers(ex.rows);
    CorrectSummaryExists(ex.rows);
    var correct, incorrect := Partition(groups);
    if |correct| == 0 {
      return Reviewed(ReviewDecision(id, Enums.Archived, NoCorrectReason), Some(StoreUpdate(Enums.Archived, None)));
    }
    incorrect := SortByCountDesc(incorrect);
    var verdict := AssessExercise(ex, correct, incorrect);
    step := Decision(id, ex, verdict, timestamp);
  }

  /** An exercise without stored answers is archived without consulting the assessor. */
  lemma NoAnswersArchived(ex: PendingExercise, timestamp: string)
    requires ex.id.Some? && |ex.rows| == 0
    ensures Review(ex, timestamp) ==
      Reviewed(ReviewDecision(ex.id.value, Enums.Archived, NoAnswersReason), Some(StoreUpdate(Enums.Archived, None)))
  {
  }

  /** An exercise whose stored answers are all incorrect is archived without consulting the
      assessor. */
  lemma NoCorrectAnswerArchived(ex: PendingExercise, timestamp: string)
    requires ex.id.Some? && |ex.rows| > 0
    requires forall i :: 0 <= i < |ex.rows| ==> !ex.rows[i].isCorrect
    ensures Review(ex, timestamp) ==
      Reviewed(ReviewDecision(ex.id.value, Enums.Archived, NoCorrectReason), Some(StoreUpdate(Enums.Archived, None)))
  {
    CorrectSummaryExists(ex.rows);
  }

  /** When the assessor fails, the decision keeps the exercise in review and nothing is
      written; otherwise the status is the verdict's decision and the comments grow by
      exactly one entry. */
  lemma AssessedOutcome(ex: PendingExercise, timestamp: string)
    requires ex.id.Some? && exists i :: 0 <= i < |ex.rows| && ex.rows[i].isCorrect
    ensures var groups := Aggregate(ex.rows);
      NonEmptyGroups(groups) &&
      var verdict := AssessExercise(ex, SummariesOf(groups, true), SortDesc(SummariesOf(groups, false)));
      var step := Review(ex, timestamp);
      && step.Reviewed?
      && (verdict.Err? ==> step.decision.newStatus == Enums.PendingReview && step.update.None?)
      && (verdict.Ok? ==>
            && step.decision.newStatus == Decide(verdict.value)
            && step.update == Some(StoreUpdate(Decide(verdict.value),
                 Some((if ex.comments.Some? then ex.comments.value else "")
                      + CommentEntry(verdict.value, Decide(verdict.value), timestamp)))))
  {
    CorrectSummaryExists(ex.rows);
  }

  /** The stored statuses and comments of exercises. */
  datatype StoreState = StoreState(status: map<int, Enums.ExerciseStatus>, comments: map<int, string>)

  function ApplyStep(st: StoreState, step: ReviewStep): StoreState
  {
    if step.Skipped? || step.update.None? then st
    else
      var u := step.update.value;
      var id := step.decision.exerciseId;
      StoreState(st.status[id := u.status],
                 if u.comments.Some? then st.comments[id := u.comments.value] else st.comments)
  }

  /** The exercises one cycle takes up: the first ten waiting. */
  function Batch(pending: seq<PendingExercise>): (b: seq<PendingExercise>)
    ensures |b| <= MaxExercisesPerCycle
  {
    if |pending| <= MaxExercisesPerCycle then pending else pending[..MaxExercisesPerCycle]
  }

  /** The decisions of a run over `exs`, in order. */
  function CycleDecisions(exs: seq<PendingExercise>, timestamp: string): (ds: seq<ReviewDecision>)
    ensures |ds| <= |exs|
  {
    if |exs| == 0 then []
    else
      var step := Review(exs[|exs| - 1], timestamp);
      CycleDecisions(exs[..|exs| - 1], timestamp) + (if step.Reviewed? then [step.decision] else [])
  }

  /** The store after a run over `exs`. */
  function CycleState(st: StoreState, exs: seq<PendingExercise>, timestamp: string): StoreState
  {
    if |exs| == 0 then st
    else ApplyStep(CycleState(st, exs[..|exs| - 1], timestamp), Review(exs[|exs| - 1], timestamp))
  }

  /** A run over one more exercise adds that exercise's decision and applies its update. */
  lemma CycleExtends(st: StoreState, exs: seq<PendingExercise>, n: nat, timestamp: string)
    requires n < |exs|
    ensures var step := Review(exs[n], timestamp);
      CycleDecisions(exs[..n + 1], timestamp) == CycleDecisions(exs[..n], timestamp) + (if step.Reviewed? then [step.decision] else [])
    ensures CycleState(st, exs[..n + 1], timestamp) == ApplyStep(CycleState(st, exs[..n], timestamp), Review(exs[n], timestamp))
  {
    assert exs[..n + 1][..n] == exs[..n];
  }

  /** Only exercises of the run change. */
  lemma {:induction false} CycleTouchesOnlyReviewed(st: StoreState, exs: seq<PendingExercise>, timestamp: string, id: int)
    requires forall k :: 0 <= k < |exs| ==> exs[k].id != Some(id)
    ensures id in st.status ==>
      (id in CycleState(st, exs, timestamp).status && CycleState(st, exs, timestamp).status[id] == st.status[id])
    ensures id !in st.status ==> id !in CycleState(st, exs, timestamp).status
    ensures id in st.comments ==>
      (id in CycleState(st, exs, timestamp).comments && CycleState(st, exs, timestamp).comments[id] == st.comments[id])
    ensures id !in st.comments ==> id !in CycleState(st, exs, timestamp).comments
    decreases |exs|
  {
    if |exs| > 0 {
      CycleTouchesOnlyReviewed(st, exs[..|exs| - 1], timestamp, id);
      var ex := exs[|exs| - 1];
      ReviewDecidesOwnExercise(ex, timestamp);
      ApplyStepElsewhere(CycleState(st, exs[..|exs| - 1], timestamp), Review(ex, timestamp), id);
    }
  }

  /** A reviewed exercise's decision carries that exercise's id. */
  lemma ReviewDecidesOwnExercise(ex: PendingExercise, timestamp: string)
    ensures Review(ex, timestamp).Reviewed? ==> ex.id.Some? && Review(ex, timestamp).decision.exerciseId == ex.id.value
  {
  }

  /** A step about another exercise leaves the rows of `id` as they were. */
  lemma ApplyStepElsewhere(st: StoreState, step: ReviewStep, id: int)
    requires !(step.Reviewed? && step.update.Some? && step.decision.exerciseId == id)
    ensures id in ApplyStep(st, step).status <==> id in st.status
    ensures id in st.status ==> ApplyStep(st, step).status[id] == st.status[id]
    ensures id in ApplyStep(st, step).comments <==> id in st.comments
    ensures id in st.comments ==> ApplyStep(st, step).comments[id] == st.comments[id]
  {
  }

  /** The exercise store the worker writes to. */
  class ExerciseStore {
    var status: map<int, Enums.ExerciseStatus>
    var comments: map<int, string>

    constructor(status0: map<int, Enums.ExerciseStatus>, comments0: map<int, string>)
      ensures status == status0 && comments == comments0
    {
      status := status0;
      comments := comments0;
    }

    /** `update_exercise_status_and_data`: comments are written only when given. */
    method Update(id: int, u: StoreUpdate)
      modifies this
      ensures status == old(status)[id := u.status]
      ensures comments == if u.comments.Some? then old(comments)[id := u.comments.value] else old(comments)
    {
      status := status[id := u.status];
      if u.comments.Some? {
        comments := comments[id := u.comments.value];
      }
    }

    /** `exercise_review_processor`: one cycle over the first ten exercises waiting in review;
        exercises without an id are skipped. */
    method ProcessCycle(pending: seq<PendingExercise>, timestamp: string) returns (decisions: seq<ReviewDecision>)
      modifies this
      ensures decisions == CycleDecisions(Batch(pending), timestamp)
      ensures StoreState(status, comments) == CycleState(StoreState(old(status), old(comments)), Batch(pending), timestamp)
    {
      var batch := Batch(pending);
      ghost var start := StoreState(status, comments);
      decisions := [];
      for n := 0 to |batch|
        invariant decisions == CycleDecisions(batch[..n], timestamp)
        invariant StoreState(status, comments) == CycleState(start, batch[..n], timestamp)
      {
        CycleExtends(start, batch, n, timestamp);
        var step := ReviewExercise(batch[n], timestamp);
        if step.Reviewed? {
          decisions := decisions + [step.decision];
          if step.update.Some? {
            Update(step.decision.exerciseId, step.update.value);
          }
        }
      }
      assert batch[..|batch|] == batch;
    }
  }
}
