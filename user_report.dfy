/**
 * The user report service: a learner's request for the detailed weekly report, the
 * formatting of topic tags for the summary handed to the model, and the two weekly windows
 * the detailed report looks at. The report rows the repository returns are a parameter;
 * the job queue the request writes to is a field.
 */
module UserReports {
  import opened Wrappers
  import opened Strings
  import opened Enums
  import opened Profiles
  import opened Reports

  const GenerateJobName: string := "generate_and_send_detailed_report_arq"
  /** How many tags a summary line names by default. */
  const TopTagsCount: int := 7

  datatype RequestError = ReportNotFound

  // ---------------------------------------------------------------------------------------
  // Requesting the detailed report

  predicate BelongsTo(q: UserReport, userId: int, botId: string)
  {
    q.userId == userId && q.botId == botId
  }

  /** The learner's report with the latest week start (the first of equal ones). */
  function Latest(rows: seq<UserReport>, userId: int, botId: string): (r: Option<UserReport>)
    ensures r.None? <==> forall q :: q in rows ==> !BelongsTo(q, userId, botId)
    ensures r.Some? ==> r.value in rows && BelongsTo(r.value, userId, botId)
    ensures r.Some? ==> forall q :: q in rows && BelongsTo(q, userId, botId) ==> q.weekStartDay <= r.value.weekStartDay
  {
    if |rows| == 0 then None
    else
      var rest := Latest(rows[1..], userId, botId);
      assert forall q :: q in rows ==> q == rows[0] || q in rows[1..];
      if BelongsTo(rows[0], userId, botId) && (rest.None? || rest.value.weekStartDay <= rows[0].weekStartDay)
      then Some(rows[0])
      else rest
  }

  /** A report whose detailed version is on its way or done: the request only reports it. */
  predicate InProgress(s: ReportStatus)
  {
    s == Generating || s == Generated || s == Sent
  }

  /** `request_detailed_report`: the status answered and the jobs enqueued. */
  function Request(profile: Option<Profile>, rows: seq<UserReport>): (Result<ReportStatus, RequestError>, seq<Job>)
  {
    match profile
    case None => (Err(ReportNotFound), [])
    case Some(p) =>
      match Latest(rows, p.userId, BotIdValue(p.botId))
      case None => (Err(ReportNotFound), [])
      case Some(q) =>
        if InProgress(q.status) then (Ok(q.status), [])
        else (Ok(Generating), [Job(GenerateJobName, q.reportId, 0)])
  }

  /** What a request promises: no profile or no report is an error with nothing enqueued; a
      report on its way or done is answered with its status and nothing enqueued; any other
      latest report (PENDING or FAILED) gets exactly one generation job and the answer
      GENERATING. Every success answers a status that is on its way or done. */
  lemma RequestOutcomes(profile: Option<Profile>, rows: seq<UserReport>)
    ensures var (r, jobs) := Request(profile, rows);
      && (r.Err? <==> profile.None? || Latest(rows, profile.value.userId, BotIdValue(profile.value.botId)).None?)
      && (r.Err? ==> jobs == [])
      && (r.Ok? ==> InProgress(r.value))
      && (r.Ok? ==>
            var q := Latest(rows, profile.value.userId, BotIdValue(profile.value.botId)).value;
            && (InProgress(q.status) ==> r.value == q.status && jobs == [])
            && (!InProgress(q.status) ==> r.value == Generating && jobs == [Job(GenerateJobName, q.reportId, 0)]))
  {
  }

  /** The request path as the service runs it: the queue receives the jobs `Request` names. */
  class ReportRequests {
    var jobs: seq<Job>

    constructor()
      ensures jobs == []
    {
      jobs := [];
    }

    method RequestDetailedReport(profile: Option<Profile>, rows: seq<UserReport>) returns (r: Result<ReportStatus, RequestError>)
      modifies this
      ensures r == Request(profile, rows).0
      ensures jobs == old(jobs) + Request(profile, rows).1
    {
      if profile.None? {
        return Err(ReportNotFound);
      }
      var p := profile.value;
      var latest := Latest(rows, p.userId, BotIdValue(p.botId));
      if latest.None? {
        return Err(ReportNotFound);
      }
      var q := latest.value;
      if InProgress(q.status) {
        return Ok(q.status);
      }
      jobs := jobs + [Job(GenerateJobName, q.reportId, 0)];
      r := Ok(Generating);
    }
  }

  /** As written, a report whose profile went missing during generation stays GENERATING,
      and every later request answers GENERATING without enqueuing anything. */
  lemma AsWrittenStuckReportNeverRequeued(q: UserReport, w: GenerationWorld, p: Profile)
    requires q.status == Pending && q.botId == BotIdValue(Bulgarian) && !w.profileFound
    requires BelongsTo(q, p.userId, BotIdValue(p.botId))
    ensures var after := GenerateAsWritten(q, w).0;
      Request(Some(p), [after]) == (Ok(Generating), [])
  {
    AsWrittenMissingProfileStaysGenerating(q, w);
  }

  /** As written, a FAILED report gets a job and the answer GENERATING, but the job refuses
      every report that is not PENDING: the report stays FAILED and the answer never comes
      true. */
  lemma AsWrittenFailedReportNeverRetried(q: UserReport, p: Profile)
    requires q.status == Failed && BelongsTo(q, p.userId, BotIdValue(p.botId))
    ensures Request(Some(p), [q]) == (Ok(Generating), [Job(GenerateJobName, q.reportId, 0)])
    ensures !AcceptsAsWritten(q.status)
  {
  }

  /** With missing profiles marked FAILED and FAILED reports accepted again, the answer
      GENERATING always holds: either the report is generating, or the job enqueued for it is
      accepted by the worker and settles it as GENERATED or FAILED. */
  lemma RequestedReportIsProcessed(profile: Option<Profile>, rows: seq<UserReport>, w: GenerationWorld)
    requires Request(profile, rows).0 == Ok(Generating)
    ensures var q := Latest(rows, profile.value.userId, BotIdValue(profile.value.botId)).value;
      || (q.status == Generating && Request(profile, rows).1 == [])
      || (&& Request(profile, rows).1 == [Job(GenerateJobName, q.reportId, 0)]
          && Accepts(q.status)
          && Generate(q, w).0.status in {Generated, Failed})
  {
    var q := Latest(rows, profile.value.userId, BotIdValue(profile.value.botId)).value;
    GenerationSettles(q, w);
  }

  // ---------------------------------------------------------------------------------------
  // Tag summaries

  /** One entry of a tag dictionary: the tag and how often it occurred. */
  datatype TagCount = TagCount(tag: string, count: int)

  predicate Descending(xs: seq<TagCount>)
  {
    forall i, j :: 0 <= i < j < |xs| ==> xs[i].count >= xs[j].count
  }

  /** Places `x` after every entry of `sorted` with a count at least as large. */
  function InsertByCount(sorted: seq<TagCount>, x: TagCount): (r: seq<TagCount>)
    ensures multiset(r) == multiset(sorted) + multiset{x}
    ensures |r| == |sorted| + 1
  {
    if |sorted| == 0 then [x]
    else if sorted[0].count >= x.count then
      assert sorted == [sorted[0]] + sorted[1..];
      [sorted[0]] + InsertByCount(sorted[1..], x)
    else [x] + sorted
  }

  /** `sorted(items, key=count, reverse=True)`: a stable sort by count, largest first. */
  function SortByCount(items: seq<TagCount>): seq<TagCount>
  {
    if |items| == 0 then []
    else InsertByCount(SortByCount(items[..|items| - 1]), items[|items| - 1])
  }

  /** Every entry of `xs` has a count of at most `b`. */
  predicate Bounded(xs: seq<TagCount>, b: int)
  {
    forall k :: 0 <= k < |xs| ==> xs[k].count <= b
  }

  /** An entry at least as large as every entry of a descending list may go in front of it. */
  lemma DescendingCons(h: TagCount, t: seq<TagCount>)
    requires Descending(t) && Bounded(t, h.count)
    ensures Descending([h] + t)
  {
    var r := [h] + t;
    forall i, j | 0 <= i < j < |r| ensures r[i].count >= r[j].count {
      assert r[j] == t[j - 1];
      if i > 0 {
        assert r[i] == t[i - 1];
      }
    }
  }

  lemma {:induction false} InsertKeepsBound(sorted: seq<TagCount>, x: TagCount, b: int)
    requires Bounded(sorted, b) && x.count <= b
    ensures Bounded(InsertByCount(sorted, x), b)
  {
    if |sorted| > 0 && sorted[0].count >= x.count {
      InsertKeepsBound(sorted[1..], x, b);
      var r := InsertByCount(sorted, x);
      assert r == [sorted[0]] + InsertByCount(sorted[1..], x);
      forall k | 0 < k < |r| ensures r[k].count <= b {
        assert r[k] == InsertByCount(sorted[1..], x)[k - 1];
      }
    }
  }

  lemma {:induction false} InsertKeepsDescending(sorted: seq<TagCount>, x: TagCount)
    requires Descending(sorted)
    ensures Descending(InsertByCount(sorted, x))
  {
    if |sorted| == 0 {
    } else if sorted[0].count >= x.count {
      var tail := sorted[1..];
      assert Bounded(tail, sorted[0].count) by {
        forall k | 0 <= k < |tail| ensures tail[k].count <= sorted[0].count {
          assert tail[k] == sorted[k + 1];
        }
      }
      assert Descending(tail) by {
        forall i, j | 0 <= i < j < |tail| ensures tail[i].count >= tail[j].count {
          assert tail[i] == sorted[i + 1] && tail[j] == sorted[j + 1];
        }
      }
      InsertKeepsDescending(tail, x);
      InsertKeepsBound(tail, x, sorted[0].count);
      DescendingCons(sorted[0], InsertByCount(tail, x));
    } else {
      assert Bounded(sorted, x.count) by {
        forall k | 0 <= k < |sorted| ensures sorted[k].count <= x.count {
          assert sorted[k].count <= sorted[0].count;
        }
      }
      DescendingCons(x, sorted);
    }
  }

  /** The sort keeps exactly the entries it is given. */
  lemma {:induction false} SortByCountPermutes(items: seq<TagCount>)
    ensures multiset(SortByCount(items)) == multiset(items)
  {
    if |items| > 0 {
      var init := items[..|items| - 1];
      var last := items[|items| - 1];
      SortByCountPermutes(init);
      assert items == init + [last];
    }
  }

  /** The sort orders the entries by count, from the largest. */
  lemma {:induction false} SortByCountDescending(items: seq<TagCount>)
    ensures Descending(SortByCount(items))
  {
    if |items| > 0 {
      var init := items[..|items| - 1];
      SortByCountDescending(init);
      InsertKeepsDescending(SortByCount(init), items[|items| - 1]);
    }
  }

  /** The sort is a permutation of the entries, ordered by count from the largest. */
  lemma SortByCountSorts(items: seq<TagCount>)
    ensures Descending(SortByCount(items))
    ensures multiset(SortByCount(items)) == multiset(items)
  {
    SortByCountPermutes(items);
    SortByCountDescending(items);
  }

  /** Python's `xs[:n]`. */
  function TakePrefix<T>(xs: seq<T>, n: int): (r: seq<T>)
    ensures n >= 0 ==> |r| == (if n < |xs| then n else |xs|)
    ensures n < 0 ==> |r| == (if |xs| + n > 0 then |xs| + n else 0)
    ensures r == xs[..|r|]
  {
    if n >= 0 then (if n < |xs| then xs[..n] else xs)
    else if |xs| + n > 0 then xs[..|xs| + n] else []
  }

  function TagText(t: TagCount): string
  {
    t.tag + " (" + IntToString(t.count) + " times)"
  }

  function TagTexts(ts: seq<TagCount>): (r: seq<string>)
    ensures |r| == |ts|
    ensures forall i :: 0 <= i < |ts| ==> r[i] == TagText(ts[i])
  {
    if |ts| == 0 then [] else [TagText(ts[0])] + TagTexts(ts[1..])
  }

  /** The tags a summary line names: the `topN` most frequent. */
  function TopTags(items: seq<TagCount>, topN: int): seq<TagCount>
  {
    TakePrefix(SortByCount(items), topN)
  }

  /** `_format_tags_for_summary`: nothing for an empty dictionary or an empty selection;
      otherwise the label, then the selected tags with their counts, separated by commas. */
  function FormatTagsForSummary(items: seq<TagCount>, heading: string, topN: int): (r: Option<string>)
    ensures r.None? <==> |TopTags(items, topN)| == 0
    ensures r.Some? ==> r.value == heading + ": " + Join(TagTexts(TopTags(items, topN)), ", ") + "."
  {
    if |items| == 0 then None
    else
      var top := TopTags(items, topN);
      if |top| == 0 then None
      else Some(heading + ": " + Join(TagTexts(top), ", ") + ".")
  }

  /** The line names the `topN` most frequent tags (all of them when there are fewer), and
      no tag left out occurred more often than one named. */
  lemma TopTagsAreMostFrequent(items: seq<TagCount>, topN: int)
    requires topN >= 0
    ensures var top := TopTags(items, topN);
      && |top| == (if topN < |items| then topN else |items|)
      && Descending(top)
      && multiset(top) <= multiset(items)
      && (forall t, u :: t in top && u in multiset(items) - multiset(top) ==> t.count >= u.count)
  {
    var sorted := SortByCount(items);
    SortByCountSorts(items);
    var top := TopTags(items, topN);
    assert top == sorted[..|top|];
    PrefixDominates(sorted, |top|);
  }

  /** A prefix of a descending list is descending, and no entry after it has a larger
      count than an entry in it. */
  lemma PrefixDominates(sorted: seq<TagCount>, k: nat)
    requires Descending(sorted) && k <= |sorted|
    ensures Descending(sorted[..k])
    ensures multiset(sorted[..k]) <= multiset(sorted)
    ensures forall t, u :: t in sorted[..k] && u in multiset(sorted) - multiset(sorted[..k]) ==> t.count >= u.count
  {
    PrefixRestSplit(sorted, k);
    PrefixBeforeRest(sorted, k);
    assert Descending(sorted[..k]) by {
      forall i, j | 0 <= i < j < k ensures sorted[..k][i].count >= sorted[..k][j].count {
        assert sorted[..k][i] == sorted[i] && sorted[..k][j] == sorted[j];
      }
    }
  }

  lemma PrefixRestSplit<T>(xs: seq<T>, k: nat)
    requires k <= |xs|
    ensures multiset(xs) - multiset(xs[..k]) == multiset(xs[k..])
    ensures multiset(xs[..k]) <= multiset(xs)
  {
    assert xs == xs[..k] + xs[k..];
  }

  lemma PrefixBeforeRest(sorted: seq<TagCount>, k: nat)
    requires Descending(sorted) && k <= |sorted|
    ensures forall t, u :: t in sorted[..k] && u in sorted[k..] ==> t.count >= u.count
  {
    forall t, u | t in sorted[..k] && u in sorted[k..] ensures t.count >= u.count {
      var i :| 0 <= i < k && sorted[..k][i] == t;
      var j :| 0 <= j < |sorted| - k && sorted[k..][j] == u;
      assert sorted[i] == t && sorted[k + j] == u;
    }
  }

  /** With the default of seven, an empty dictionary gives no line and any other gives one. */
  lemma DefaultTopTagsLine(items: seq<TagCount>, heading: string)
    ensures FormatTagsForSummary(items, heading, TopTagsCount).None? <==> |items| == 0
  {
    if |items| > 0 {
      TopTagsAreMostFrequent(items, TopTagsCount);
    }
  }

  // ---------------------------------------------------------------------------------------
  // The windows of the detailed report

  /** A time interval in seconds, from `start` to `end`. */
  datatype Window = Window(start: int, end: int)

  /** The current week starts at midnight of the report's week start day and lasts seven
      days; the previous week is the seven days before it. */
  function CurrentWindow(weekStartDay: int): (w: Window)
    ensures w.end - w.start == 7 * SecondsPerDay
    ensures DayOf(w.start) == weekStartDay && w.start % SecondsPerDay == 0
  {
    Window(weekStartDay * SecondsPerDay, weekStartDay * SecondsPerDay + 7 * SecondsPerDay)
  }

  function PreviousWindow(weekStartDay: int): (w: Window)
    ensures w.end == CurrentWindow(weekStartDay).start
    ensures w.end - w.start == 7 * SecondsPerDay
  {
    Window(weekStartDay * SecondsPerDay - 7 * SecondsPerDay, weekStartDay * SecondsPerDay)
  }

  /** For a report made by the weekly cycle at `now`, the detailed report's current week
      begins less than a day before the cycle's own seven days and ends less than a day
      before the cycle ran: the windows lag the weekly summary by the time of day. */
  lemma WindowsFollowWeeklyCycle(now: int)
    ensures var w := CurrentWindow(WeekStart(now));
      && w.start <= now - 7 * SecondsPerDay < w.start + SecondsPerDay
      && w.end <= now < w.end + SecondsPerDay
  {
    var d := WeekStart(now);
    assert d * SecondsPerDay <= now - 7 * SecondsPerDay < (d + 1) * SecondsPerDay;
  }
}
