/**
 * The weekly report workers: the detailed report's status machine
 * (PENDING, GENERATING, then GENERATED or FAILED, then SENT), the job that delivers a
 * generated report after a delay, and the weekly cycle that creates short reports for
 * active learners and sends their notifications in batches. The report table and the job
 * queue are fields of the worker; what the database, the model and the notification
 * producer answer is a parameter.
 */
module Reports {
  import opened Wrappers
  import opened Profiles
  import opened Enums

  /** Seconds the delivery job is deferred after a report is generated. */
  const FullWeeklyReportSendingDelay: int := 3
  /** Attempts in the week a learner needs for a weekly report. */
  const MinAttemptsForWeeklyReport: int := 15

  const SendJobName: string := "send_detailed_report_notification_arq"

  datatype UserReport = UserReport(
    reportId: int,
    userId: int,
    botId: string,
    weekStartDay: int,
    shortReport: string,
    fullReport: Option<string>,
    status: ReportStatus,
    generatedAt: int)

  /** A job in the task queue: its function name, the report it is for, and its deferral. */
  datatype Job = Job(name: string, reportId: int, deferBy: int)

  /** What generation meets beyond the report: whether the learner's profile is found, and
      the text the model writes (None: generating it raises). */
  datatype GenerationWorld = GenerationWorld(profileFound: bool, fullText: Option<string>)

  // ---------------------------------------------------------------------------------------
  // Generating the detailed report

  /** As written, generation takes up only a PENDING report. */
  predicate AcceptsAsWritten(s: ReportStatus)
  {
    s == Pending
  }

  /** Generation also takes up a FAILED report, which a new request hands to it again. */
  predicate Accepts(s: ReportStatus)
  {
    s == Pending || s == Failed
  }

  /** `_async_generate_detailed_report_task` AS WRITTEN, for a PENDING report: the report is
      marked GENERATING; an unknown bot or a failed generation marks it FAILED; a missing
      profile returns False and leaves it GENERATING; otherwise it is GENERATED with the
      text. The second component is the result. */
  function GenerateAsWritten(r: UserReport, w: GenerationWorld): (UserReport, bool)
  {
    var generating := r.(status := Generating);
    if ParseBotId(r.botId).None? then (generating.(status := Failed), false)
    else if !w.profileFound then (generating, false)
    else match w.fullText
      case None => (generating.(status := Failed), false)
      case Some(t) => (generating.(fullReport := Some(t), status := Generated), true)
  }

  /** As written, a report whose learner has no profile is left GENERATING for good. */
  lemma AsWrittenMissingProfileStaysGenerating(r: UserReport, w: GenerationWorld)
    requires r.status == Pending && r.botId == BotIdValue(Bulgarian) && !w.profileFound
    ensures GenerateAsWritten(r, w) == (r.(status := Generating), false)
  {
  }

  /** Generation with the missing profile marked FAILED, like every other failure. */
  function Generate(r: UserReport, w: GenerationWorld): (UserReport, bool)
  {
    var generating := r.(status := Generating);
    if ParseBotId(r.botId).None? then (generating.(status := Failed), false)
    else if !w.profileFound then (generating.(status := Failed), false)
    else match w.fullText
      case None => (generating.(status := Failed), false)
      case Some(t) => (generating.(fullReport := Some(t), status := Generated), true)
  }

  /** A generation always settles: the report ends GENERATED with its text when the result
      is True, and FAILED when it is False; nothing but the status and the text changes. */
  lemma GenerationSettles(r: UserReport, w: GenerationWorld)
    ensures var (after, ok) := Generate(r, w);
      && (ok <==> after.status == Generated)
      && (!ok <==> after.status == Failed)
      && (ok ==> after.fullReport.Some? && Some(after.fullReport.value) == w.fullText)
      && after.(status := r.status, fullReport := r.fullReport) == r
  {
  }

  /** The correction changes only the missing-profile case. */
  lemma GenerateDiffersOnlyOnMissingProfile(r: UserReport, w: GenerationWorld)
    requires w.profileFound || ParseBotId(r.botId).None?
    ensures Generate(r, w) == GenerateAsWritten(r, w)
  {
  }

  // ---------------------------------------------------------------------------------------
  // Delivering the detailed report

  /** A report can be delivered when it is GENERATED with a non-empty text. */
  predicate ReadyToSend(r: UserReport)
  {
    r.status == Generated && r.fullReport.Some? && |r.fullReport.value| > 0
  }

  /** Whether `send_detailed_report_notification_arq` marks the report SENT: it must be
      ready, its bot known, its learner and profile found, and the notification enqueued. */
  predicate Delivers(r: UserReport, userFound: bool, profileFound: bool, enqueued: bool)
  {
    ReadyToSend(r) && ParseBotId(r.botId).Some? && userFound && profileFound && enqueued
  }

  /** Only a generated report with a text can become SENT. */
  lemma SentOnlyAfterGenerated(r: UserReport, userFound: bool, profileFound: bool, enqueued: bool)
    requires Delivers(r, userFound, profileFound, enqueued)
    ensures r.status == Generated && r.fullReport.Some? && r.fullReport.value != ""
  {
  }

  // ---------------------------------------------------------------------------------------
  // The weekly cycle

  /** A learner's week as the attempt query summarises it. */
  datatype Summary = Summary(totalAttempts: int, correctAttempts: int, activeDays: int)

  /** One active profile the weekly cycle visits: the profile, whether its user row exists,
      the week's summary (None when the query returns nothing), the rendered short report,
      and whether saving the report raises. */
  datatype Candidate = Candidate(
    profile: Profile,
    userPresent: bool,
    summary: Option<Summary>,
    shortText: string,
    saveFails: bool)

  /** A report to notify about, and whether its learner's user row exists. */
  datatype Notice = Notice(reportId: int, userPresent: bool)

  /** Learners below the minimum number of attempts are skipped. */
  predicate Qualifies(c: Candidate)
  {
    c.summary.Some? && c.summary.value.totalAttempts >= MinAttemptsForWeeklyReport
  }

  /** The week a cycle at `now` reports on starts on the day seven days earlier. */
  function WeekStart(now: int): (d: int)
    ensures d * SecondsPerDay <= now - 7 * SecondsPerDay < (d + 1) * SecondsPerDay
  {
    DayOf(now - 7 * SecondsPerDay)
  }

  /** The short report saved for a candidate. */
  function WeeklyReport(c: Candidate, id: int, weekStart: int, now: int): (r: UserReport)
    ensures r.reportId == id && r.userId == c.profile.userId && r.botId == BotIdValue(c.profile.botId)
    ensures r.status == Pending && r.fullReport.None? && r.shortReport == c.shortText
    ensures r.weekStartDay == weekStart && r.generatedAt == now
  {
    UserReport(id, c.profile.userId, BotIdValue(c.profile.botId), weekStart, c.shortText, None, Pending, now)
  }

  /** The candidates that get a report: those that qualify and whose save succeeds. */
  function Saved(cands: seq<Candidate>): seq<Candidate>
  {
    if |cands| == 0 then []
    else
      var last := cands[|cands| - 1];
      Saved(cands[..|cands| - 1]) + (if Qualifies(last) && !last.saveFails then [last] else [])
  }

  /** The saved candidates are exactly those that qualify and whose save succeeds, in
      order. */
  lemma {:induction false} SavedMembers(cands: seq<Candidate>)
    ensures |Saved(cands)| <= |cands|
    ensures forall c :: c in Saved(cands) <==> c in cands && Qualifies(c) && !c.saveFails
  {
    if |cands| > 0 {
      var last := cands[|cands| - 1];
      SavedMembers(cands[..|cands| - 1]);
      assert cands == cands[..|cands| - 1] + [last];
    }
  }

  /** The notices the weekly cycle collects: one per saved report, ids given in order from
      `firstId`. */
  function Notices(saved: seq<Candidate>, firstId: int): (ns: seq<Notice>)
    ensures |ns| == |saved|
    ensures forall i :: 0 <= i < |ns| ==> ns[i] == Notice(firstId + i, saved[i].userPresent)
  {
    if |saved| == 0 then []
    else Notices(saved[..|saved| - 1], firstId) + [Notice(firstId + |saved| - 1, saved[|saved| - 1].userPresent)]
  }

  /** The reports table after the saved reports are added with ids from `firstId`. */
  function WithReports(m: map<int, UserReport>, saved: seq<Candidate>, firstId: int, weekStart: int, now: int): map<int, UserReport>
  {
    if |saved| == 0 then m
    else
      var i := |saved| - 1;
      WithReports(m, saved[..i], firstId, weekStart, now)[firstId + i := WeeklyReport(saved[i], firstId + i, weekStart, now)]
  }

  /** The table holds the i-th saved report under id `firstId + i`. */
  lemma {:induction false} WithReportsAt(m: map<int, UserReport>, saved: seq<Candidate>, firstId: int, weekStart: int, now: int, i: int)
    requires 0 <= i < |saved|
    ensures firstId + i in WithReports(m, saved, firstId, weekStart, now)
    ensures WithReports(m, saved, firstId, weekStart, now)[firstId + i] == WeeklyReport(saved[i], firstId + i, weekStart, now)
  {
    var n := |saved| - 1;
    if i < n {
      WithReportsAt(m, saved[..n], firstId, weekStart, now, i);
    }
  }

  /** A row outside the new ids is kept as it was. */
  lemma {:induction false} WithReportsKeeps(m: map<int, UserReport>, saved: seq<Candidate>, firstId: int, weekStart: int, now: int, k: int)
    requires k in m && !(firstId <= k < firstId + |saved|)
    ensures k in WithReports(m, saved, firstId, weekStart, now)
    ensures WithReports(m, saved, firstId, weekStart, now)[k] == m[k]
  {
    if |saved| > 0 {
      WithReportsKeeps(m, saved[..|saved| - 1], firstId, weekStart, now, k);
    }
  }

  /** The profiles' last-report times after each saved report stamps its profile. */
  function Stamped(stamps: map<ProfileKey, int>, saved: seq<Candidate>, now: int): map<ProfileKey, int>
  {
    if |saved| == 0 then stamps
    else Stamped(stamps, saved[..|saved| - 1], now)[KeyOf(saved[|saved| - 1].profile) := now]
  }

  /** Every saved report's profile is stamped with the cycle's time. */
  lemma {:induction false} StampedContents(stamps: map<ProfileKey, int>, saved: seq<Candidate>, now: int)
    ensures forall c :: c in saved ==> KeyOf(c.profile) in Stamped(stamps, saved, now) && Stamped(stamps, saved, now)[KeyOf(c.profile)] == now
  {
    if |saved| > 0 {
      var init := saved[..|saved| - 1];
      StampedContents(stamps, init, now);
      assert saved == init + [saved[|saved| - 1]];
    }
  }

  /** What the first loop of the weekly cycle has built so far: the report table, the next
      id, the notices collected, and the profiles' last-report times. */
  datatype Progress = Progress(reports: map<int, UserReport>, nextId: int, notices: seq<Notice>, stamps: map<ProfileKey, int>)

  /** One iteration: a candidate that qualifies and whose save succeeds adds its report, a
      notice and its profile's time; any other candidate changes nothing. */
  function AddCandidate(g: Progress, c: Candidate, weekStart: int, now: int): Progress
  {
    if Qualifies(c) && !c.saveFails then
      Progress(g.reports[g.nextId := WeeklyReport(c, g.nextId, weekStart, now)], g.nextId + 1,
               g.notices + [Notice(g.nextId, c.userPresent)], g.stamps[KeyOf(c.profile) := now])
    else g
  }

  function AddCandidates(g: Progress, cands: seq<Candidate>, weekStart: int, now: int): Progress
  {
    if |cands| == 0 then g
    else AddCandidate(AddCandidates(g, cands[..|cands| - 1], weekStart, now), cands[|cands| - 1], weekStart, now)
  }

  /** Adding one candidate to the saved ones, when it qualifies and its save succeeds. */
  lemma SavedStep(cands: seq<Candidate>)
    requires |cands| > 0
    ensures var c := cands[|cands| - 1];
      Saved(cands) == Saved(cands[..|cands| - 1]) + (if Qualifies(c) && !c.saveFails then [c] else [])
  {
  }

  lemma {:induction false} AddCandidatesNextId(g: Progress, cands: seq<Candidate>, weekStart: int, now: int)
    ensures AddCandidates(g, cands, weekStart, now).nextId == g.nextId + |Saved(cands)|
  {
    if |cands| > 0 {
      AddCandidatesNextId(g, cands[..|cands| - 1], weekStart, now);
      SavedStep(cands);
    }
  }

  lemma {:induction false} AddCandidatesNotices(g: Progress, cands: seq<Candidate>, weekStart: int, now: int)
    ensures AddCandidates(g, cands, weekStart, now).notices == g.notices + Notices(Saved(cands), g.nextId)
  {
    if |cands| > 0 {
      var init := cands[..|cands| - 1];
      var c := cands[|cands| - 1];
      var g1 := AddCandidates(g, init, weekStart, now);
      var saved := Saved(init);
      AddCandidatesNotices(g, init, weekStart, now);
      SavedStep(cands);
      assert AddCandidates(g, cands, weekStart, now) == AddCandidate(g1, c, weekStart, now);
      if Qualifies(c) && !c.saveFails {
        AddCandidatesNextId(g, init, weekStart, now);
        assert Saved(cands) == saved + [c];
        NoticesStep(saved, c, g.nextId);
        var last := Notice(g.nextId + |saved|, c.userPresent);
        calc {
          AddCandidate(g1, c, weekStart, now).notices;
          g1.notices + [last];
          (g.notices + Notices(saved, g.nextId)) + [last];
          g.notices + (Notices(saved, g.nextId) + [last]);
        }
      } else {
        assert Saved(cands) == saved;
      }
    }
  }

  /** One more saved report adds its notice at the end. */
  lemma NoticesStep(saved: seq<Candidate>, c: Candidate, firstId: int)
    ensures Notices(saved + [c], firstId) == Notices(saved, firstId) + [Notice(firstId + |saved|, c.userPresent)]
  {
    assert (saved + [c])[..|saved|] == saved;
  }

  lemma {:induction false} AddCandidatesReports(g: Progress, cands: seq<Candidate>, weekStart: int, now: int)
    ensures AddCandidates(g, cands, weekStart, now).reports == WithReports(g.reports, Saved(cands), g.nextId, weekStart, now)
  {
    if |cands| > 0 {
      var init := cands[..|cands| - 1];
      var c := cands[|cands| - 1];
      AddCandidatesReports(g, init, weekStart, now);
      AddCandidatesNextId(g, init, weekStart, now);
      SavedStep(cands);
      var saved := Saved(init);
      if Qualifies(c) && !c.saveFails {
        assert Saved(cands) == saved + [c];
        assert (saved + [c])[..|saved|] == saved;
        assert WithReports(g.reports, saved + [c], g.nextId, weekStart, now)
          == WithReports(g.reports, saved, g.nextId, weekStart, now)[g.nextId + |saved| := WeeklyReport(c, g.nextId + |saved|, weekStart, now)];
      } else {
        assert Saved(cands) == saved;
      }
    }
  }

  lemma {:induction false} AddCandidatesStamps(g: Progress, cands: seq<Candidate>, weekStart: int, now: int)
    ensures AddCandidates(g, cands, weekStart, now).stamps == Stamped(g.stamps, Saved(cands), now)
  {
    if |cands| > 0 {
      var init := cands[..|cands| - 1];
      var c := cands[|cands| - 1];
      AddCandidatesStamps(g, init, weekStart, now);
      SavedStep(cands);
      var saved := Saved(init);
      if Qualifies(c) && !c.saveFails {
        assert Saved(cands) == saved + [c];
        assert (saved + [c])[..|saved|] == saved;
        assert Stamped(g.stamps, saved + [c], now) == Stamped(g.stamps, saved, now)[KeyOf(c.profile) := now];
      } else {
        assert Saved(cands) == saved;
      }
    }
  }

  /** The loop saves exactly the qualifying candidates whose save succeeds: their reports
      under consecutive ids, one notice each, and their profiles stamped. */
  lemma AddCandidatesSavesQualifying(g: Progress, cands: seq<Candidate>, weekStart: int, now: int)
    ensures AddCandidates(g, cands, weekStart, now) == Progress(
      WithReports(g.reports, Saved(cands), g.nextId, weekStart, now),
      g.nextId + |Saved(cands)|,
      g.notices + Notices(Saved(cands), g.nextId),
      Stamped(g.stamps, Saved(cands), now))
  {
    AddCandidatesNextId(g, cands, weekStart, now);
    AddCandidatesNotices(g, cands, weekStart, now);
    AddCandidatesReports(g, cands, weekStart, now);
    AddCandidatesStamps(g, cands, weekStart, now);
  }

  /** The number of batches of `size` that `n` notices make. */
  function Batches(n: int, size: int): nat
    requires size > 0
    decreases n
  {
    if n <= 0 then 0 else 1 + Batches(n - size, size)
  }

  /** The batches cover the notices: fewer than `size` notices are left for the last one. */
  lemma {:induction false} BatchesCover(n: int, size: int)
    requires size > 0 && n >= 0
    ensures (Batches(n, size) - 1) * size < n || n == 0
    ensures n <= Batches(n, size) * size
    decreases n
  {
    if n > 0 {
      BatchesCover(if n - size < 0 then 0 else n - size, size);
      if n - size < 0 {
        assert Batches(n - size, size) == 0;
        assert Batches(0, size) == 0;
      }
    }
  }

  /** One more batch from position `i` leaves the batches after it to count. */
  lemma BatchesStep(n: int, size: int, i: int, batches: nat)
    requires size > 0 && 0 <= i < n && batches + Batches(n - i, size) == Batches(n, size)
    ensures (batches + 1) + Batches(n - (i + size), size) == Batches(n, size)
  {
    assert n - (i + size) == (n - i) - size;
  }

  /** The notices whose learner has a user row, in order: the ones that are notified. */
  function WithUsers(ns: seq<Notice>): (ids: seq<int>)
    ensures |ids| <= |ns|
  {
    if |ns| == 0 then []
    else
      var last := ns[|ns| - 1];
      WithUsers(ns[..|ns| - 1]) + (if last.userPresent then [last.reportId] else [])
  }

  /** Exactly the reports of the notices whose learner has a user row are notified. */
  lemma {:induction false} WithUsersMembers(ns: seq<Notice>)
    ensures forall id :: id in WithUsers(ns) <==> exists n :: n in ns && n.userPresent && n.reportId == id
  {
    if |ns| > 0 {
      var init := ns[..|ns| - 1];
      var last := ns[|ns| - 1];
      WithUsersMembers(init);
      assert ns == init + [last];
      forall id ensures id in WithUsers(ns) <==> exists n :: n in ns && n.userPresent && n.reportId == id {
        if id in WithUsers(init) {
          var n :| n in init && n.userPresent && n.reportId == id;
          assert n in ns;
        }
      }
    }
  }

  /** Notifying two runs of notices one after the other notifies what each would. */
  lemma {:induction false} WithUsersConcat(a: seq<Notice>, b: seq<Notice>)
    ensures WithUsers(a + b) == WithUsers(a) + WithUsers(b)
    decreases |b|
  {
    if |b| > 0 {
      var bi := b[..|b| - 1];
      WithUsersConcat(a, bi);
      assert (a + b)[..|a + b| - 1] == a + bi;
      assert (a + b)[|a + b| - 1] == b[|b| - 1];
    } else {
      assert a + b == a;
    }
  }

  /** Notifying one more notice appends its report when its learner has a user row. */
  lemma WithUsersStep(ns: seq<Notice>, j: nat)
    requires j < |ns|
    ensures WithUsers(ns[..j + 1]) == WithUsers(ns[..j]) + (if ns[j].userPresent then [ns[j].reportId] else [])
  {
    assert ns[..j + 1][..j] == ns[..j];
  }


  /** The two settings the weekly cycle reads for its batches. */
  datatype WeeklySettings = WeeklySettings(batchSize: Option<int>, batchDelaySeconds: Option<int>)

  /** The settings class declares neither. */
  const ShippedWeeklySettings: WeeklySettings := WeeklySettings(None, None)

  datatype WeeklyError = MissingWeeklySetting(name: string) | ZeroBatchSize

  /** Both batch settings are declared and the batch size is positive, so the batch loop runs. */
  predicate Paced(settings: WeeklySettings)
  {
    settings.batchSize.Some? && settings.batchSize.value > 0 && settings.batchDelaySeconds.Some?
  }

  /** The report ids the second loop notifies: reading a setting that is not declared
      raises, a batch size of zero makes `range` raise, a negative one gives an empty
      `range`; otherwise every notice whose learner has a user row, in order. */
  function NotifiedBy(notices: seq<Notice>, settings: WeeklySettings): Result<seq<int>, WeeklyError>
  {
    if settings.batchSize.None? then Err(MissingWeeklySetting("report_notification_batch_size"))
    else if settings.batchDelaySeconds.None? then Err(MissingWeeklySetting("report_notification_batch_delay_seconds"))
    else if settings.batchSize.value == 0 then Err(ZeroBatchSize)
    else if settings.batchSize.value < 0 then Ok([])
    else Ok(WithUsers(notices))
  }

  /** The weekly notifications enqueued by one cycle: none when the settings make it raise,
      otherwise exactly the ids `NotifiedBy` picks, appended in order. */
  predicate NotifiedAs(r: Result<(), WeeklyError>, before: seq<int>, after: seq<int>,
                       notices: seq<Notice>, settings: WeeklySettings)
  {
    var outcome := NotifiedBy(notices, settings);
    && (outcome.Err? ==> r == Err(outcome.error) && after == before)
    && (outcome.Ok? ==> r.Ok? && after == before + outcome.value)
  }

  /** The pauses one cycle takes: none unless the batch loop runs, and then one pause of the
      configured delay between consecutive batches of `sent` notices. */
  predicate PausedBetweenBatches(before: seq<int>, after: seq<int>, sent: nat, settings: WeeklySettings)
  {
    if !Paced(settings) then after == before
    else
      && |after| == |before| + (if sent == 0 then 0 else Batches(sent, settings.batchSize.value) - 1)
      && forall k :: |before| <= k < |after| ==> after[k] == settings.batchDelaySeconds.value
  }

  /** The worker's view of the database and the queues: the report table, the time each
      profile last got a report, the jobs enqueued, and the weekly notifications enqueued
      with the pauses taken between batches. */
  class ReportWorker {
    var reports: map<int, UserReport>
    var nextReportId: int
    var lastReportGeneratedAt: map<ProfileKey, int>
    var jobs: seq<Job>
    var weeklyNotified: seq<int>
    var pauses: seq<int>

    ghost predicate Valid()
      reads this`reports, this`nextReportId
    {
      forall k :: k in reports ==> k < nextReportId && reports[k].reportId == k
    }

    constructor()
      ensures Valid()
      ensures reports == map[] && jobs == [] && weeklyNotified == [] && pauses == []
    {
      reports := map[];
      nextReportId := 1;
      lastReportGeneratedAt := map[];
      jobs := [];
      weeklyNotified := [];
      pauses := [];
    }

    /** `_async_generate_detailed_report_task`: a report that is missing or not accepted
        (PENDING, or FAILED and requested again) is skipped with False; otherwise it is marked
        GENERATING and then settles as `Generate` says. */
    method GenerateDetailedReport(id: int, w: GenerationWorld) returns (ok: bool)
      requires Valid()
      modifies this
      ensures Valid()
      ensures jobs == old(jobs) && weeklyNotified == old(weeklyNotified) && pauses == old(pauses)
      ensures nextReportId == old(nextReportId) && lastReportGeneratedAt == old(lastReportGeneratedAt)
      ensures id !in old(reports) || !Accepts(old(reports)[id].status) ==> !ok && reports == old(reports)
      ensures id in old(reports) && Accepts(old(reports)[id].status) ==>
        && id in reports
        && (reports[id], ok) == Generate(old(reports)[id], w)
        && reports == old(reports)[id := reports[id]]
    {
      if id !in reports || !Accepts(reports[id].status) {
        return false;
      }
      var report := reports[id].(status := Generating);
      reports := reports[id := report];
      if ParseBotId(report.botId).None? || !w.profileFound || w.fullText.None? {
        report := report.(status := Failed);
        ok := false;
      } else {
        report := report.(fullReport := w.fullText, status := Generated);
        ok := true;
      }
      reports := reports[id := report];
    }

    /** `generate_and_send_detailed_report_arq`: without the model service or the queue in
        its context it does nothing; otherwise it generates, and only a successful generation
        enqueues the delivery job, deferred by the sending delay. */
    method GenerateAndSendDetailedReport(id: int, contextReady: bool, w: GenerationWorld)
      requires Valid()
      modifies this
      ensures Valid()
      ensures nextReportId == old(nextReportId) && lastReportGeneratedAt == old(lastReportGeneratedAt)
      ensures weeklyNotified == old(weeklyNotified) && pauses == old(pauses)
      ensures !contextReady ==> reports == old(reports) && jobs == old(jobs)
      ensures contextReady && id in old(reports) && Accepts(old(reports)[id].status) ==>
        var (after, ok) := Generate(old(reports)[id], w);
        && reports == old(reports)[id := after]
        && jobs == old(jobs) + (if ok then [Job(SendJobName, id, FullWeeklyReportSendingDelay)] else [])
      ensures contextReady && !(id in old(reports) && Accepts(old(reports)[id].status)) ==>
        reports == old(reports) && jobs == old(jobs)
    {
      if !contextReady {
        return;
      }
      var ok := GenerateDetailedReport(id, w);
      if ok {
        jobs := jobs + [Job(SendJobName, id, FullWeeklyReportSendingDelay)];
      }
    }

    /** `send_detailed_report_notification_arq`: a ready report whose learner and profile
        are found is marked SENT once its notification is enqueued; anything else leaves it
        as it is. */
    method SendDetailedReportNotification(id: int, userFound: bool, profileFound: bool, enqueued: bool)
      requires Valid()
      modifies this
      ensures Valid()
      ensures jobs == old(jobs) && nextReportId == old(nextReportId)
      ensures weeklyNotified == old(weeklyNotified) && pauses == old(pauses)
      ensures lastReportGeneratedAt == old(lastReportGeneratedAt)
      ensures id in old(reports) && Delivers(old(reports)[id], userFound, profileFound, enqueued) ==>
        reports == old(reports)[id := old(reports)[id].(status := Sent)]
      ensures !(id in old(reports) && Delivers(old(reports)[id], userFound, profileFound, enqueued)) ==>
        reports == old(reports)
    {
      if id !in reports || !ReadyToSend(reports[id]) {
        return;
      }
      if ParseBotId(reports[id].botId).None? || !userFound || !profileFound {
        return;
      }
      if enqueued {
        reports := reports[id := reports[id].(status := Sent)];
      }
    }

    /** One iteration of the first loop for a candidate that gets a report: the report is
        saved under the next id and the profile records the time. */
    method SaveWeeklyReport(c: Candidate, weekStart: int, now: int) returns (notice: Notice)
      requires Valid()
      modifies this`reports, this`nextReportId, this`lastReportGeneratedAt
      ensures Valid()
      ensures notice == Notice(old(nextReportId), c.userPresent)
      ensures nextReportId == old(nextReportId) + 1
      ensures reports == old(reports)[old(nextReportId) := WeeklyReport(c, old(nextReportId), weekStart, now)]
      ensures lastReportGeneratedAt == old(lastReportGeneratedAt)[KeyOf(c.profile) := now]
      ensures jobs == old(jobs) && weeklyNotified == old(weeklyNotified) && pauses == old(pauses)
    {
      reports := reports[nextReportId := WeeklyReport(c, nextReportId, weekStart, now)];
      lastReportGeneratedAt := lastReportGeneratedAt[KeyOf(c.profile) := now];
      notice := Notice(nextReportId, c.userPresent);
      nextReportId := nextReportId + 1;
    }

    /** The first loop of `run_report_generation_cycle_arq`: a report is saved for every
        candidate that qualifies and whose save succeeds, its profile records the time, and
        a notice is collected for it. */
    method CreateWeeklyReports(cands: seq<Candidate>, weekStart: int, now: int) returns (notices: seq<Notice>)
      requires Valid()
      modifies this`reports, this`nextReportId, this`lastReportGeneratedAt
      ensures Valid()
      ensures notices == Notices(Saved(cands), old(nextReportId))
      ensures reports == WithReports(old(reports), Saved(cands), old(nextReportId), weekStart, now)
      ensures nextReportId == old(nextReportId) + |Saved(cands)|
      ensures lastReportGeneratedAt == Stamped(old(lastReportGeneratedAt), Saved(cands), now)
    {
      ghost var g0 := Progress(reports, nextReportId, [], lastReportGeneratedAt);
      notices := SaveEachCandidate(cands, weekStart, now);
      AddCandidatesSavesQualifying(g0, cands, weekStart, now);
      assert [] + Notices(Saved(cands), g0.nextId) == Notices(Saved(cands), g0.nextId);
    }

    /** The loop of the first pass, candidate by candidate: the state it leaves is the one
        `AddCandidates` computes. */
    method SaveEachCandidate(cands: seq<Candidate>, weekStart: int, now: int) returns (notices: seq<Notice>)
      requires Valid()
      modifies this`reports, this`nextReportId, this`lastReportGeneratedAt
      ensures Valid()
      ensures Progress(reports, nextReportId, notices, lastReportGeneratedAt)
        == AddCandidates(Progress(old(reports), old(nextReportId), [], old(lastReportGeneratedAt)), cands, weekStart, now)
    {
      ghost var g0 := Progress(reports, nextReportId, [], lastReportGeneratedAt);
      notices := [];
      var i := 0;
      while i < |cands|
        invariant 0 <= i <= |cands|
        invariant Valid()
        invariant Progress(reports, nextReportId, notices, lastReportGeneratedAt) == AddCandidates(g0, cands[..i], weekStart, now)
      {
        var c := cands[i];
        assert cands[..i + 1][..i] == cands[..i];
        if Qualifies(c) && !c.saveFails {
          var notice := SaveWeeklyReport(c, weekStart, now);
          notices := notices + [notice];
        }
        i := i + 1;
      }
      assert cands[..i] == cands;
    }

    /** The second loop: the notices in batches of `size`; each notice whose learner has a
        user row is notified, and the worker pauses after every batch but the last. */
    method NotifyInBatches(notices: seq<Notice>, size: int, delay: int)
      requires size > 0
      modifies this`weeklyNotified, this`pauses
      ensures weeklyNotified == old(weeklyNotified) + WithUsers(notices)
      ensures |pauses| == |old(pauses)| + (if |notices| == 0 then 0 else Batches(|notices|, size) - 1)
      ensures forall k :: |old(pauses)| <= k < |pauses| ==> pauses[k] == delay
      ensures reports == old(reports) && nextReportId == old(nextReportId) && jobs == old(jobs)
      ensures lastReportGeneratedAt == old(lastReportGeneratedAt)
    {
      var n := |notices|;
      var i := 0;
      ghost var batches := 0;
      ghost var done := 0;
      while i < n
        invariant 0 <= i && 0 <= done <= n
        invariant done == (if i < n then i else n)
        invariant weeklyNotified == old(weeklyNotified) + WithUsers(notices[..done])
        invariant batches + Batches(n - i, size) == Batches(n, size)
        invariant |pauses| == |old(pauses)| + (if i >= n && batches > 0 then batches - 1 else batches)
        invariant forall k :: |old(pauses)| <= k < |pauses| ==> pauses[k] == delay
        decreases n - i
      {
        var end := if i + size < n then i + size else n;
        NotifyBatch(notices[i..end], i + size < n, delay);
        WithUsersConcat(notices[..i], notices[i..end]);
        assert notices[..i] + notices[i..end] == notices[..end];
        BatchesStep(n, size, i, batches);
        batches := batches + 1;
        i := i + size;
        done := end;
      }
      assert notices[..n] == notices;
    }

    /** One batch: each notice whose learner has a user row is notified, then the worker
        pauses for `delay` seconds when another batch follows. */
    method NotifyBatch(batch: seq<Notice>, pauseAfter: bool, delay: int)
      modifies this`weeklyNotified, this`pauses
      ensures weeklyNotified == old(weeklyNotified) + WithUsers(batch)
      ensures pauses == old(pauses) + (if pauseAfter then [delay] else [])
      ensures reports == old(reports) && nextReportId == old(nextReportId) && jobs == old(jobs)
      ensures lastReportGeneratedAt == old(lastReportGeneratedAt)
    {
      var j := 0;
      while j < |batch|
        invariant 0 <= j <= |batch|
        invariant weeklyNotified == old(weeklyNotified) + WithUsers(batch[..j])
        invariant pauses == old(pauses)
      {
        WithUsersStep(batch, j);
        if batch[j].userPresent {
          weeklyNotified := weeklyNotified + [batch[j].reportId];
        }
        j := j + 1;
      }
      assert batch[..j] == batch;
      if pauseAfter {
        pauses := pauses + [delay];
      }
    }

    /** `run_report_generation_cycle_arq`: the weekly reports are created and committed; then
        the batch size and the delay are read from the settings, and a missing one raises
        before any notification is sent. A batch size of zero makes `range` raise, and a
        negative one makes it empty. */
    method RunReportGenerationCycle(cands: seq<Candidate>, now: int, settings: WeeklySettings)
      returns (r: Result<(), WeeklyError>)
      requires Valid()
      modifies this`reports, this`nextReportId, this`lastReportGeneratedAt, this`weeklyNotified, this`pauses
      ensures Valid()
      ensures reports == WithReports(old(reports), Saved(cands), old(nextReportId), WeekStart(now), now)
      ensures nextReportId == old(nextReportId) + |Saved(cands)|
      ensures lastReportGeneratedAt == Stamped(old(lastReportGeneratedAt), Saved(cands), now)
      ensures forall c :: c in Saved(cands) ==> KeyOf(c.profile) in lastReportGeneratedAt && lastReportGeneratedAt[KeyOf(c.profile)] == now
      ensures jobs == old(jobs)
      ensures PausedBetweenBatches(old(pauses), pauses, |Saved(cands)|, settings)
      ensures NotifiedAs(r, old(weeklyNotified), weeklyNotified, Notices(Saved(cands), old(nextReportId)), settings)
    {
      var weekStart := WeekStart(now);
      ghost var stamps0 := lastReportGeneratedAt;
      var notices := CreateWeeklyReports(cands, weekStart, now);
      assert |notices| == |Saved(cands)|;
      r := NotifySaved(notices, settings);
      StampedContents(stamps0, Saved(cands), now);
    }

    /** The part of the cycle after the commit: the batch settings are read, and the notices
        are notified in batches when they allow it. */
    method NotifySaved(notices: seq<Notice>, settings: WeeklySettings) returns (r: Result<(), WeeklyError>)
      modifies this`weeklyNotified, this`pauses
      ensures NotifiedAs(r, old(weeklyNotified), weeklyNotified, notices, settings)
      ensures PausedBetweenBatches(old(pauses), pauses, |notices|, settings)
    {
      if settings.batchSize.None? {
        return Err(MissingWeeklySetting("report_notification_batch_size"));
      }
      if settings.batchDelaySeconds.None? {
        return Err(MissingWeeklySetting("report_notification_batch_delay_seconds"));
      }
      var size := settings.batchSize.value;
      if size == 0 {
        return Err(ZeroBatchSize);
      }
      if size > 0 {
        NotifyInBatches(notices, size, settings.batchDelaySeconds.value);
      } else {
        assert WithUsers([]) == [];
      }
      r := Ok(());
    }
  }

  /** As shipped, the settings declare neither batch setting, so the weekly cycle raises
      once the reports are committed and no learner is notified, even when reports were
      saved for learners with a user row. */
  lemma ShippedSettingsNotifyNobody(cands: seq<Candidate>, firstId: int)
    ensures NotifiedBy(Notices(Saved(cands), firstId), ShippedWeeklySettings)
      == Err(MissingWeeklySetting("report_notification_batch_size"))
  {
  }

  /** With both settings declared and a positive batch size, every saved report whose
      learner has a user row is notified, each once, in the order the reports were saved. */
  lemma ConfiguredCycleNotifiesEachReportOnce(cands: seq<Candidate>, firstId: int, settings: WeeklySettings)
    requires settings.batchSize.Some? && settings.batchSize.value > 0 && settings.batchDelaySeconds.Some?
    ensures NotifiedBy(Notices(Saved(cands), firstId), settings).Ok?
    ensures var ids := NotifiedBy(Notices(Saved(cands), firstId), settings).value;
      && (forall i, j :: 0 <= i < j < |ids| ==> ids[i] < ids[j])
      && (forall k :: 0 <= k < |Saved(cands)| && Saved(cands)[k].userPresent ==> firstId + k in ids)
      && (forall id :: id in ids ==> exists k :: 0 <= k < |Saved(cands)| && Saved(cands)[k].userPresent && id == firstId + k)
  {
    var ns := Notices(Saved(cands), firstId);
    NoticesIncreasing(ns);
    NoticedWithUser(Saved(cands), firstId);
    NotifiedWasNoticed(Saved(cands), firstId);
  }

  /** Every saved report whose learner has a user row is among the notified ids. */
  lemma NoticedWithUser(saved: seq<Candidate>, firstId: int)
    ensures forall k :: 0 <= k < |saved| && saved[k].userPresent ==> firstId + k in WithUsers(Notices(saved, firstId))
  {
    var ns := Notices(saved, firstId);
    WithUsersMembers(ns);
    forall k | 0 <= k < |saved| && saved[k].userPresent ensures firstId + k in WithUsers(ns) {
      assert ns[k] in ns;
    }
  }

  /** Every notified id belongs to a saved report whose learner has a user row. */
  lemma NotifiedWasNoticed(saved: seq<Candidate>, firstId: int)
    ensures forall id :: id in WithUsers(Notices(saved, firstId)) ==>
      exists k :: 0 <= k < |saved| && saved[k].userPresent && id == firstId + k
  {
    var ns := Notices(saved, firstId);
    WithUsersMembers(ns);
    forall id | id in WithUsers(ns)
      ensures exists k :: 0 <= k < |saved| && saved[k].userPresent && id == firstId + k
    {
      var n :| n in ns && n.userPresent && n.reportId == id;
      var k :| 0 <= k < |ns| && ns[k] == n;
      assert saved[k].userPresent && id == firstId + k;
    }
  }

  /** Report ids taken from ascending notices stay ascending. */
  lemma {:induction false} NoticesIncreasing(ns: seq<Notice>)
    requires forall i, j :: 0 <= i < j < |ns| ==> ns[i].reportId < ns[j].reportId
    ensures forall i, j :: 0 <= i < j < |WithUsers(ns)| ==> WithUsers(ns)[i] < WithUsers(ns)[j]
  {
    if |ns| > 0 {
      var init := ns[..|ns| - 1];
      NoticesIncreasing(init);
      var last := ns[|ns| - 1];
      var w := WithUsers(init);
      WithUsersMembers(init);
      forall id | id in w ensures id < last.reportId {
        var n :| n in init && n.userPresent && n.reportId == id;
        var k :| 0 <= k < |init| && init[k] == n;
        assert ns[k] == n;
      }
      if last.userPresent {
        var all := w + [last.reportId];
        assert WithUsers(ns) == all;
        forall i, j | 0 <= i < j < |all| ensures all[i] < all[j] {
          if j == |w| {
            assert all[i] == w[i] && w[i] in w;
          }
        }
      } else {
        assert WithUsers(ns) == w;
      }
    }
  }
}
