/** What every run of the usage-report sync protocol guarantees. */
module SyncLaws {
  import opened Base
  import opened Reports
  import opened ReportStore
  import opened UsageSync

  lemma RowInJournal(w: World, day: Day)
    requires Inv(w) && day in w.rows
    ensures RowOk(w.history, day, w.rows[day])
    ensures day in w.disk && EntryOk(w.history, day, w.disk[day])
  {
    assert RowOk(w.history, day, w.rows[day]);
  }

  /** The broker's report of a day is always a point of the journaled history, never beyond the journal,
      and the journal's own report if the revisions agree. */
  lemma ServerIsJournaled(steps: seq<Step>, day: Day)
    requires day in Run(steps).rows
    ensures var w := Run(steps); var stored := w.rows[day];
            && VersionAt(w.history, day, stored.revision, stored.report)
            && day in w.disk && stored.revision <= w.disk[day].revision
            && (stored.revision == w.disk[day].revision ==> stored.report == w.disk[day].report)
  {
    hide Run, Inv, Valid;
    RunInv(steps);
    RowInJournal(Run(steps), day);
  }

  /** Whatever is marked acknowledged, on disk or in memory, is what the broker stores. */
  lemma AcknowledgedIsStored(steps: seq<Step>, day: Day)
    ensures var w := Run(steps);
            && (day in w.disk && w.disk[day].acked ==>
                 day in w.rows && w.rows[day] == Stored(w.disk[day].revision, w.disk[day].report))
            && (w.memory.Some? && day in w.memory.value && w.memory.value[day].acked ==>
                 day in w.rows && w.rows[day] == Stored(w.memory.value[day].revision, w.memory.value[day].report))
  {
    RunInv(steps);
    var w := Run(steps);
    if day in w.disk && w.disk[day].acked { AckedStored(w.history, w.rows, w.disk, day); }
    if w.memory.Some? && day in w.memory.value && w.memory.value[day].acked {
      AckedStored(w.history, w.rows, w.memory.value, day);
    }
  }

  lemma AckedStored(h: History, rows: Rows, journal: Journal, day: Day)
    requires JournalOk(h, rows, journal) && RowsOk(h, rows) && day in journal && journal[day].acked
    ensures day in rows && rows[day] == Stored(journal[day].revision, journal[day].report)
  {
    assert EntryOk(h, day, journal[day]) && Present(rows, journal[day]);
    assert RowOk(h, day, rows[day]);
  }

  // Is an upload of the current journal ever refused?

  /** Behind the broker's version no journaled version is below an earlier one. */
  lemma {:induction false} Chain(day: Day, past: seq<Version>, row: int, a: nat, b: nat)
    requires HistoryOk(day, past, row) && row < a <= b <= |past| && 1 <= a
    ensures !Decreases(past[a - 1].report.row, past[b - 1].report.row)
  {
    if a == b {
      DecreasesReflexive(past[a - 1].report);
    } else {
      Chain(day, past, row, a, b - 1);
      assert !Fell(past, b - 1);
      DecreasesTransitive(past[a - 1].report, past[b - 2].report, past[b - 1].report);
    }
  }

  /** An allowed decrease was journaled right after the broker's version, and an unflagged report replaced
      it before the broker saw it. */
  predicate LostCorrection(w: World, e: Entry) {
    var day := DayOf(e);
    && day in w.rows && day in w.history && 0 <= w.rows[day].revision && w.rows[day].revision + 1 < e.revision
    && w.rows[day].revision < |w.history[day]|
    && w.history[day][w.rows[day].revision].allow && !e.allow
    && Decreases(w.rows[day].report.row, w.history[day][w.rows[day].revision].report.row)
  }

  lemma EntryAt(h: History, rows: Rows, journal: Journal, day: Day)
    requires JournalOk(h, rows, journal) && day in journal
    ensures EntryOk(h, day, journal[day])
  {
  }

  lemma FellAt(day: Day, past: seq<Version>, row: int, i: nat)
    requires HistoryOk(day, past, row) && 0 < i < |past| && Fell(past, i)
    ensures past[i].allow && i <= row
  {
  }

  lemma ValidAt(day: Day, past: seq<Version>, row: int, i: nat)
    requires HistoryOk(day, past, row) && i < |past|
    ensures Valid(past[i].report) && past[i].report.row.period == day
  {
  }

  lemma NotLost(day: Day, past: seq<Version>, row: nat, e: Entry)
    requires HistoryOk(day, past, row) && 1 <= row < e.revision == |past|
    requires past[e.revision - 1] == Version(e.report, e.allow) && !e.allow
    requires row + 1 < e.revision && past[row].allow ==> !Fell(past, row)
    ensures !Decreases(past[row - 1].report.row, e.report.row)
  {
    hide HistoryOk, Valid, Decreases;
    if Fell(past, row) { FellAt(day, past, row, row); }
    ValidAt(day, past, row, row - 1);
    ValidAt(day, past, row, row);
    ValidAt(day, past, row, e.revision - 1);
    Chain(day, past, row, row + 1, e.revision);
    DecreasesTransitive(past[row - 1].report, past[row].report, past[e.revision - 1].report);
  }

  lemma EntryAccepted(w: World, journal: Journal, day: Day)
    requires Inv(w) && JournalOk(w.history, w.rows, journal) && day in journal
    ensures var e := journal[day];
            && DayOf(e) == day && Valid(e.report) && e.revision > 0
            && (IngestOne(w.rows, e).Ok? || (LostCorrection(w, e) && IngestOne(w.rows, e) == Err(Decrease(day))))
  {
    hide Valid, Decreases, NetOk, HistoriesOk, JournalOk;
    var e := journal[day];
    EntryAt(w.history, w.rows, journal, day);
    HistoryAt(w.history, w.rows, day);
    if day in w.rows {
      assert RowOk(w.history, day, w.rows[day]);
      var past, row := w.history[day], w.rows[day].revision;
      if !e.allow && row < e.revision && !LostCorrection(w, e) {
        NotLost(day, past, row, e);
      }
    }
  }

  /** An entry that lost a correction is refused exactly if it is below the broker's report. */
  lemma LostIsJudged(rows: Rows, w: World, e: Entry)
    requires LostCorrection(w, e) && rows == w.rows
    ensures DayOf(e) in rows && (IngestOne(rows, e).Err? <==> Decreases(rows[DayOf(e)].report.row, e.report.row))
  {
    hide Decreases;
  }

  /** In every run an upload of current journal entries is refused exactly if one of them lost a correction and is
      below the broker's report: never STALE, never REVISION_CONFLICT, and DECREASE only for such a day. */
  lemma CurrentUpload(steps: seq<Step>, batch: seq<Entry>, at: Setting)
    requires var w := Run(steps); w.memory.Some? && Sendable(w.memory.value, batch)
    requires at.supported && at.authentic && |batch| <= BATCH_LIMIT
    requires forall i | 0 <= i < |batch| :: DayOf(batch[i]) <= at.latest
    ensures var w := Run(steps);
            Ingest(w.rows, batch, at).Err? <==>
              exists i | 0 <= i < |batch| ::
                LostCorrection(w, batch[i]) && Decreases(w.rows[DayOf(batch[i])].report.row, batch[i].report.row)
    ensures var w := Run(steps);
            || Ingest(w.rows, batch, at).Ok?
            || exists i | 0 <= i < |batch| ::
                 LostCorrection(w, batch[i]) && Ingest(w.rows, batch, at) == Err(Decrease(DayOf(batch[i])))
  {
    hide LostCorrection, Inv, IngestOne, Decreases;
    var w := Run(steps);
    RunInv(steps);
    MemoryOk(w);
    forall i | 0 <= i < |batch|
      ensures Acceptable(batch[i], at.latest)
      ensures IngestOne(w.rows, batch[i]).Ok? ||
              (LostCorrection(w, batch[i]) && IngestOne(w.rows, batch[i]) == Err(Decrease(DayOf(batch[i]))))
      ensures LostCorrection(w, batch[i]) ==>
                DayOf(batch[i]) in w.rows &&
                (IngestOne(w.rows, batch[i]).Err? <==>
                 Decreases(w.rows[DayOf(batch[i])].report.row, batch[i].report.row))
    {
      EntryAccepted(w, w.memory.value, DayOf(batch[i]));
      if LostCorrection(w, batch[i]) { LostIsJudged(w.rows, w, batch[i]); }
    }
    JudgedSeparately(w.rows, batch);
  }

  lemma MemoryOk(w: World)
    requires Inv(w) && w.memory.Some?
    ensures JournalOk(w.history, w.rows, w.memory.value)
  {
  }

  // Runs without lost corrections.

  /** No unflagged capture supersedes a flagged entry before it is acknowledged. */
  predicate CalmStep(w: World, step: Step) {
    step.Capture? && !step.allow && w.memory.Some? ==>
      forall i | 0 <= i < |step.reports| ::
        var day := step.reports[i].row.period;
        day in w.memory.value && w.memory.value[day].allow && !w.memory.value[day].acked ==>
          !Judge(w.memory.value, step.reports[i], false).Superseded?
  }

  predicate Calm(steps: seq<Step>) {
    steps == [] || (Calm(steps[..|steps| - 1]) && CalmStep(Run(steps[..|steps| - 1]), steps[|steps| - 1]))
  }

  /** Behind the broker's version flags are kept. */
  predicate FlagsKept(past: seq<Version>, row: int) {
    forall i | 0 < i < |past| && row < i && past[i - 1].allow :: past[i].allow
  }

  predicate AllFlagsKept(w: World) {
    forall day | day in w.history :: FlagsKept(w.history[day], RowRevision(w.rows, day))
  }

  lemma {:induction false} CaptureCalmAt(journal: Journal, reports: seq<Report>, day: Day)
    requires ValidDaily(reports) && day in journal && journal[day].allow && !journal[day].acked
    requires forall i | 0 <= i < |reports| && reports[i].row.period == day ::
               !Judge(journal, reports[i], false).Superseded?
    ensures SameAt(journal, CaptureAll(journal, reports, false).journal, day)
  {
    if reports != [] {
      var front, last := reports[..|reports| - 1], reports[|reports| - 1];
      assert forall i | 0 <= i < |front| :: front[i] == reports[i];
      CaptureCalmAt(journal, front, day);
      CaptureAt(journal, front, false, day);
    }
  }

  lemma CaptureCalmDay(w: World, reports: seq<Report>, allow: bool, day: Day)
    requires Inv(w) && AllFlagsKept(w) && CalmStep(w, Capture(reports, allow, true))
    requires w.memory.Some? && ValidDaily(reports)
    ensures var journal' := CaptureAll(w.memory.value, reports, allow).journal;
            day in journal' ==> FlagsKept(Extended(w.history, w.memory.value, journal')[day], RowRevision(w.rows, day))
  {
    hide HistoriesOk, RowsOk, NetOk, CaptureAll, Judge, Valid, Decreases, JournalOk, ValidDaily;
    var journal := w.memory.value;
    var journal' := CaptureAll(journal, reports, allow).journal;
    CaptureAt(journal, reports, allow, day);
    if day in journal {
      EntryAt(w.history, w.rows, journal, day);
      assert FlagsKept(w.history[day], RowRevision(w.rows, day));
      if !allow && journal[day].allow && !journal[day].acked { CaptureCalmAt(journal, reports, day); }
      if journal[day].acked { AckedRow(w.history, w.rows, journal, day); }
    }
    NewHasNoPast(w.history, w.rows, journal, day);
    if day in journal' && !SameAt(journal, journal', day) {
      assert Extended(w.history, journal, journal')[day] ==
             Past(w.history, day) + [Version(journal'[day].report, journal'[day].allow)];
    }
  }

  lemma AckedRow(h: History, rows: Rows, journal: Journal, day: Day)
    requires JournalOk(h, rows, journal) && day in journal && journal[day].acked
    ensures RowRevision(rows, day) >= |h[day]|
  {
    assert EntryOk(h, day, journal[day]);
  }

  lemma NewHasNoPast(h: History, rows: Rows, journal: Journal, day: Day)
    requires JournalOk(h, rows, journal)
    ensures day in journal <==> day in h
  {
  }

  lemma CaptureCalm(w: World, reports: seq<Report>, allow: bool)
    requires Inv(w) && AllFlagsKept(w) && CalmStep(w, Capture(reports, allow, true))
    requires w.memory.Some? && w.wait.None? && ValidDaily(reports)
    ensures AllFlagsKept(Next(w, Capture(reports, allow, true)))
  {
    hide Inv, CaptureAll, FlagsKept, CalmStep, ValidDaily, Past;
    var journal' := CaptureAll(w.memory.value, reports, allow).journal;
    forall day | day in journal'
      ensures FlagsKept(Extended(w.history, w.memory.value, journal')[day], RowRevision(w.rows, day))
    {
      CaptureCalmDay(w, reports, allow, day);
    }
  }

  lemma FlagsLater(w: World, rows': Rows)
    requires AllFlagsKept(w) && Advanced(w.rows, rows')
    ensures AllFlagsKept(w.(rows := rows'))
  {
    forall day | day in w.history ensures FlagsKept(w.history[day], RowRevision(rows', day)) {
      assert FlagsKept(w.history[day], RowRevision(w.rows, day));
      assert day in w.rows ==> day in rows';
    }
  }

  /** Only a written capture changes the history. */
  predicate Captures(w: World, step: Step) {
    step.Capture? && step.saved && w.memory.Some? && w.wait.None? && ValidDaily(step.reports)
  }

  lemma HistoryKept(w: World, step: Step)
    requires !Captures(w, step)
    ensures Next(w, step).history == w.history
  {
    hide CaptureAll, Ingest, AckAll, Sendable, ValidDaily;
  }

  lemma CalmNext(w: World, step: Step)
    requires Inv(w) && AllFlagsKept(w) && CalmStep(w, step)
    ensures AllFlagsKept(Next(w, step))
  {
    hide Inv, CalmStep, FlagsKept, Next, Advanced, ValidDaily, Extends;
    StepInv(w, step);
    if Captures(w, step) {
      CaptureCalm(w, step.reports, step.allow);
    } else {
      HistoryKept(w, step);
      FlagsLater(w, Next(w, step).rows);
    }
  }

  lemma {:induction false} CalmFlags(steps: seq<Step>)
    requires Calm(steps)
    ensures AllFlagsKept(Run(steps))
  {
    if steps != [] {
      hide Inv, CalmStep, AllFlagsKept, Next;
      CalmFlags(steps[..|steps| - 1]);
      RunInv(steps[..|steps| - 1]);
      CalmNext(Run(steps[..|steps| - 1]), steps[|steps| - 1]);
    }
  }

  lemma {:induction false} FlagsReach(past: seq<Version>, row: int, a: nat, b: nat)
    requires FlagsKept(past, row) && row < a <= b <= |past| && 1 <= a && past[a - 1].allow
    ensures past[b - 1].allow
  {
    if a < b { FlagsReach(past, row, a, b - 1); }
  }

  /** In calm runs every upload of current journal entries is accepted. */
  lemma {:induction false} CalmUpload(steps: seq<Step>, batch: seq<Entry>, at: Setting)
    requires Calm(steps)
    requires var w := Run(steps); w.memory.Some? && Sendable(w.memory.value, batch)
    requires at.supported && at.authentic && |batch| <= BATCH_LIMIT
    requires forall i | 0 <= i < |batch| :: DayOf(batch[i]) <= at.latest
    ensures Ingest(Run(steps).rows, batch, at).Ok?
  {
    hide Inv, Ingest;
    var w := Run(steps);
    CurrentUpload(steps, batch, at);
    CalmFlags(steps);
    RunInv(steps);
    MemoryOk(w);
    forall i | 0 <= i < |batch| ensures !LostCorrection(w, batch[i]) {
      var e := batch[i];
      var day := DayOf(e);
      assert EntryOk(w.history, day, w.memory.value[day]);
      if LostCorrection(w, e) {
        FlagsReach(w.history[day], w.rows[day].revision, w.rows[day].revision + 1, e.revision);
      }
    }
  }

  predicate Unflagged(steps: seq<Step>) {
    forall i | 0 <= i < |steps| && steps[i].Capture? :: !steps[i].allow
  }

  predicate NoFlag(past: seq<Version>) { forall i | 0 <= i < |past| :: !past[i].allow }

  predicate NoFlags(w: World) { forall day | day in w.history :: NoFlag(w.history[day]) }

  lemma CaptureNoFlags(w: World, reports: seq<Report>)
    requires Inv(w) && NoFlags(w) && w.memory.Some? && w.wait.None? && ValidDaily(reports)
    ensures NoFlags(Next(w, Capture(reports, false, true)))
  {
    hide HistoriesOk, RowsOk, NetOk, CaptureAll, Judge;
    var journal := w.memory.value;
    var journal' := CaptureAll(journal, reports, false).journal;
    forall day | day in journal' ensures NoFlag(Extended(w.history, journal, journal')[day]) {
      CaptureAt(journal, reports, false, day);
      if day in w.history { assert NoFlag(w.history[day]); }
      if day in journal { assert EntryOk(w.history, day, journal[day]); }
    }
  }

  lemma UnflaggedNext(w: World, step: Step)
    requires Inv(w) && NoFlags(w) && (step.Capture? ==> !step.allow)
    ensures NoFlags(Next(w, step)) && CalmStep(w, step)
  {
    hide Inv, Next, ValidDaily, NoFlag, Judge;
    if w.memory.Some? {
      MemoryOk(w);
      forall day | day in w.memory.value ensures !w.memory.value[day].allow { FlagOf(w, w.memory.value, day); }
    }
    if Captures(w, step) {
      CaptureNoFlags(w, step.reports);
    } else {
      HistoryKept(w, step);
    }
  }

  lemma {:induction false} UnflaggedHistory(steps: seq<Step>)
    requires Unflagged(steps)
    ensures NoFlags(Run(steps)) && Calm(steps)
  {
    if steps != [] {
      hide Inv, NoFlags, CalmStep, Next;
      var front := steps[..|steps| - 1];
      assert forall i | 0 <= i < |front| :: front[i] == steps[i];
      UnflaggedHistory(front);
      RunInv(front);
      UnflaggedNext(Run(front), steps[|steps| - 1]);
    } else {
      assert Run(steps).history == map[];
    }
  }

  lemma FlagOf(w: World, journal: Journal, day: Day)
    requires JournalOk(w.history, w.rows, journal) && NoFlags(w) && day in journal
    ensures !journal[day].allow
  {
    assert EntryOk(w.history, day, journal[day]);
    assert NoFlag(w.history[day]);
  }

  /** Without allowed decreases nothing is ever refused for one. */
  lemma UnflaggedUpload(steps: seq<Step>, batch: seq<Entry>, at: Setting)
    requires Unflagged(steps)
    requires var w := Run(steps); w.memory.Some? && Sendable(w.memory.value, batch)
    requires at.supported && at.authentic && |batch| <= BATCH_LIMIT
    requires forall i | 0 <= i < |batch| :: DayOf(batch[i]) <= at.latest
    ensures Ingest(Run(steps).rows, batch, at).Ok?
  {
    UnflaggedHistory(steps);
    CalmUpload(steps, batch, at);
  }

  lemma {:induction false} UnflaggedChain(day: Day, past: seq<Version>, row: int, a: nat, b: nat)
    requires HistoryOk(day, past, row) && NoFlag(past) && 1 <= a <= b <= |past|
    ensures !Decreases(past[a - 1].report.row, past[b - 1].report.row)
  {
    if a == b {
      DecreasesReflexive(past[a - 1].report);
    } else {
      UnflaggedChain(day, past, row, a, b - 1);
      assert !Fell(past, b - 1);
      DecreasesTransitive(past[a - 1].report, past[b - 2].report, past[b - 1].report);
    }
  }

  lemma StoredNotLower(w: World, w': World, day: Day)
    requires Inv(w) && Inv(w') && Extends(w.history, w'.history) && Advanced(w.rows, w'.rows) && NoFlags(w')
    requires day in w.rows
    ensures !Decreases(w.rows[day].report.row, w'.rows[day].report.row)
  {
    hide Inv, Valid, Decreases, HistoriesOk;
    RowInJournal(w, day);
    RowInJournal(w', day);
    HistoryOf(w', day);
    assert NoFlag(w'.history[day]);
    UnflaggedChain(day, w'.history[day], RowRevision(w'.rows, day), w.rows[day].revision, w'.rows[day].revision);
  }

  lemma HistoryOf(w: World, day: Day)
    requires Inv(w) && day in w.history
    ensures HistoryOk(day, w.history[day], RowRevision(w.rows, day))
  {
  }

  /** And no stored counter ever goes down, whatever stale or repeated request arrives. */
  lemma StoredNeverFalls(steps: seq<Step>, step: Step, day: Day)
    requires Unflagged(steps + [step]) && day in Run(steps).rows
    ensures var rows' := Run(steps + [step]).rows;
            day in rows' && !Decreases(Run(steps).rows[day].report.row, rows'[day].report.row)
  {
    hide Next, Inv, NoFlags;
    var all := steps + [step];
    assert all[..|all| - 1] == steps;
    RunInv(steps);
    RunInv(all);
    StepInv(Run(steps), step);
    UnflaggedHistory(all);
    StoredNotLower(Run(steps), Run(all), day);
  }

  // Why the flag matters.

  lemma CaptureNext(w: World, journal: Journal, r: Report, allow: bool)
    requires w.memory == Some(journal) && w.wait.None? && Valid(r)
    ensures var verdict := Judge(journal, r, allow);
            verdict.Superseded? ==>
              var journal' := journal[r.row.period := verdict.entry];
              Next(w, Capture([r], allow, true)) ==
                w.(disk := journal', memory := Some(journal'), history := Extended(w.history, journal, journal'))
    ensures Judge(journal, r, allow).Unchanged? ==> CaptureAll(journal, [r], allow).journal == journal
  {
    assert [r][..0] == [];
    assert CaptureAll(journal, [r][..0], allow) == Captured(journal, 0, false);
  }

  /** The day's entry of the running sync, uploaded by itself, is accepted. */
  predicate Uploads(w: World, day: Day, at: Setting) {
    w.memory.Some? && day in w.memory.value && Ingest(w.rows, [w.memory.value[day].(acked := false)], at).Ok?
  }

  /** A report that supersedes a pending entry is refused exactly if it is captured without the flag and below the
      broker's report, whether or not the pending entry carried the flag. */
  lemma SupersededUpload(steps: seq<Step>, day: Day, r: Report, allow: bool, at: Setting)
    requires PendingEntry(Run(steps), day, at) && Valid(r) && r.row.period == day
    requires r != Run(steps).memory.value[day].report && !Decreases(Run(steps).memory.value[day].report.row, r.row)
    ensures var w, w' := Run(steps), Next(Run(steps), Capture([r], allow, true));
            && w'.rows == w.rows && w'.memory.Some? && day in w'.memory.value
            && w'.memory.value[day] == Entry(w.memory.value[day].revision + 1, r, allow, false)
            && (Uploads(w', day, at) <==> allow || !Decreases(w.rows[day].report.row, r.row))
  {
    hide Decreases, Valid, Run, Inv, Next;
    var w := Run(steps);
    var e := Entry(w.memory.value[day].revision + 1, r, allow, false);
    PendingRow(steps, day, at);
    CaptureNext(w, w.memory.value, r, allow);
    AloneIsJudged(w.rows, e, at);
  }

  /** An entry of the running sync that the broker has not acknowledged, for a day the broker stores. */
  predicate PendingEntry(w: World, day: Day, at: Setting) {
    && w.memory.Some? && w.wait.None? && day in w.memory.value && day in w.rows
    && !w.memory.value[day].acked && w.memory.value[day].revision < MAX_REVISION
    && at.supported && at.authentic && day <= at.latest
  }

  lemma PendingRow(steps: seq<Step>, day: Day, at: Setting)
    requires PendingEntry(Run(steps), day, at)
    ensures var w := Run(steps);
            && Valid(w.rows[day].report) && Valid(w.memory.value[day].report)
            && w.rows[day].report.row.period == day == w.memory.value[day].report.row.period
            && 1 <= w.rows[day].revision <= w.memory.value[day].revision
  {
    hide Inv, Valid, Run, JournalOk, HistoriesOk, RowsOk, NetOk;
    var w := Run(steps);
    RunInv(steps);
    MemoryOk(w);
    RowInJournal(w, day);
    EntryAt(w.history, w.rows, w.memory.value, day);
    HistoryOf(w, day);
    ValidAt(day, w.history[day], RowRevision(w.rows, day), w.rows[day].revision - 1);
    ValidAt(day, w.history[day], RowRevision(w.rows, day), w.memory.value[day].revision - 1);
  }

  lemma AloneIsJudged(rows: Rows, e: Entry, at: Setting)
    requires at.supported && at.authentic && Acceptable(e, at.latest)
    ensures Ingest(rows, [e], at) == IngestOne(rows, e)
  {
    assert [e][..0] == [];
    assert IngestAll(rows, [e][..0]) == Ok(rows);
  }

  /** Whatever unflagged report supersedes a pending entry, its upload is accepted, if and only if the superseded
      entry was not below the broker's report: superseding a flagged correction is what is unsafe. */
  lemma SupersedingIsSafe(steps: seq<Step>, day: Day, at: Setting)
    requires PendingEntry(Run(steps), day, at)
    ensures var w := Run(steps); var pending := w.memory.value[day].report;
            (forall r: Report | Valid(r) && r.row.period == day && r != pending && !Decreases(pending.row, r.row) ::
               Uploads(Next(w, Capture([r], false, true)), day, at)) <==>
            !Decreases(w.rows[day].report.row, pending.row)
  {
    hide Decreases, Run, Next, Uploads;
    var w := Run(steps);
    var stored, pending := w.rows[day].report, w.memory.value[day].report;
    PendingRow(steps, day, at);
    if !Decreases(stored.row, pending.row) {
      forall r: Report | Valid(r) && r.row.period == day && r != pending && !Decreases(pending.row, r.row)
        ensures Uploads(Next(w, Capture([r], false, true)), day, at)
      {
        DecreasesTransitive(stored, pending, r);
        SupersededUpload(steps, day, r, false, at);
      }
    } else {
      var other := pending.(rest := pending.rest + 1);  // the same counters, another document
      DecreasesReflexive(pending);
      SupersededUpload(steps, day, other, false, at);
    }
  }

  lemma DeliverNext(w: World, e: Entry, at: Setting)
    requires w.net == [[e]] && w.rows == map[] && Acceptable(e, at.latest) && at.supported && at.authentic
    ensures Next(w, Deliver(0, at)) ==
            w.(rows := map[DayOf(e) := Stored(e.revision, e.report)], answered := w.answered + {0})
  {
    assert [e][..0] == [];
    assert IngestAll(w.rows, [e][..0]) == Ok(w.rows);
  }

  /** One delivered and acknowledged report. */
  function Synced(r: Report): World {
    var e := Entry(1, r, false, true);
    World(map[r.row.period := e], Some(map[r.row.period := e]), None, [[e.(acked := false)]], {0},
          map[r.row.period := Stored(1, r)], map[r.row.period := [Version(r, false)]])
  }

  lemma SyncedReached(r: Report, at: Setting)
    requires Acceptable(Entry(1, r, false, false), at.latest) && at.supported && at.authentic
    ensures var e := Entry(1, r, false, false);
            Run([] + [Begin] + [Capture([r], false, true)] + [Send([e])] + [Deliver(0, at)] + [Acknowledge] + [Save]) ==
              Synced(r)
  {
    hide Run, Ingest, CaptureAll, Extended, AckAll, Valid;
    var e, day := Entry(1, r, false, false), r.row.period;
    var s1, s2 := [] + [Begin], [] + [Begin] + [Capture([r], false, true)];
    var s3 := s2 + [Send([e])];
    var s4 := s3 + [Deliver(0, at)];
    RunThen([], Begin);
    RunThen(s1, Capture([r], false, true));
    RunThen(s2, Send([e]));
    RunThen(s3, Deliver(0, at));
    RunThen(s4, Acknowledge);
    RunThen(s4 + [Acknowledge], Save);
    RunNone();
    CaptureNext(Run(s1), map[], r, false);
    FirstVersion(e);
    assert Run(s2) == World(map[day := e], Some(map[day := e]), None, [], {}, map[], map[day := [Version(r, false)]]);
    DeliverNext(Run(s3), e, at);
    AckOnly(e);
  }

  lemma RunNone()
    ensures Run([]) == Empty()
  {
  }

  lemma RunThen(steps: seq<Step>, step: Step)
    ensures Run(steps + [step]) == Next(Run(steps), step)
  {
    assert (steps + [step])[..|steps + [step]| - 1] == steps;
  }

  lemma FirstVersion(e: Entry)
    ensures Extended(map[], map[], map[][DayOf(e) := e]) == map[DayOf(e) := [Version(e.report, e.allow)]]
  {
    assert [] + [Version(e.report, e.allow)] == [Version(e.report, e.allow)];
    assert Extended(map[], map[], map[][DayOf(e) := e])[DayOf(e)] == [Version(e.report, e.allow)];
  }

  lemma AckOnly(e: Entry)
    ensures AckAll(map[DayOf(e) := e], [e]) == map[DayOf(e) := e.(acked := true)]
  {
    assert [e][0] == e;
  }

  /** The flag is lost when an unflagged report supersedes an undelivered correction: the run below ends
      with a journal whose upload is refused, and capturing the same report with decreases allowed leaves it so
      (`SupersededUpload` says which other report is accepted again). */
  lemma CorrectionLost(r1: Report, r2: Report, r3: Report, at: Setting) returns (steps: seq<Step>)
    requires at.supported && at.authentic && r1.row.period <= at.latest
    requires Valid(r1) && Valid(r2) && Valid(r3) && r2.row.period == r1.row.period == r3.row.period
    requires Decreases(r1.row, r2.row) && !Decreases(r2.row, r3.row) && Decreases(r1.row, r3.row) && r3 != r2
    ensures var w, e := Run(steps), Entry(3, r3, false, false);
            && w.memory == Some(map[r1.row.period := e])
            && Ingest(w.rows, [e], at) == Err(Decrease(r1.row.period))
            && CaptureAll(w.memory.value, [r3], true).journal == w.memory.value
  {
    hide Valid, Run, CaptureAll, Extended, Decreases, Ingest;
    var day, e := r1.row.period, Entry(1, r1, false, false);
    var base := [] + [Begin] + [Capture([r1], false, true)] + [Send([e])] + [Deliver(0, at)] + [Acknowledge] + [Save];
    var more := base + [Capture([r2], true, true)];
    steps := more + [Capture([r3], false, true)];
    SyncedReached(r1, at);
    RunThen(base, Capture([r2], true, true));
    RunThen(more, Capture([r3], false, true));
    DecreasesReflexive(r1);
    var e2, e3 := Entry(2, r2, true, false), Entry(3, r3, false, false);
    CaptureNext(Run(base), map[day := e.(acked := true)], r2, true);
    assert map[day := e.(acked := true)][day := e2] == map[day := e2];
    CaptureNext(Run(more), map[day := e2], r3, false);
    assert map[day := e2][day := e3] == map[day := e3];
    CaptureNext(Run(steps), map[day := e3], r3, true);
    AloneIsJudged(Run(steps).rows, e3, at);
  }
}
