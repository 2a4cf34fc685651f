/** The usage-report sync protocol (internal/usagesync/client.go against internal/identity/reports.go):
    one intact journal, a network that loses, duplicates, delays and reorders requests, crashes anywhere. */
module UsageSync {
  import opened Base
  import opened Reports
  import opened ReportStore

  const MAX_REVISION := 0x7fff_ffff_ffff_ffff

  type Journal = map<Day, Entry>

  // Capture: fold one collection into the journal.

  datatype Verdict = Unchanged | Kept | Exhausted | Superseded(entry: Entry)

  function Judge(journal: Journal, report: Report, allow: bool): Verdict {
    var day := report.row.period;
    if day in journal && journal[day].report == report then Unchanged
    else if day in journal && !allow && Decreases(journal[day].report.row, report.row) then Kept
    else if day in journal && !journal[day].acked && Decreases(journal[day].report.row, report.row) then Kept
    else if day in journal && journal[day].revision == MAX_REVISION then Exhausted
    else Superseded(Entry(if day in journal then journal[day].revision + 1 else 1, report, allow, false))
  }

  datatype Captured = Captured(journal: Journal, warnings: nat, exhausted: bool)

  function CaptureAll(journal: Journal, reports: seq<Report>, allow: bool): Captured {
    if reports == [] then Captured(journal, 0, false)
    else
      var c, last := CaptureAll(journal, reports[..|reports| - 1], allow), reports[|reports| - 1];
      if c.exhausted then c
      else
        match Judge(c.journal, last, allow)
        case Unchanged => c
        case Kept => c.(warnings := c.warnings + 1)
        case Exhausted => c.(exhausted := true)
        case Superseded(e) => c.(journal := c.journal[last.row.period := e])
  }

  /** Acknowledge the days of a delivered batch. */
  function AckAll(journal: Journal, batch: seq<Entry>): Journal {
    map day | day in journal ::
      if exists i | 0 <= i < |batch| :: DayOf(batch[i]) == day then journal[day].(acked := true) else journal[day]
  }

  // The whole system.  `history` remembers every report ever written to the journal file, per day in revision order.

  datatype Version = Version(report: Report, allow: bool)

  type History = map<Day, seq<Version>>

  datatype World = World(
    disk: Journal,              // the journal file
    memory: Option<Journal>,    // a running sync's copy
    wait: Option<nat>,          // the request it waits for
    net: seq<seq<Entry>>,       // every request ever sent; any of them may arrive at any time, again and again
    answered: set<nat>,         // requests the broker accepted
    rows: Rows,                 // the broker's table
    history: History)

  datatype Step =
    | Begin                                                   // a sync reads the journal file
    | Capture(reports: seq<Report>, allow: bool, saved: bool) // collect, update the journal, try to write it
    | Send(batch: seq<Entry>)
    | Deliver(request: nat, at: Setting)
    | Acknowledge                                             // the reply to the awaited request arrives
    | Save                                                    // write acknowledgements
    | Abandon                                                 // the awaited request fails or times out
    | Stop                                                    // the sync ends or crashes

  function Empty(): World { World(map[], None, None, [], {}, map[], map[]) }

  function Past(history: History, day: Day): seq<Version> { if day in history then history[day] else [] }

  function Extended(history: History, journal: Journal, journal': Journal): History {
    map day | day in journal' ::
      if day in journal && journal[day].revision == journal'[day].revision then Past(history, day)
      else Past(history, day) + [Version(journal'[day].report, journal'[day].allow)]
  }

  /** What upload may put into one request: pending entries of the current journal. */
  predicate Sendable(journal: Journal, batch: seq<Entry>) {
    && DistinctDays(batch)
    && forall i | 0 <= i < |batch| ::
         DayOf(batch[i]) in journal && journal[DayOf(batch[i])] == batch[i] && !batch[i].acked
  }

  function Next(w: World, step: Step): World {
    match step
    case Begin => if w.memory.None? then w.(memory := Some(w.disk)) else w
    case Capture(reports, allow, saved) =>
      if w.memory.None? || w.wait.Some? || !ValidDaily(reports) then w
      else
        var c := CaptureAll(w.memory.value, reports, allow);
        if c.exhausted || !saved then w.(memory := None)
        else w.(disk := c.journal, memory := Some(c.journal),
                history := Extended(w.history, w.memory.value, c.journal))
    case Send(batch) =>
      if w.memory.None? || w.wait.Some? || !Sendable(w.memory.value, batch) then w
      else w.(net := w.net + [batch], wait := Some(|w.net|))
    case Deliver(k, at) =>
      if k >= |w.net| then w
      else
        var r := Ingest(w.rows, w.net[k], at);
        if r.Err? then w else w.(rows := r.value, answered := w.answered + {k})
    case Acknowledge =>
      if w.memory.None? || w.wait.None? || w.wait.value !in w.answered || w.wait.value >= |w.net| then w
      else w.(memory := Some(AckAll(w.memory.value, w.net[w.wait.value])), wait := None)
    case Save => if w.memory.None? || w.wait.Some? then w else w.(disk := w.memory.value)
    case Abandon => w.(wait := None)
    case Stop => w.(memory := None, wait := None)
  }

  function Run(steps: seq<Step>): World {
    if steps == [] then Empty() else Next(Run(steps[..|steps| - 1]), steps[|steps| - 1])
  }

  // The invariant of all runs.

  predicate VersionAt(history: History, day: Day, revision: int, report: Report) {
    day in history && 1 <= revision <= |history[day]| && history[day][revision - 1].report == report
  }

  predicate EntryOk(history: History, day: Day, e: Entry) {
    && DayOf(e) == day && VersionAt(history, day, e.revision, e.report)
    && e.revision == |history[day]| && history[day][e.revision - 1].allow == e.allow
  }

  predicate JournalOk(history: History, rows: Rows, journal: Journal) {
    && journal.Keys == history.Keys
    && (forall day | day in journal :: EntryOk(history, day, journal[day]))
    && (forall day | day in journal :: journal[day].acked ==> Present(rows, journal[day]))
  }

  predicate RowOk(history: History, day: Day, stored: Stored) {
    stored.report.row.period == day && VersionAt(history, day, stored.revision, stored.report)
  }

  predicate SentOk(history: History, e: Entry) {
    VersionAt(history, DayOf(e), e.revision, e.report) && history[DayOf(e)][e.revision - 1].allow == e.allow
  }

  function RowRevision(rows: Rows, day: Day): int { if day in rows then rows[day].revision else 0 }

  /** A day's history: valid reports, decreasing only at flagged versions, and after the broker's own
      version only right behind it. */
  predicate HistoryOk(day: Day, past: seq<Version>, row: int) {
    && |past| > 0
    && (forall i | 0 <= i < |past| :: Valid(past[i].report) && past[i].report.row.period == day)
    && (forall i | 0 < i < |past| && Fell(past, i) :: past[i].allow && i <= row)
  }

  predicate Fell(past: seq<Version>, i: nat)
    requires 0 < i < |past|
  {
    Decreases(past[i - 1].report.row, past[i].report.row)
  }

  predicate BatchSent(history: History, batch: seq<Entry>) { forall e | e in batch :: SentOk(history, e) }

  predicate BatchPresent(rows: Rows, batch: seq<Entry>) { forall e | e in batch :: Present(rows, e) }

  predicate RowsOk(history: History, rows: Rows) { forall day | day in rows :: RowOk(history, day, rows[day]) }

  predicate HistoriesOk(history: History, rows: Rows) {
    forall day | day in history :: HistoryOk(day, history[day], RowRevision(rows, day))
  }

  predicate InJournal(journal: Journal, batch: seq<Entry>) {
    forall e | e in batch :: DayOf(e) in journal && journal[DayOf(e)].revision == e.revision
  }

  predicate NetOk(w: World) {
    && (forall k | 0 <= k < |w.net| :: BatchSent(w.history, w.net[k]))
    && (forall k | k in w.answered :: k < |w.net| && BatchPresent(w.rows, w.net[k]))
    && (w.wait.Some? ==> w.memory.Some? && w.wait.value < |w.net| && InJournal(w.memory.value, w.net[w.wait.value]))
  }

  predicate Inv(w: World) {
    && JournalOk(w.history, w.rows, w.disk)
    && (w.memory.Some? ==> JournalOk(w.history, w.rows, w.memory.value))
    && RowsOk(w.history, w.rows) && HistoriesOk(w.history, w.rows) && NetOk(w)
  }

  // Capture keeps the invariant.

  /** What a superseding entry is, given the journal before. */
  predicate Replaces(journal: Journal, day: Day, e: Entry, allow: bool) {
    && DayOf(e) == day && Valid(e.report) && e.allow == allow && !e.acked
    && e.revision == (if day in journal then journal[day].revision + 1 else 1)
    && (day in journal && Decreases(journal[day].report.row, e.report.row) ==> allow && journal[day].acked)
  }

  predicate SameAt(journal: Journal, journal': Journal, day: Day) {
    (day in journal' <==> day in journal) && (day in journal ==> journal'[day] == journal[day])
  }

  predicate CapturedAt(journal: Journal, journal': Journal, day: Day, allow: bool) {
    SameAt(journal, journal', day) || (day in journal' && Replaces(journal, day, journal'[day], allow))
  }

  /** Each day is left alone or superseded once, by the next revision. */
  lemma {:induction false} CaptureAt(journal: Journal, reports: seq<Report>, allow: bool, day: Day)
    requires ValidDaily(reports)
    ensures var journal' := CaptureAll(journal, reports, allow).journal;
            && CapturedAt(journal, journal', day, allow)
            && ((forall i | 0 <= i < |reports| :: reports[i].row.period != day) ==> SameAt(journal, journal', day))
  {
    if reports != [] {
      var front, last := reports[..|reports| - 1], reports[|reports| - 1];
      assert forall i | 0 <= i < |front| :: front[i] == reports[i];
      CaptureAt(journal, front, allow, day);
      CaptureAt(journal, front, allow, last.row.period);
    }
  }

  predicate Extends(h: History, h': History) {
    forall day | day in h :: day in h' && h[day] <= h'[day]
  }

  lemma AppendOk(day: Day, past: seq<Version>, row: int, e: Entry)
    requires past == [] || HistoryOk(day, past, row)
    requires Valid(e.report) && DayOf(e) == day
    requires past != [] && Decreases(past[|past| - 1].report.row, e.report.row) ==> e.allow && |past| <= row
    ensures HistoryOk(day, past + [Version(e.report, e.allow)], row)
  {
    hide Valid, Decreases;
    var past' := past + [Version(e.report, e.allow)];
    forall i | 0 < i < |past'| && Fell(past', i) ensures past'[i].allow && i <= row {
      if i < |past| { assert Fell(past, i); }
    }
  }

  lemma CaptureDay(h: History, rows: Rows, journal: Journal, journal': Journal, allow: bool, day: Day)
    requires JournalOk(h, rows, journal) && HistoriesOk(h, rows)
    requires day in journal' && CapturedAt(journal, journal', day, allow)
    ensures var h' := Extended(h, journal, journal');
            && EntryOk(h', day, journal'[day]) && (journal'[day].acked ==> Present(rows, journal'[day]))
            && HistoryOk(day, h'[day], RowRevision(rows, day))
            && (day in h ==> h[day] <= h'[day])
  {
    hide Valid, Decreases, HistoryOk, HistoriesOk;
    var e, h' := journal'[day], Extended(h, journal, journal');
    if day in journal {
      assert EntryOk(h, day, journal[day]);
      HistoryAt(h, rows, day);
    }
    if !SameAt(journal, journal', day) {
      assert h'[day] == Past(h, day) + [Version(e.report, e.allow)];
      AppendOk(day, Past(h, day), RowRevision(rows, day), e);
    }
  }

  lemma HistoryAt(h: History, rows: Rows, day: Day)
    requires HistoriesOk(h, rows) && day in h
    ensures HistoryOk(day, h[day], RowRevision(rows, day))
  {
  }

  lemma CaptureInv(w: World, reports: seq<Report>, allow: bool)
    requires Inv(w) && w.memory.Some? && w.wait.None? && ValidDaily(reports)
    ensures var w' := Next(w, Capture(reports, allow, true)); Inv(w') && Extends(w.history, w'.history)
  {
    hide HistoryOk, EntryOk, Present, RowOk, SentOk, CapturedAt, NetOk, RowsOk, ValidDaily, CaptureAll;
    var journal := w.memory.value;
    var journal' := CaptureAll(journal, reports, allow).journal;
    var h' := Extended(w.history, journal, journal');
    forall day ensures CapturedAt(journal, journal', day, allow) {
      CaptureAt(journal, reports, allow, day);
    }
    forall day | day in journal'
      ensures EntryOk(h', day, journal'[day]) && (journal'[day].acked ==> Present(w.rows, journal'[day]))
      ensures HistoryOk(day, h'[day], RowRevision(w.rows, day))
    {
      CaptureDay(w.history, w.rows, journal, journal', allow, day);
    }
    CaptureExtends(w, journal', allow);
    ExtendsKeeps(w, Next(w, Capture(reports, allow, true)));
  }

  lemma CaptureExtends(w: World, journal': Journal, allow: bool)
    requires Inv(w) && w.memory.Some? && forall day :: CapturedAt(w.memory.value, journal', day, allow)
    ensures Extends(w.history, Extended(w.history, w.memory.value, journal'))
  {
    forall day | day in w.history
      ensures day in journal' && w.history[day] <= Extended(w.history, w.memory.value, journal')[day]
    {
      assert CapturedAt(w.memory.value, journal', day, allow);
      CaptureDay(w.history, w.rows, w.memory.value, journal', allow, day);
    }
  }

  lemma ExtendsKeeps(w: World, w': World)
    requires RowsOk(w.history, w.rows) && NetOk(w) && Extends(w.history, w'.history)
    requires w'.net == w.net && w'.answered == w.answered && w'.rows == w.rows && w'.wait.None?
    ensures RowsOk(w'.history, w'.rows) && NetOk(w')
  {
    forall k | 0 <= k < |w.net| ensures BatchSent(w'.history, w.net[k]) {
      assert BatchSent(w.history, w.net[k]);
      forall e | e in w.net[k] ensures SentOk(w'.history, e) { assert SentOk(w.history, e); }
    }
    forall day | day in w.rows ensures RowOk(w'.history, day, w.rows[day]) {
      assert RowOk(w.history, day, w.rows[day]);
    }
  }

  // So do sending, delivering in any order and any number of times, and acknowledging.

  lemma SendInv(w: World, batch: seq<Entry>)
    requires Inv(w)
    ensures Inv(Next(w, Send(batch)))
  {
    if w.memory.Some? && w.wait.None? && Sendable(w.memory.value, batch) {
      forall e | e in batch
        ensures SentOk(w.history, e) && DayOf(e) in w.memory.value && w.memory.value[DayOf(e)].revision == e.revision
      {
        var i :| 0 <= i < |batch| && batch[i] == e;
        assert EntryOk(w.history, DayOf(batch[i]), w.memory.value[DayOf(batch[i])]);
      }
      assert BatchSent(w.history, batch);
    }
  }

  lemma PresentLater(rows: Rows, rows': Rows, e: Entry)
    requires Advanced(rows, rows') && Present(rows, e)
    ensures Present(rows', e)
  {
  }

  lemma JournalLater(h: History, rows: Rows, rows': Rows, journal: Journal)
    requires JournalOk(h, rows, journal) && Advanced(rows, rows')
    ensures JournalOk(h, rows', journal)
  {
    forall day | day in journal && journal[day].acked ensures Present(rows', journal[day]) {
      PresentLater(rows, rows', journal[day]);
    }
  }

  lemma HistoriesLater(h: History, rows: Rows, rows': Rows)
    requires HistoriesOk(h, rows) && Advanced(rows, rows') && RowsOk(h, rows')
    ensures HistoriesOk(h, rows')
  {
    forall day | day in h ensures HistoryOk(day, h[day], RowRevision(rows', day)) {
      assert HistoryOk(day, h[day], RowRevision(rows, day));
      if day in rows' { assert RowOk(h, day, rows'[day]); }
      assert RowRevision(rows, day) <= RowRevision(rows', day);
    }
  }

  lemma DeliverInv(w: World, k: nat, at: Setting)
    requires Inv(w)
    ensures Inv(Next(w, Deliver(k, at)))
    ensures Advanced(w.rows, Next(w, Deliver(k, at)).rows)
  {
    hide HistoryOk, EntryOk, RowOk, SentOk;
    if k < |w.net| && Ingest(w.rows, w.net[k], at).Ok? {
      var batch, rows' := w.net[k], Ingest(w.rows, w.net[k], at).value;
      Ingested(w.rows, batch);
      assert BatchSent(w.history, batch);
      forall day | day in rows' ensures RowOk(w.history, day, rows'[day]) {
        if day in w.rows && rows'[day] == w.rows[day] {
          assert RowOk(w.history, day, w.rows[day]);
        } else {
          var e :| e in batch && DayOf(e) == day && rows'[day] == Stored(e.revision, e.report);
          SentIsRow(w.history, e);
        }
      }
      HistoriesLater(w.history, w.rows, rows');
      JournalLater(w.history, w.rows, rows', w.disk);
      if w.memory.Some? { JournalLater(w.history, w.rows, rows', w.memory.value); }
      forall j | j in w.answered + {k} ensures j < |w.net| && BatchPresent(rows', w.net[j]) {
        if j in w.answered {
          assert BatchPresent(w.rows, w.net[j]);
          forall e | e in w.net[j] ensures Present(rows', e) { PresentLater(w.rows, rows', e); }
        }
      }
    }
  }

  lemma SentIsRow(h: History, e: Entry)
    requires SentOk(h, e)
    ensures RowOk(h, DayOf(e), Stored(e.revision, e.report))
  {
  }

  lemma AcknowledgeDay(h: History, rows: Rows, journal: Journal, batch: seq<Entry>, day: Day)
    requires JournalOk(h, rows, journal) && BatchPresent(rows, batch) && InJournal(journal, batch) && day in journal
    ensures var e := AckAll(journal, batch)[day]; EntryOk(h, day, e) && (e.acked ==> Present(rows, e))
  {
    assert EntryOk(h, day, journal[day]);
    if AckAll(journal, batch)[day].acked && !journal[day].acked {
      var i :| 0 <= i < |batch| && DayOf(batch[i]) == day;
      assert batch[i] in batch;
      assert Present(rows, batch[i]);
    }
  }

  lemma AcknowledgeInv(w: World)
    requires Inv(w)
    ensures Inv(Next(w, Acknowledge))
  {
    hide HistoriesOk, RowsOk, EntryOk, Present, BatchSent, BatchPresent, InJournal;
    if w.memory.Some? && w.wait.Some? && w.wait.value in w.answered {
      var journal, batch := w.memory.value, w.net[w.wait.value];
      var journal' := AckAll(journal, batch);
      forall day | day in journal'
        ensures EntryOk(w.history, day, journal'[day]) && (journal'[day].acked ==> Present(w.rows, journal'[day]))
      {
        AcknowledgeDay(w.history, w.rows, journal, batch, day);
      }
    }
  }

  lemma LocalInv(w: World, step: Step)
    requires Inv(w) && (step.Begin? || step.Save? || step.Abandon? || step.Stop?)
    ensures Inv(Next(w, step))
  {
    hide HistoriesOk, RowsOk, JournalOk, BatchSent, BatchPresent, InJournal;
  }

  lemma {:induction false} StepInv(w: World, step: Step)
    requires Inv(w)
    ensures Inv(Next(w, step))
    ensures Extends(w.history, Next(w, step).history) && Advanced(w.rows, Next(w, step).rows)
  {
    match step
    case Capture(reports, allow, saved) =>
      hide Inv, CaptureAll, ValidDaily;
      if w.memory.Some? && w.wait.None? && ValidDaily(reports) {
        CaptureInv(w, reports, allow);
        FailedCapture(w);
      }
    case Send(batch) => hide Inv; SendInv(w, batch);
    case Deliver(k, at) => hide Inv, Advanced; DeliverInv(w, k, at);
    case Acknowledge => hide Inv; AcknowledgeInv(w);
    case Begin => hide Inv; LocalInv(w, step);
    case Save => hide Inv; LocalInv(w, step);
    case Abandon => hide Inv; LocalInv(w, step);
    case Stop => hide Inv; LocalInv(w, step);
  }

  lemma FailedCapture(w: World)
    requires Inv(w) && w.wait.None?
    ensures Inv(w.(memory := None))
  {
    hide HistoriesOk, RowsOk, JournalOk, BatchSent, BatchPresent, InJournal;
  }

  lemma {:induction false} RunInv(steps: seq<Step>)
    ensures Inv(Run(steps))
  {
    if steps != [] {
      RunInv(steps[..|steps| - 1]);
      StepInv(Run(steps[..|steps| - 1]), steps[|steps| - 1]);
    }
  }
}
