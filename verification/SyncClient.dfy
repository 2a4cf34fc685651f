/** The sync client itself (internal/usagesync/client.go): capture, the batching upload loop, and one whole sync.
    `trace` records the protocol steps taken, so every run of the client is a run of `UsageSync`. */
module SyncClient {
  import opened Base
  import opened Reports
  import opened ReportStore
  import opened UsageSync
  import opened SyncLaws

  const BATCH_ENTRIES := 100
  const BATCH_BYTES := 1500000

  /** What happens to one request: it arrives or not, its reply arrives or not, the journal write after it
      succeeds or not. */
  datatype Fate = Fate(arrives: bool, answered: bool, saved: bool, at: Setting)

  datatype Outcome = Complete | Warned | Failed

  /** How collecting goes: the collector's reports if it worked, and whether the journal write succeeds. */
  datatype Collection = Collection(reports: Option<seq<Report>>, saved: bool)

  function Bytes(batch: seq<Entry>): nat {
    if batch == [] then 0 else Bytes(batch[..|batch| - 1]) + batch[|batch| - 1].report.size
  }

  function Flatten(batches: seq<seq<Entry>>): seq<Entry> {
    if batches == [] then [] else Flatten(batches[..|batches| - 1]) + batches[|batches| - 1]
  }

  function Pending(journal: Journal): set<Day> { set day | day in journal && !journal[day].acked }

  predicate Ascending(days: seq<Day>) { forall i, j | 0 <= i < j < |days| :: days[i] < days[j] }

  function Entries(journal: Journal, days: seq<Day>): (r: seq<Entry>)
    requires forall i | 0 <= i < |days| :: days[i] in journal
    ensures |r| == |days| && forall i | 0 <= i < |days| :: r[i] == journal[days[i]]
  {
    seq(|days|, i requires 0 <= i < |days| => journal[days[i]])
  }

  predicate BatchOk(batch: seq<Entry>) { 1 <= |batch| <= BATCH_ENTRIES && Bytes(batch) <= BATCH_BYTES }

  /** A batch is closed only when full. */
  predicate Full(batch: seq<Entry>, next: Entry) {
    |batch| == BATCH_ENTRIES || Bytes(batch) + next.report.size > BATCH_BYTES
  }

  /** The requests one upload sends for the given pending entries: the entries in order, cut into full
      batches, or a single empty heartbeat. */
  predicate Cut(batches: seq<seq<Entry>>, entries: seq<Entry>) {
    && Flatten(batches) == entries
    && (entries == [] ==> batches == [[]])
    && (entries != [] ==> forall i | 0 <= i < |batches| :: BatchOk(batches[i]))
    && (entries != [] ==> forall i | 0 < i < |batches| :: batches[i] != [] && Full(batches[i - 1], batches[i][0]))
  }

  /** Every day is acknowledged and is what the broker stores. */
  predicate InStep(journal: Journal, rows: Rows) {
    forall day | day in journal ::
      journal[day].acked && day in rows && rows[day] == Stored(journal[day].revision, journal[day].report)
  }

  predicate SameReports(a: Journal, b: Journal) {
    a.Keys == b.Keys && forall day | day in a :: b[day] == a[day] || b[day] == a[day].(acked := true)
  }

  lemma HasDay(days: set<Day>)
    requires days != {}
    ensures exists day :: day in days
  {
    if forall day :: day !in days { assert false; }
  }

  method Earliest(days: set<Day>) returns (least: Day)
    requires days != {}
    ensures least in days && forall day | day in days :: least <= day
  {
    HasDay(days);
    least :| least in days;
    var rest := days - {least};
    while rest != {}
      invariant rest <= days && least in days && forall day | day in days && day !in rest :: least <= day
      decreases |rest|
    {
      HasDay(rest);
      var day :| day in rest;
      if day < least {
        least := day;
      }
      rest := rest - {day};
    }
  }

  method SortedDays(pending: set<Day>) returns (days: seq<Day>)
    ensures Ascending(days) && forall day :: day in days <==> day in pending
    ensures forall i | 0 <= i < |days| :: days[i] in pending
  {
    var left := pending;
    days := [];
    while left != {}
      invariant left <= pending && Ascending(days)
      invariant forall day :: day in days <==> day in pending && day !in left
      invariant forall i | 0 <= i < |days| :: days[i] in pending
      invariant forall i, day | 0 <= i < |days| && day in left :: days[i] < day
      decreases |left|
    {
      var least := Earliest(left);
      left := left - {least};
      days := days + [least];
    }
  }

  lemma AckOne(journal: Journal, batch: seq<Entry>, e: Entry)
    requires DayOf(e) in journal
    ensures AckAll(journal, batch + [e]) == AckAll(journal, batch)[DayOf(e) := journal[DayOf(e)].(acked := true)]
  {
    var a, b := AckAll(journal, batch + [e]), AckAll(journal, batch)[DayOf(e) := journal[DayOf(e)].(acked := true)];
    forall day | day in journal ensures a[day] == b[day] {
      if i :| 0 <= i < |batch| && DayOf(batch[i]) == day { assert DayOf((batch + [e])[i]) == day; }
      if day == DayOf(e) { assert DayOf((batch + [e])[|batch|]) == day; }
    }
  }

  class Client {
    const broker: Broker
    var disk: Journal
    var journal: Journal
    ghost var trace: seq<Step>

    ghost function System(): World
      reads this
    {
      Run(trace)
    }

    ghost predicate Idle()
      reads this, broker
    {
      System().disk == disk && System().memory.None? && System().wait.None? && System().rows == broker.rows
    }

    ghost predicate Running()
      reads this, broker
    {
      System().disk == disk && System().memory == Some(journal) && System().wait.None? && System().rows == broker.rows
    }

    constructor (broker: Broker)
      requires broker.rows == map[]
      ensures Idle() && this.broker == broker && disk == map[]
    {
      this.broker := broker;
      disk, journal, trace := map[], map[], [];
    }

    ghost method Take(step: Step)
      modifies this`trace
      ensures trace == old(trace) + [step] && System() == Next(old(System()), step)
    {
      RunThen(trace, step);
      trace := trace + [step];
    }

    method CaptureReports(collection: Collection, allow: bool) returns (r: Outcome)
      requires Running()
      modifies this
      ensures old(trace) <= trace && System().rows == broker.rows
      ensures var daily := collection.reports.Some? && ValidDaily(collection.reports.value);
              if !daily then r == Failed && Running() && disk == old(disk) && journal == old(journal)
              else
                var c := CaptureAll(old(journal), collection.reports.value, allow);
                if c.exhausted || !collection.saved then r == Failed && Idle() && disk == old(disk)
                else r == (if c.warnings > 0 then Warned else Complete) && Running() && disk == journal == c.journal
    {
      hide Valid, Decreases, ValidDaily, Judge, Run, Ingest, AckAll, Extended;
      var daily := Daily(collection.reports);
      if daily.None? {
        return Failed;
      }
      var reports, warnings := daily.value, 0;
      Take(Capture(reports, allow, collection.saved));
      ghost var taken := trace;
      for i := 0 to |reports|
        invariant disk == old(disk) && trace == taken
        invariant CaptureAll(old(journal), reports[..i], allow) == Captured(journal, warnings, false)
      {
        assert reports[..i + 1][..i] == reports[..i];
        var verdict := Compare(journal, reports[i], allow);
        match verdict {
          case Unchanged =>
          case Kept =>
            warnings := warnings + 1;
          case Exhausted =>
            ExhaustedAt(old(journal), reports, allow, i + 1);
            return Failed;
          case Superseded(e) =>
            journal := journal[reports[i].row.period := e];
        }
      }
      assert reports[..|reports|] == reports;
      if !collection.saved {
        return Failed;
      }
      disk := journal;
      return if warnings > 0 then Warned else Complete;
    }

    /** One request and its reply: true when the broker accepted it and its reply came back. */
    method Post(batch: seq<Entry>, fate: Fate) returns (ok: bool)
      requires Running() && Sendable(journal, batch)
      modifies this`trace, broker
      ensures old(trace) <= trace && System().net == old(System().net) + [batch]
      ensures System().disk == disk && System().memory == Some(journal) && System().rows == broker.rows
      ensures ok ==> System().wait == Some(|old(System().net)|) && |old(System().net)| in System().answered
      ensures !ok ==> Running()
    {
      hide Run, Ingest, Sendable;
      ghost var k := |System().net|;
      Take(Send(batch));
      if fate.arrives {
        var reply := broker.IngestReports(batch, fate.at);
        ghost var before := System();
        Take(Deliver(k, fate.at));
        assert before.net[k] == batch;
        if fate.answered && reply.Ok? && reply.value.accepted == |batch| {
          return true;
        }
      }
      Take(Abandon);
      return false;
    }

    /** Mark the days of a delivered batch acknowledged. */
    method AckDays(days: seq<Day>, ghost entries: seq<Entry>, first: nat, last: nat)
      requires Progress(journal, days, entries, first) && DaysMatch(days, entries) && Ascending(days)
      requires first <= last <= |days|
      modifies this`journal
      ensures journal == AckAll(old(journal), entries[first..last])
      ensures Progress(journal, days, entries, last) && SameReports(old(journal), journal)
    {
      hide AckAll;
      AckNone(journal);
      assert entries[first..first] == [];
      for i := first to last
        invariant journal == AckAll(old(journal), entries[first..i])
        invariant Progress(journal, days, entries, i) && SameReports(old(journal), journal)
      {
        assert entries[first..i + 1] == entries[first..i] + [entries[i]];
        AckOne(old(journal), entries[first..i], entries[i]);
        journal := journal[days[i] := journal[days[i]].(acked := true)];
      }
    }

    /** Take a reply into account: acknowledge the batch in memory, then try to write the journal. */
    method Settle(days: seq<Day>, ghost entries: seq<Entry>, first: nat, last: nat, ghost k: nat, saves: bool)
      returns (ok: bool)
      requires Progress(journal, days, entries, first) && DaysMatch(days, entries) && Ascending(days)
      requires first <= last <= |days|
      requires System().disk == disk && System().memory == Some(journal) && System().rows == broker.rows
      requires System().wait == Some(k) && k in System().answered && k < |System().net| &&
                 System().net[k] == entries[first..last]
      modifies this
      ensures Running() && old(trace) <= trace && System().net == old(System().net)
      ensures Progress(journal, days, entries, last) && SameReports(old(journal), journal)
      ensures ok == saves && (ok ==> disk == journal)
    {
      hide Run, Progress, DaysMatch, Ascending, SameReports, AckAll;
      AckDays(days, entries, first, last);
      Take(Acknowledge);
      if saves {
        Take(Save);
        disk := journal;
      }
      return saves;
    }

    /** The pending entries in the order of their days. */
    method PendingEntries() returns (days: seq<Day>, entries: seq<Entry>)
      requires Running()
      ensures SortedPending(journal, days, entries) && Ascending(days) && DaysMatch(days, entries)
      ensures |days| == |entries| && forall i | 0 <= i < |entries| :: entries[i].report.size <= MAX_ROW_BYTES
      ensures Progress(journal, days, entries, 0) && CutTo([], entries, 0) && SameReports(journal, journal)
    {
      days := SortedDays(Pending(journal));
      entries := Entries(journal, days);
      StartProgress(trace, journal, days, entries);
    }

    lemma FinishedHere(days: seq<Day>, entries: seq<Entry>, sent: seq<seq<Entry>>)
      requires Running() && Progress(journal, days, entries, |entries|)
      requires if entries == [] then sent == [[]] else CutTo(sent, entries, |entries|)
      ensures InStep(journal, broker.rows) && Cut(sent, entries)
    {
      Finished(trace, journal, days, entries, sent);
    }

    /** Send all pending entries; `fates` says what happens to each request in turn. */
    method Upload(fates: nat -> Fate)
      returns (ok: bool, ghost sent: seq<seq<Entry>>, ghost days: seq<Day>, ghost entries: seq<Entry>)
      requires Running()
      modifies this, broker
      ensures Running() && old(trace) <= trace && SameReports(old(journal), journal)
      ensures System().net == old(System().net) + sent && SortedPending(old(journal), days, entries)
      ensures ok ==> disk == journal && InStep(journal, broker.rows) && Cut(sent, entries)
      ensures !ok ==> Flatten(sent) <= entries
    {
      hide *;
      var order, pending := PendingEntries();
      days, entries, sent := order, pending, [];
      var first, count := 0, 0;
      while first < |order| || first == 0
        invariant first < |order| || first == 0
        invariant Running() && old(trace) <= trace && SameReports(old(journal), journal)
        invariant System().net == old(System().net) + sent
        invariant Progress(journal, days, entries, first) && CutTo(sent, entries, first) && (first == 0 ==> sent == [])
        decreases |order| - first
      {
        var last, batch := FillBatch(pending, first);
        BatchSendable(journal, days, entries, first, last);
        ghost var k, earlier := |System().net|, sent;
        sent := sent + [batch];
        FlattenMore(earlier, entries, first, last);
        var delivered := Post(batch, fates(count));
        if !delivered {
          return false, sent, days, entries;
        }
        assert System().net[k] == batch;
        ghost var before := journal;
        var saved := Settle(order, entries, first, last, k, fates(count).saved);
        ReportsKept(old(journal), before, journal);
        if !saved {
          return false, sent, days, entries;
        }
        CutMore(earlier, entries, first, last);
        if last == |order| {
          break;
        }
        first, count := last, count + 1;
      }
      FinishedHere(days, entries, sent);
      return true, sent, days, entries;
    }

    /** One sync: upload what is pending, collect, upload again.  Reports are captured even when the broker
        cannot be reached. */
    method Sync(enrolled: bool, collection: Collection, allow: bool, before: nat -> Fate, after: nat -> Fate)
      returns (r: Outcome)
      requires Idle()
      modifies this, broker
      ensures Idle() && old(trace) <= trace
      ensures r != Failed ==> InStep(disk, broker.rows)
      ensures r == Complete ==> collection.reports.Some?
      ensures r == Complete ==> forall report | report in collection.reports.value :: Holds(disk, broker.rows, report)
    {
      hide Run, InStep, Cut, SortedPending, SameReports, CaptureAll, ValidDaily, Holds, Valid, Decreases, Judge, Ingest,
          AckAll, Flatten;
      Take(Begin);
      journal := disk;
      var ready := enrolled;
      if ready {
        var ok, _, _, _ := Upload(before);
        ready := ok;
      }
      ghost var uploaded := journal;
      r := CaptureReports(collection, allow);
      ghost var captured := journal;
      if r == Complete {
        forall i | 0 <= i < |collection.reports.value| ensures Journaled(captured, collection.reports.value[i]) {
          CaptureComplete(uploaded, collection.reports.value, allow, i);
        }
      }
      if !ready {
        r := Failed;
      }
      if r != Failed {
        var ok, _, _, _ := Upload(after);
        if !ok {
          r := Failed;
        }
      }
      Take(Stop);
      if r == Complete { AllHeld(captured, disk, broker.rows, collection.reports.value); }
    }
  }

  /** The journal and the broker both have exactly this report for its day. */
  predicate Holds(journal: Journal, rows: Rows, report: Report) {
    var day := report.row.period;
    && day in journal && journal[day].report == report && journal[day].acked
    && day in rows && rows[day] == Stored(journal[day].revision, report)
  }

  /** A capture without warnings leaves every collected report in the journal. */
  lemma {:induction false} CaptureComplete(journal: Journal, reports: seq<Report>, allow: bool, i: nat)
    requires ValidDaily(reports) && i < |reports|
    requires var c := CaptureAll(journal, reports, allow); c.warnings == 0 && !c.exhausted
    ensures var c := CaptureAll(journal, reports, allow);
            Journaled(c.journal, reports[i])
  {
    hide Decreases, Valid;
    var front := reports[..|reports| - 1];
    assert forall k | 0 <= k < |front| :: front[k] == reports[k];
    if i < |front| { CaptureComplete(journal, front, allow, i); }
  }

  lemma AllHeld(captured: Journal, journal: Journal, rows: Rows, reports: seq<Report>)
    requires SameReports(captured, journal) && InStep(journal, rows)
    requires forall i | 0 <= i < |reports| :: Journaled(captured, reports[i])
    ensures forall report | report in reports :: Holds(journal, rows, report)
  {
    forall report | report in reports ensures Holds(journal, rows, report) {
      var i :| 0 <= i < |reports| && reports[i] == report;
      assert Journaled(captured, reports[i]);
    }
  }

  predicate Journaled(journal: Journal, report: Report) {
    report.row.period in journal && journal[report.row.period].report == report
  }

  /** The longest batch starting at the given entry. */
  method FillBatch(entries: seq<Entry>, first: nat) returns (last: nat, batch: seq<Entry>)
    requires first <= |entries| && forall i | 0 <= i < |entries| :: entries[i].report.size <= MAX_ROW_BYTES
    ensures first <= last <= |entries| && batch == entries[first..last]
    ensures first < |entries| ==> BatchOk(batch)
    ensures last < |entries| ==> Full(batch, entries[last])
  {
    last, batch := first, [];
    var size := 0;
    while last < |entries| && last - first < BATCH_ENTRIES
      invariant first <= last <= |entries| && last - first <= BATCH_ENTRIES
      invariant batch == entries[first..last] && size == Bytes(batch) <= BATCH_BYTES
    {
      var entry := entries[last];
      if batch != [] && size + entry.report.size > BATCH_BYTES {
        break;
      }
      assert (batch + [entry])[..|batch|] == batch;
      size := size + entry.report.size;
      batch := batch + [entry];
      last := last + 1;
    }
  }

  /** The pending entries of a journal in the order of their days. */
  ghost predicate SortedPending(journal: Journal, days: seq<Day>, entries: seq<Entry>) {
    && Ascending(days) && (forall day :: day in days <==> day in Pending(journal))
    && |entries| == |days| && forall i | 0 <= i < |days| :: days[i] in journal && entries[i] == journal[days[i]]
  }

  predicate DaysMatch(days: seq<Day>, entries: seq<Entry>) {
    && |days| == |entries|
    && forall i | 0 <= i < |days| :: DayOf(entries[i]) == days[i] && entries[i].report.size <= MAX_ROW_BYTES
  }

  /** How far an upload has come: entries before `first` are acknowledged, the others untouched. */
  predicate Progress(journal: Journal, days: seq<Day>, entries: seq<Entry>, first: nat) {
    && first <= |days| == |entries|
    && (forall i | 0 <= i < first :: days[i] in journal && journal[days[i]].acked)
    && (forall i | first <= i < |days| :: days[i] in journal && journal[days[i]] == entries[i] && !entries[i].acked)
    && (forall day | day in journal && !journal[day].acked :: day in days)
  }

  lemma BatchSendable(journal: Journal, days: seq<Day>, entries: seq<Entry>, first: nat, last: nat)
    requires Progress(journal, days, entries, first) && DaysMatch(days, entries) && Ascending(days)
    requires first <= last <= |entries|
    ensures Sendable(journal, entries[first..last])
  {
  }

  /** The batches sent so far cut the entries before `first`. */
  predicate CutTo(sent: seq<seq<Entry>>, entries: seq<Entry>, first: nat) {
    && first <= |entries| && Flatten(sent) == entries[..first]
    && (forall i | 0 <= i < |sent| :: BatchOk(sent[i]))
    && (forall i | 0 < i < |sent| :: sent[i] != [] && Full(sent[i - 1], sent[i][0]))
    && (sent != [] && first < |entries| ==> Full(sent[|sent| - 1], entries[first]))
  }

  lemma CutMore(sent: seq<seq<Entry>>, entries: seq<Entry>, first: nat, last: nat)
    requires CutTo(sent, entries, first) && first <= last <= |entries|
    requires first < |entries| ==> BatchOk(entries[first..last])
    requires last < |entries| ==> Full(entries[first..last], entries[last])
    ensures first < |entries| ==> CutTo(sent + [entries[first..last]], entries, last) && first < last
  {
    hide Full;
    if first < |entries| {
      var batch, more := entries[first..last], sent + [entries[first..last]];
      FlattenMore(sent, entries, first, last);
      assert batch[0] == entries[first];
      forall i | 0 < i < |more| ensures more[i] != [] && Full(more[i - 1], more[i][0]) {
        if i < |sent| { assert more[i] == sent[i] && more[i - 1] == sent[i - 1]; }
      }
    }
  }

  lemma FlattenMore(sent: seq<seq<Entry>>, entries: seq<Entry>, first: nat, last: nat)
    requires CutTo(sent, entries, first) && first <= last <= |entries|
    ensures Flatten(sent + [entries[first..last]]) == entries[..last] <= entries
  {
    var more := sent + [entries[first..last]];
    assert more[..|more| - 1] == sent;
    assert entries[..first] + entries[first..last] == entries[..last];
  }

  lemma StartProgress(trace: seq<Step>, journal: Journal, days: seq<Day>, entries: seq<Entry>)
    requires Run(trace).memory == Some(journal) && Ascending(days)
    requires forall day :: day in days <==> day in Pending(journal)
    requires forall i | 0 <= i < |days| :: days[i] in journal
    requires entries == Entries(journal, days)
    ensures SortedPending(journal, days, entries) && DaysMatch(days, entries)
    ensures Progress(journal, days, entries, 0) && CutTo([], entries, 0) && SameReports(journal, journal)
    ensures forall i | 0 <= i < |entries| :: entries[i].report.size <= MAX_ROW_BYTES
  {
    RunInv(trace);
    var w := Run(trace);
    MemoryOk(w);
    forall i | 0 <= i < |days| ensures DayOf(entries[i]) == days[i] && entries[i].report.size <= MAX_ROW_BYTES {
      assert days[i] in days;
      assert EntryOk(w.history, days[i], journal[days[i]]);
      HistoryOf(w, days[i]);
    }
    forall i | 0 <= i < |days| ensures !entries[i].acked { assert days[i] in days; }
  }

  lemma AckNone(journal: Journal)
    ensures AckAll(journal, []) == journal
  {
  }

  lemma Finished(trace: seq<Step>, journal: Journal, days: seq<Day>, entries: seq<Entry>, sent: seq<seq<Entry>>)
    requires Run(trace).memory == Some(journal) && Progress(journal, days, entries, |entries|)
    requires if entries == [] then sent == [[]] else CutTo(sent, entries, |entries|)
    ensures InStep(journal, Run(trace).rows) && Cut(sent, entries)
  {
    forall day | day in journal
      ensures journal[day].acked && day in Run(trace).rows
      ensures Run(trace).rows[day] == Stored(journal[day].revision, journal[day].report)
    {
      AcknowledgedIsStored(trace, day);
    }
    assert entries[..|entries|] == entries;
    if entries == [] { assert sent[..|sent| - 1] == []; }
  }

  lemma ReportsKept(a: Journal, b: Journal, c: Journal)
    requires SameReports(a, b) && SameReports(b, c)
    ensures SameReports(a, c)
  {
  }

  /** The body of the capture loop: how one collected report compares with its journal entry. */
  method Compare(journal: Journal, report: Report, allow: bool) returns (verdict: Verdict)
    ensures verdict == Judge(journal, report, allow)
  {
    var day, revision := report.row.period, 1;
    if day in journal {
      if journal[day].report == report {
        return Unchanged;
      }
      var falls := FindDecrease(journal[day].report.row, report.row);
      if !allow && falls {
        return Kept;
      }
      if !journal[day].acked && falls {
        return Kept;
      }
      if journal[day].revision == MAX_REVISION {
        return Exhausted;
      }
      revision := journal[day].revision + 1;
    }
    return Superseded(Entry(revision, report, allow, false));
  }

  lemma {:induction false} ExhaustedAt(journal: Journal, reports: seq<Report>, allow: bool, n: nat)
    requires n <= |reports| && CaptureAll(journal, reports[..n], allow).exhausted
    ensures CaptureAll(journal, reports, allow).exhausted
  {
    if n < |reports| {
      assert reports[..|reports| - 1][..n] == reports[..n];
      ExhaustedAt(journal, reports[..|reports| - 1], allow, n);
    } else {
      assert reports[..n] == reports;
    }
  }
}
