/** The broker's side of usage-report sync (internal/identity/reports.go): one device's rows, updated by whole
    batches. */
module ReportStore {
  import opened Base
  import opened Reports

  /** A journaled report as it is uploaded; the broker ignores the acknowledgement flag. */
  datatype Entry = Entry(revision: int, report: Report, allow: bool, acked: bool)

  datatype Stored = Stored(revision: int, report: Report)

  type Rows = map<Day, Stored>

  datatype Rejection =
    Unsupported | TooMany | Malformed | Unauthorized | Stale(day: Day) | Conflict(day: Day) | Decrease(day: Day)

  /** What the broker finds besides its rows: protocol versions match, the token is known, tomorrow's date, the time. */
  datatype Setting = Setting(supported: bool, authentic: bool, latest: Day, now: int)

  /** The reply to an applied request: the entries it held, and those that were stored. */
  datatype Receipt = Receipt(accepted: nat, updated: nat)

  const BATCH_LIMIT := 100

  function DayOf(e: Entry): Day { e.report.row.period }

  predicate Acceptable(e: Entry, latest: Day) {
    Valid(e.report) && e.revision > 0 && DayOf(e) <= latest
  }

  predicate AllAcceptable(batch: seq<Entry>, latest: Day) {
    forall i | 0 <= i < |batch| :: Acceptable(batch[i], latest)
  }

  function IngestOne(rows: Rows, e: Entry): Result<Rows, Rejection> {
    var day := DayOf(e);
    if day in rows && rows[day].revision > e.revision then Err(Stale(day))
    else if day in rows && rows[day].revision == e.revision then
      if rows[day].report == e.report then Ok(rows) else Err(Conflict(day))
    else if day in rows && !e.allow && Decreases(rows[day].report.row, e.report.row) then Err(Decrease(day))
    else Ok(rows[day := Stored(e.revision, e.report)])
  }

  function IngestAll(rows: Rows, batch: seq<Entry>): Result<Rows, Rejection> {
    if batch == [] then Ok(rows)
    else
      var before := IngestAll(rows, batch[..|batch| - 1]);
      if before.Err? then before else IngestOne(before.value, batch[|batch| - 1])
  }

  /** A repeated entry is accepted without being stored again. */
  predicate Repeats(rows: Rows, e: Entry) { DayOf(e) in rows && rows[DayOf(e)] == Stored(e.revision, e.report) }

  /** How many entries of an accepted batch are stored. */
  function Updated(rows: Rows, batch: seq<Entry>): nat {
    if batch == [] then 0
    else
      var front, last := batch[..|batch| - 1], batch[|batch| - 1];
      var before := IngestAll(rows, front);
      Updated(rows, front) + if before.Ok? && !Repeats(before.value, last) then 1 else 0
  }

  /** One request: either every entry is applied or nothing changes. */
  function Ingest(rows: Rows, batch: seq<Entry>, at: Setting): Result<Rows, Rejection> {
    if !at.supported then Err(Unsupported)
    else if |batch| > BATCH_LIMIT then Err(TooMany)
    else if !AllAcceptable(batch, at.latest) then Err(Malformed)
    else if !at.authentic then Err(Unauthorized)
    else IngestAll(rows, batch)
  }

  class Broker {
    var rows: Rows
    var lastSync: Option<int>  // when the device last delivered a batch, were it an empty one

    constructor ()
      ensures rows == map[] && lastSync == None
    {
      rows, lastSync := map[], None;
    }

    method IngestReports(batch: seq<Entry>, at: Setting) returns (reply: Result<Receipt, Rejection>)
      modifies this
      ensures var r := Ingest(old(rows), batch, at);
              && (r.Ok? ==> reply == Ok(Receipt(|batch|, Updated(old(rows), batch))) && rows == r.value &&
                            lastSync == Some(at.now))
              && (r.Err? ==> reply == Err(r.error) && rows == old(rows) && lastSync == old(lastSync))
    {
      if !at.supported {
        return Err(Unsupported);
      }
      if |batch| > BATCH_LIMIT {
        return Err(TooMany);
      }
      var acceptable := CheckBatch(batch, at.latest);
      if !acceptable {
        return Err(Malformed);
      }
      if !at.authentic {
        return Err(Unauthorized);
      }
      var table, updated := rows, 0;
      for i := 0 to |batch|
        invariant rows == old(rows) && lastSync == old(lastSync)
        invariant IngestAll(rows, batch[..i]) == Ok(table) && updated == Updated(rows, batch[..i])
      {
        var step := ApplyOne(table, batch[i]);
        assert batch[..i + 1][..i] == batch[..i];
        PrefixFails(rows, batch, i + 1);
        if step.Err? {
          return Err(step.error);
        }
        if !Repeats(table, batch[i]) {
          updated := updated + 1;
        }
        table := step.value;
      }
      assert batch[..|batch|] == batch;
      rows, lastSync := table, Some(at.now);
      return Ok(Receipt(|batch|, updated));
    }
  }

  method CheckBatch(batch: seq<Entry>, latest: Day) returns (ok: bool)
    ensures ok == AllAcceptable(batch, latest)
  {
    for i := 0 to |batch|
      invariant forall k | 0 <= k < i :: Acceptable(batch[k], latest)
    {
      ok := Canonical(batch[i].report);
      if !ok || batch[i].revision <= 0 || DayOf(batch[i]) > latest {
        return false;
      }
    }
    return true;
  }

  /** The body of the loop over one request's entries. */
  method ApplyOne(table: Rows, e: Entry) returns (r: Result<Rows, Rejection>)
    ensures r == IngestOne(table, e)
  {
    var day := DayOf(e);
    if day in table {
      if table[day].revision > e.revision {
        return Err(Stale(day));
      }
      if table[day].revision == e.revision {
        if table[day].report != e.report {
          return Err(Conflict(day));
        }
        return Ok(table);
      }
      var falls := FindDecrease(table[day].report.row, e.report.row);
      if !e.allow && falls {
        return Err(Decrease(day));
      }
    }
    return Ok(table[day := Stored(e.revision, e.report)]);
  }

  lemma {:induction false} PrefixFails(rows: Rows, batch: seq<Entry>, n: nat)
    requires n <= |batch|
    ensures IngestAll(rows, batch[..n]).Err? ==> IngestAll(rows, batch) == IngestAll(rows, batch[..n])
  {
    if n < |batch| {
      PrefixFails(rows, batch[..|batch| - 1], n);
      assert batch[..|batch| - 1][..n] == batch[..n];
    } else {
      assert batch[..n] == batch;
    }
  }

  // What an accepted batch does to the rows.

  predicate Present(rows: Rows, e: Entry) {
    DayOf(e) in rows && rows[DayOf(e)].revision >= e.revision
  }

  predicate Advanced(rows: Rows, rows': Rows) {
    forall day | day in rows :: day in rows' && rows'[day].revision >= rows[day].revision
  }

  predicate FromBatch(stored: Stored, batch: seq<Entry>, day: Day) {
    exists e | e in batch :: DayOf(e) == day && stored == Stored(e.revision, e.report)
  }

  lemma OneIngested(rows: Rows, e: Entry)
    requires IngestOne(rows, e).Ok?
    ensures var rows' := IngestOne(rows, e).value;
            && Advanced(rows, rows') && Present(rows', e)
            && (forall day | day in rows' && !(day in rows && rows'[day] == rows[day]) ::
                 DayOf(e) == day && rows'[day] == Stored(e.revision, e.report))
  {
    hide Decreases;
  }

  /** Revisions never go back, every entry is present afterwards, and rows change only to entries of the batch. */
  lemma {:induction false} Ingested(rows: Rows, batch: seq<Entry>)
    requires IngestAll(rows, batch).Ok?
    ensures var rows' := IngestAll(rows, batch).value;
            && Advanced(rows, rows')
            && (forall e | e in batch :: Present(rows', e))
            && (forall day | day in rows' ::
                 (day in rows && rows'[day] == rows[day]) || FromBatch(rows'[day], batch, day))
  {
    if batch != [] {
      hide IngestOne;
      var front, last := batch[..|batch| - 1], batch[|batch| - 1];
      Ingested(rows, front);
      assert batch == front + [last];
      var mid, rows' := IngestAll(rows, front).value, IngestAll(rows, batch).value;
      OneIngested(mid, last);
      forall e | e in batch ensures Present(rows', e) {
        if e in front { assert Present(mid, e); }
      }
      forall day | day in rows' && !(day in rows && rows'[day] == rows[day]) ensures FromBatch(rows'[day], batch, day) {
        if day in mid && rows'[day] == mid[day] {
          assert FromBatch(mid[day], front, day);
        } else {
          assert last in batch;
        }
      }
    }
  }

  predicate DistinctDays(batch: seq<Entry>) {
    forall i, j | 0 <= i < j < |batch| :: DayOf(batch[i]) != DayOf(batch[j])
  }

  lemma {:induction false} OtherDaysUntouched(rows: Rows, batch: seq<Entry>, day: Day)
    requires IngestAll(rows, batch).Ok? && forall e | e in batch :: DayOf(e) != day
    ensures var rows' := IngestAll(rows, batch).value;
            (day in rows' <==> day in rows) && (day in rows ==> rows'[day] == rows[day])
  {
    if batch != [] {
      assert batch[|batch| - 1] in batch;
      OtherDaysUntouched(rows, batch[..|batch| - 1], day);
    }
  }

  /** With distinct days a batch is judged entry by entry: it fails exactly when some entry alone would. */
  lemma {:induction false} JudgedSeparately(rows: Rows, batch: seq<Entry>)
    requires DistinctDays(batch)
    ensures IngestAll(rows, batch).Ok? <==> forall i | 0 <= i < |batch| :: IngestOne(rows, batch[i]).Ok?
    ensures IngestAll(rows, batch).Err? ==>
              exists i | 0 <= i < |batch| :: IngestOne(rows, batch[i]) == Err(IngestAll(rows, batch).error)
  {
    if batch != [] {
      var n := |batch| - 1;
      var front, last := batch[..n], batch[n];
      JudgedSeparately(rows, front);
      if IngestAll(rows, front).Ok? {
        OtherDaysUntouched(rows, front, DayOf(last));
        assert IngestOne(IngestAll(rows, front).value, last).Ok? <==> IngestOne(rows, last).Ok?;
      } else {
        var i :| 0 <= i < |front| && IngestOne(rows, front[i]) == Err(IngestAll(rows, front).error);
        assert batch[i] == front[i];
      }
      forall i | 0 <= i < n ensures batch[i] == front[i] {}
    }
  }

  function ChangedDays(rows: Rows, rows': Rows): set<Day> {
    set day | day in rows' && !(day in rows && rows'[day] == rows[day])
  }

  /** The count in the reply is the number of days whose row changed. */
  lemma {:induction false} UpdatedCounts(rows: Rows, batch: seq<Entry>)
    requires DistinctDays(batch) && IngestAll(rows, batch).Ok?
    ensures Updated(rows, batch) == |ChangedDays(rows, IngestAll(rows, batch).value)|
  {
    if batch != [] {
      hide Decreases;
      var n := |batch| - 1;
      var front, last := batch[..n], batch[n];
      UpdatedCounts(rows, front);
      OtherDaysUntouched(rows, front, DayOf(last));
      var mid, rows' := IngestAll(rows, front).value, IngestAll(rows, batch).value;
      if !Repeats(mid, last) {
        assert DayOf(last) !in ChangedDays(rows, mid);
        assert ChangedDays(rows, rows') == ChangedDays(rows, mid) + {DayOf(last)};
      } else {
        assert rows' == mid;
      }
    }
  }
}
