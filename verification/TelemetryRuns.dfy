/** Runs of the telemetry store: any interleaving of recorded responses, usage reads and pruning.
    `log` and `archive` remember every response ever inserted and every interval ever pruned. */
module TelemetryRuns {
  import opened Base
  import opened Sums
  import opened Spans
  import opened Quota
  import opened QuotaLaws
  import T = Telemetry

  datatype Step =
    | Record(response: Response)
    | Poll(account: Id, snapshot: Snapshot, attributed: bool)
    | Prune(cutoff: int, limit: nat)

  datatype World = World(tables: T.Tables, log: seq<Response>, archive: seq<Interval>, cutoff: Option<int>)

  function Next(w: World, step: Step): World {
    match step
    case Record(r) =>
      World(T.Record(w.tables, r), if T.Stored(w.tables.rows, r.id) then w.log else w.log + [r], w.archive, w.cutoff)
    case Poll(account, snapshot, attributed) =>
      w.(tables := T.Poll(w.tables, account, snapshot, attributed))
    case Prune(cutoff, limit) =>
      World(T.Prune(w.tables, cutoff, limit), w.log, w.archive + Expired(w.tables.ledger.intervals, cutoff),
            Some(if w.cutoff.None? then cutoff else Max(cutoff, w.cutoff.value)))
  }

  function Start(accounts: map<Id, Baseline>): World {
    World(T.Tables([], map[], accounts, Ledger([], map[], map[])), [], [], None)
  }

  function Exec(accounts: map<Id, Baseline>, steps: seq<Step>): World {
    if steps == [] then Start(accounts) else Next(Exec(accounts, steps[..|steps| - 1]), steps[|steps| - 1])
  }

  /** Every interval ever made, with the content it has now or had when it was pruned. */
  function Made(w: World): seq<Interval> { w.tables.ledger.intervals + w.archive }

  // 1. The lifetime ledgers are exact in every run.

  ghost predicate Canonical(x: Interval) {
    Separated(x.spans) && x.active == Length(x.spans)
  }

  ghost predicate AllCanonical(xs: seq<Interval>) {
    forall i | 0 <= i < |xs| :: Canonical(xs[i])
  }

  ghost predicate Good(l: Ledger, archive: seq<Interval>) {
    AllCanonical(l.intervals) && Exact(l, l.intervals + archive)
  }

  lemma LengthNonNegative(spans: seq<Span>)
    requires Separated(spans)
    ensures Length(spans) >= 0
  {
    SeparatedMeasure(spans);
  }

  lemma CorrectExact(l: Ledger, archive: seq<Interval>, i: nat, r: Response)
    requires i < |l.intervals| && Good(l, archive)
    ensures var l' := Correct(l, i, r);
            |l'.intervals| == |l.intervals| && Good(l', archive)
  {
    var it := l.intervals[i];
    if Touches(r, it.account, it.started, it.ended) {
      var clip := Clip(r, it.started, it.ended);
      MergeGrows(it.spans, clip);
      SaveExact(l, archive, i, Merge(it.spans + [clip]), QuotaModel(it.model, r.model));
    }
  }

  lemma {:induction false} RecordExact(l: Ledger, archive: seq<Interval>, r: Response, n: nat)
    requires n <= |l.intervals| && Good(l, archive)
    ensures Good(RecordActivity(l, r, n), archive)
  {
    hide Good, Correct;
    if n > 0 {
      var before := RecordActivity(l, r, n - 1);
      RecordExact(l, archive, r, n - 1);
      CorrectExact(before, archive, n - 1, r);
      assert RecordActivity(l, r, n) == Correct(before, n - 1, r);
    }
  }

  lemma InsertExact(l: Ledger, archive: seq<Interval>, it: Interval)
    requires Exact(l, l.intervals + archive) && it.active == 0
    ensures var l' := l.(intervals := l.intervals + [it]); Exact(l', l'.intervals + archive)
  {
    var l' := l.(intervals := l.intervals + [it]);
    assert l'.intervals + archive == l.intervals + ([it] + archive);
    forall key, c ensures LifeExact(l', l'.intervals + archive, key, c) {
      assert LifeExact(l, l.intervals + archive, key, c);
      SumInsert(l.intervals, it, archive, Life(key, c));
    }
    forall key: ModelKey, c | key.model.Named? ensures ModelExact(l', l'.intervals + archive, key, c) {
      assert ModelExact(l, l.intervals + archive, key, c);
      SumInsert(l.intervals, it, archive, PerModel(key, c));
    }
  }

  lemma SumInsert(a: seq<Interval>, it: Interval, b: seq<Interval>, m: Meter)
    ensures Sum(m, a + ([it] + b)) == Sum(m, a + b) + ShareOf(m, it)
  {
    SumConcat(a, [it] + b, m);
    SumConcat([it], b, m);
    SumConcat(a, b, m);
    SumSingle(it, m);
  }

  lemma AddExact(l: Ledger, archive: seq<Interval>, account: Id, started: int, snapshot: Snapshot, window: Window,
                 previous: WindowRead, next: WindowRead, spans: seq<Span>, model: Option<Model>)
    requires Good(l, archive) && Separated(spans)
    ensures Good(AddInterval(l, account, started, snapshot, window, previous, next, spans, model), archive)
  {
    if Comparable(previous, next, snapshot.at) && !Taken(l.intervals, snapshot.id, window) {
      var it := Interval(snapshot.id, account, window, started, snapshot.at,
                         next.used.value - previous.used.value, 0, [], model);
      InsertExact(l, archive, it);
      LengthNonNegative(spans);
      SaveExact(l.(intervals := l.intervals + [it]), archive, |l.intervals|, spans, model);
    }
  }

  lemma PollGood(t: T.Tables, archive: seq<Interval>, account: Id, snapshot: Snapshot, attributed: bool)
    requires Good(t.ledger, archive)
    ensures Good(T.Poll(t, account, snapshot, attributed).ledger, archive)
  {
    if T.Accepted(t.baselines, account, snapshot) && attributed && Attributable(t.baselines[account], snapshot.at) {
      var base := t.baselines[account];
      var started := base.readAt.value;
      var clips := Clips(t.rows, account, started, snapshot.at);
      var model := ModelOf(t.rows, account, started, snapshot.at);
      MergeCanonical(clips);
      AddExact(t.ledger, archive, account, started, snapshot, Short, base.short, snapshot.short, Merge(clips), model);
      var l1 := AddInterval(t.ledger, account, started, snapshot, Short, base.short, snapshot.short, Merge(clips),
        model);
      AddExact(l1, archive, account, started, snapshot, Weekly, base.weekly, snapshot.weekly, Merge(clips), model);
    }
  }

  lemma {:induction false} PruneRowsLedger(t: T.Tables, cutoff: int, limit: nat)
    ensures T.PruneRows(t, cutoff, limit).ledger == t.ledger
    ensures T.PruneRows(t, cutoff, limit).baselines == t.baselines
    decreases limit
  {
    var i := T.Oldest(t.rows, cutoff, |t.rows|);
    if limit > 0 && i.Some? {
      PruneRowsLedger(t.(rows := t.rows[..i.value] + t.rows[i.value + 1..],
                         totals := T.SubtractResponse(t.totals, t.rows[i.value])), cutoff, limit - 1);
    }
  }

  lemma {:induction false} PruneRowsKeeps(t: T.Tables, cutoff: int, limit: nat)
    ensures var rows := T.PruneRows(t, cutoff, limit).rows;
            && (forall r | r in rows :: r in t.rows)
            && (forall r | r in t.rows :: r in rows || r.ended < cutoff)
    decreases limit
  {
    hide T.SubtractResponse, T.Oldest;
    var i := T.Oldest(t.rows, cutoff, |t.rows|);
    if limit > 0 && i.Some? {
      var rest := t.rows[..i.value] + t.rows[i.value + 1..];
      InRest(t.rows, i.value);
      PruneRowsKeeps(t.(rows := rest, totals := T.SubtractResponse(t.totals, t.rows[i.value])), cutoff, limit - 1);
    }
  }

  lemma InRest(rows: seq<Response>, i: nat)
    requires i < |rows|
    ensures forall r :: r in rows <==> r == rows[i] || r in rows[..i] + rows[i + 1..]
  {
    assert rows == rows[..i] + [rows[i]] + rows[i + 1..];
  }

  lemma {:induction false} RetainedIn(xs: seq<Interval>, cutoff: int)
    ensures forall x :: x in Retained(xs, cutoff) <==> x in xs && x.ended >= cutoff
    ensures forall x :: x in Expired(xs, cutoff) <==> x in xs && x.ended < cutoff
  {
    if xs != [] {
      RetainedIn(xs[..|xs| - 1], cutoff);
      assert xs == xs[..|xs| - 1] + [xs[|xs| - 1]];
    }
  }

  lemma SumPruned(xs: seq<Interval>, archive: seq<Interval>, cutoff: int, m: Meter)
    ensures Sum(m, Retained(xs, cutoff) + (archive + Expired(xs, cutoff))) == Sum(m, xs + archive)
  {
    SumConcat(Retained(xs, cutoff), archive + Expired(xs, cutoff), m);
    SumConcat(archive, Expired(xs, cutoff), m);
    SumConcat(xs, archive, m);
    SumRetained(xs, cutoff, m);
  }

  lemma PruneGood(l: Ledger, archive: seq<Interval>, cutoff: int)
    requires Good(l, archive)
    ensures Good(l.(intervals := Retained(l.intervals, cutoff)), archive + Expired(l.intervals, cutoff))
  {
    var l' := l.(intervals := Retained(l.intervals, cutoff));
    var made := l'.intervals + (archive + Expired(l.intervals, cutoff));
    RetainedIn(l.intervals, cutoff);
    forall i | 0 <= i < |l'.intervals| ensures Canonical(l'.intervals[i]) {
      assert l'.intervals[i] in l.intervals;
    }
    forall key, c ensures LifeExact(l', made, key, c) {
      assert LifeExact(l, l.intervals + archive, key, c);
      SumPruned(l.intervals, archive, cutoff, Life(key, c));
    }
    forall key: ModelKey, c | key.model.Named? ensures ModelExact(l', made, key, c) {
      assert ModelExact(l, l.intervals + archive, key, c);
      SumPruned(l.intervals, archive, cutoff, PerModel(key, c));
    }
  }

  /** In every run, through late responses, corrections, reversals and pruning, both lifetime ledgers
      equal the sums over all intervals ever made. */
  lemma {:induction false} LedgersExact(accounts: map<Id, Baseline>, steps: seq<Step>)
    ensures var w := Exec(accounts, steps);
            && Good(w.tables.ledger, w.archive)
            && (forall key, c :: Part(At(w.tables.ledger.lifetime, key), c) == Sum(Life(key, c), Made(w)))
            && (forall key: ModelKey, c | key.model.Named? ::
                 Part(At(w.tables.ledger.models, key), c) == Sum(PerModel(key, c), Made(w)))
  {
    if steps == [] {
      StartGood(accounts);
    } else {
      LedgersExact(accounts, steps[..|steps| - 1]);
      StepGood(Exec(accounts, steps[..|steps| - 1]), steps[|steps| - 1]);
    }
    var w := Exec(accounts, steps);
    forall key, c ensures Part(At(w.tables.ledger.lifetime, key), c) == Sum(Life(key, c), Made(w)) {
      assert LifeExact(w.tables.ledger, Made(w), key, c);
    }
    forall key: ModelKey, c | key.model.Named?
      ensures Part(At(w.tables.ledger.models, key), c) == Sum(PerModel(key, c), Made(w))
    {
      assert ModelExact(w.tables.ledger, Made(w), key, c);
    }
  }

  lemma StartGood(accounts: map<Id, Baseline>)
    ensures var w := Start(accounts); Good(w.tables.ledger, w.archive)
  {
    var w := Start(accounts);
    assert Made(w) == [];
    forall m ensures Sum(m, Made(w)) == 0 { assert Shares(m, Made(w)) == []; }
  }

  lemma StepGood(w: World, step: Step)
    requires Good(w.tables.ledger, w.archive)
    ensures var w' := Next(w, step); Good(w'.tables.ledger, w'.archive)
  {
    match step
    case Record(r) =>
      RecordExact(w.tables.ledger, w.archive, r, |w.tables.ledger.intervals|);
    case Poll(account, snapshot, attributed) =>
      PollGood(w.tables, w.archive, account, snapshot, attributed);
    case Prune(cutoff, limit) =>
      PruneRowsLedger(w.tables, cutoff, limit);
      PruneGood(w.tables.ledger, w.archive, cutoff);
  }
}
