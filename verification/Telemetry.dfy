/** The telemetry store (internal/proxytelemetry): response rows, per-model totals, usage baselines
    and the quota ledger.  Each function is one transaction; class `Store` executes them in place. */
module Telemetry {
  import opened Base
  import opened Spans
  import opened Quota

  datatype Period = Rolling | Lifetime

  datatype TotalKey = TotalKey(period: Period, model: Model)

  datatype Counters = Counters(responses: int, active: int, input: int, cached: int, output: int, reasoning: int,
                               total: int)

  datatype Tables = Tables(
    rows: seq<Response>, totals: map<TotalKey, Counters>, baselines: map<Id, Baseline>, ledger: Ledger)

  function OrZero(value: Option<int>): int { if value.Some? then value.value else 0 }

  function Amounts(r: Response): Counters {
    Counters(1, Max(0, r.ended - r.started), OrZero(r.tokens.input), OrZero(r.tokens.cached),
             OrZero(r.tokens.output), OrZero(r.tokens.reasoning), OrZero(r.tokens.total))
  }

  function Zero(): Counters { Counters(0, 0, 0, 0, 0, 0, 0) }

  function Add(a: Counters, b: Counters, sign: int): Counters {
    Counters(a.responses + sign * b.responses, a.active + sign * b.active, a.input + sign * b.input,
             a.cached + sign * b.cached, a.output + sign * b.output, a.reasoning + sign * b.reasoning,
             a.total + sign * b.total)
  }

  function TotalAt(totals: map<TotalKey, Counters>, key: TotalKey): (c: Counters)
    ensures key in totals ==> c == totals[key]
    ensures key !in totals ==> c == Zero()
  {
    if key in totals then totals[key] else Zero()
  }

  function AddResponse(totals: map<TotalKey, Counters>, period: Period, r: Response): map<TotalKey, Counters> {
    var key := TotalKey(period, r.model);
    totals[key := Add(TotalAt(totals, key), Amounts(r), 1)]
  }

  /** An update of the rolling row, if there is one. */
  function SubtractResponse(totals: map<TotalKey, Counters>, r: Response): map<TotalKey, Counters> {
    var key := TotalKey(Rolling, r.model);
    if key in totals then totals[key := Add(totals[key], Amounts(r), -1)] else totals
  }

  predicate Stored(rows: seq<Response>, id: Id) {
    exists i | 0 <= i < |rows| :: rows[i].id == id
  }

  /** A response is stored once per request id; a resent one changes nothing. */
  function Record(t: Tables, r: Response): Tables {
    if Stored(t.rows, r.id) then t
    else Tables(t.rows + [r],
                AddResponse(AddResponse(t.totals, Rolling, r), Lifetime, r),
                t.baselines,
                RecordActivity(t.ledger, r, |t.ledger.intervals|))
  }

  /** A complete usage read: attributed unless it follows a broker pulse, then made the new baseline.
      A read older than the stored one is refused. */
  predicate Accepted(baselines: map<Id, Baseline>, account: Id, snapshot: Snapshot) {
    account in baselines && (baselines[account].readAt.None? || baselines[account].readAt.value <= snapshot.at)
  }

  function Poll(t: Tables, account: Id, snapshot: Snapshot, attributed: bool): Tables {
    if !Accepted(t.baselines, account, snapshot) then t
    else t.(
      ledger := if attributed then RecordUsage(t.ledger, t.rows, account, t.baselines[account], snapshot) else t.ledger,
      baselines := t.baselines[account := Baseline(Some(snapshot.at), snapshot.short, snapshot.weekly)])
  }

  /** The row that ended first among the first n rows ended before the cutoff. */
  function Oldest(rows: seq<Response>, cutoff: int, n: nat): (r: Option<nat>)
    requires n <= |rows|
    ensures r.Some? ==> r.value < n && rows[r.value].ended < cutoff
    ensures r.Some? ==> forall j | 0 <= j < n :: rows[j].ended < cutoff ==> rows[r.value].ended <= rows[j].ended
    ensures r.None? ==> forall j | 0 <= j < n :: rows[j].ended >= cutoff
  {
    if n == 0 then None
    else
      var before := Oldest(rows, cutoff, n - 1);
      if rows[n - 1].ended < cutoff && (before.None? || rows[n - 1].ended < rows[before.value].ended) then Some(n - 1)
      else before
  }

  /** Delete at most `limit` expired rows, oldest first, taking each out of the rolling totals. */
  function PruneRows(t: Tables, cutoff: int, limit: nat): Tables
    decreases limit
  {
    var i := Oldest(t.rows, cutoff, |t.rows|);
    if limit == 0 || i.None? then t
    else PruneRows(t.(rows := t.rows[..i.value] + t.rows[i.value + 1..],
                      totals := SubtractResponse(t.totals, t.rows[i.value])), cutoff, limit - 1)
  }

  lemma PruneStep(t: Tables, cutoff: int, limit: nat)
    ensures var i := Oldest(t.rows, cutoff, |t.rows|);
            PruneRows(t, cutoff, limit) ==
            if limit == 0 || i.None? then t
            else
              var totals := SubtractResponse(t.totals, t.rows[i.value]);
              PruneRows(Tables(t.rows[..i.value] + t.rows[i.value + 1..], totals, t.baselines, t.ledger),
                        cutoff, limit - 1)
  {
  }

  function Prune(t: Tables, cutoff: int, limit: nat): Tables {
    var t1 := PruneRows(t, cutoff, limit);
    t1.(ledger := t1.ledger.(intervals := Retained(t1.ledger.intervals, cutoff)))
  }

  class Store {
    var rows: seq<Response>
    var totals: map<TotalKey, Counters>
    var baselines: map<Id, Baseline>
    var intervals: seq<Interval>
    var lifetime: map<LifeKey, Share>
    var models: map<ModelKey, Share>

    ghost function View(): Tables
      reads this
    {
      Tables(rows, totals, baselines, Ledger(intervals, lifetime, models))
    }

    constructor (accounts: map<Id, Baseline>)
      ensures View() == Tables([], map[], accounts, Ledger([], map[], map[]))
    {
      rows, totals, baselines := [], map[], accounts;
      intervals, lifetime, models := [], map[], map[];
    }

    method AdjustModelLifetime(it: Interval, model: Option<Model>, active: int, add: bool)
      modifies this`models
      ensures models == AdjustModel(old(models), it, model, active, add)
    {
      if model.None? || model.value == Unnamed || active == 0 {
        return;
      }
      var key := ModelKey(it.account, model.value, it.window);
      if add {
        var share := Share(1, it.used, active);
        models := models[key := if key in models then Plus(models[key], share) else share];
      } else if key in models {
        models := models[key := Minus(models[key], Share(1, it.used, active))];
      }
    }

    method SaveActivityAt(i: nat, spans: seq<Span>, model: Option<Model>)
      requires i < |intervals|
      modifies this`intervals, this`lifetime, this`models
      ensures View().ledger == SaveActivity(old(View()).ledger, i, spans, model)
    {
      var active := 0;
      for k := 0 to |spans|
        invariant active == Length(spans[..k])
      {
        assert spans[..k + 1][..k] == spans[..k];
        active := active + (spans[k].to - spans[k].from);
      }
      assert spans[..|spans|] == spans;
      var it := intervals[i];
      if active == it.active && model == it.model {
        return;
      }
      AdjustModelLifetime(it, it.model, it.active, false);
      AdjustModelLifetime(it, model, active, true);
      intervals := intervals[i := it.(active := active, spans := spans, model := model)];
      var samples, used := 0, 0;
      if it.active == 0 && active > 0 {
        samples, used := 1, it.used;
      }
      var key := LifeKey(it.account, it.window);
      var change := Share(samples, used, active - it.active);
      lifetime := lifetime[key := Plus(if key in lifetime then lifetime[key] else Nothing(), change)];
    }

    method RecordQuotaActivity(r: Response)
      modifies this`intervals, this`lifetime, this`models
      ensures View().ledger == RecordActivity(old(View()).ledger, r, old(|intervals|))
    {
      var n := |intervals|;
      for i := 0 to n
        invariant |intervals| == n
        invariant View().ledger == RecordActivity(old(View()).ledger, r, i)
      {
        var it := intervals[i];
        if it.account == r.account && r.started > 0 {
          var clip := Clip(r, it.started, it.ended);
          if clip.from < clip.to {
            var spans := Merge(it.spans + [clip]);
            SaveActivityAt(i, spans, QuotaModel(it.model, r.model));
          }
        }
      }
    }

    method RecordResponse(r: Response) returns (inserted: bool)
      modifies this
      ensures View() == Record(old(View()), r)
      ensures inserted == !Stored(old(rows), r.id)
    {
      inserted := !Stored(rows, r.id);
      if inserted {
        rows := rows + [r];
        totals := AddResponse(totals, Rolling, r);
        totals := AddResponse(totals, Lifetime, r);
        RecordQuotaActivity(r);
      }
    }

    method AddWindow(account: Id, started: int, snapshot: Snapshot, window: Window,
                     previous: WindowRead, next: WindowRead, spans: seq<Span>, model: Option<Model>)
      modifies this`intervals, this`lifetime, this`models
      ensures View().ledger ==
              AddInterval(old(View()).ledger, account, started, snapshot, window, previous, next, spans, model)
    {
      if Comparable(previous, next, snapshot.at) && !Taken(intervals, snapshot.id, window) {
        var used := next.used.value - previous.used.value;
        intervals := intervals + [Interval(snapshot.id, account, window, started, snapshot.at, used, 0, [], model)];
        SaveActivityAt(|intervals| - 1, spans, model);
      }
    }

    method RecordUsageRead(account: Id, snapshot: Snapshot)
      requires account in baselines
      modifies this`intervals, this`lifetime, this`models
      ensures View().ledger ==
              RecordUsage(old(View()).ledger, rows, account, baselines[account], snapshot)
    {
      var base := baselines[account];
      if !Attributable(base, snapshot.at) {
        return;
      }
      var started := base.readAt.value;
      var spans: seq<Span>, model := [], Some(Unnamed);
      for i := 0 to |rows|
        invariant spans == Clips(rows[..i], account, started, snapshot.at)
        invariant model == ModelOf(rows[..i], account, started, snapshot.at)
      {
        assert rows[..i + 1][..i] == rows[..i];
        if rows[i].account == account && rows[i].started > 0 {
          var clip := Clip(rows[i], started, snapshot.at);
          if clip.from < clip.to {
            spans := spans + [clip];
            model := QuotaModel(model, rows[i].model);
          }
        }
      }
      assert rows[..|rows|] == rows;
      spans := MergeSpans(spans);
      AddWindow(account, started, snapshot, Short, base.short, snapshot.short, spans, model);
      AddWindow(account, started, snapshot, Weekly, base.weekly, snapshot.weekly, spans, model);
    }

    method CommitRead(account: Id, snapshot: Snapshot, attributed: bool) returns (ok: bool)
      modifies this
      ensures View() == Poll(old(View()), account, snapshot, attributed)
      ensures ok == Accepted(old(baselines), account, snapshot)
    {
      ok := Accepted(baselines, account, snapshot);
      if ok {
        if attributed {
          RecordUsageRead(account, snapshot);
        }
        baselines := baselines[account := Baseline(Some(snapshot.at), snapshot.short, snapshot.weekly)];
      }
    }

    method PruneResponses(cutoff: int, limit: nat)
      modifies this`rows, this`totals
      ensures View() == PruneRows(old(View()), cutoff, limit)
    {
      hide SubtractResponse, Oldest, PruneRows;
      var left := limit;
      var i := Oldest(rows, cutoff, |rows|);
      PruneStep(View(), cutoff, left);
      while left > 0 && i.Some?
        invariant i == Oldest(rows, cutoff, |rows|)
        invariant PruneRows(View(), cutoff, left) == PruneRows(old(View()), cutoff, limit)
        decreases left
      {
        PruneStep(View(), cutoff, left);
        totals := SubtractResponse(totals, rows[i.value]);
        rows := rows[..i.value] + rows[i.value + 1..];
        left := left - 1;
        i := Oldest(rows, cutoff, |rows|);
      }
      PruneStep(View(), cutoff, left);
    }

    method PruneExpired(cutoff: int, limit: nat)
      modifies this
      ensures View() == Prune(old(View()), cutoff, limit)
    {
      PruneResponses(cutoff, limit);
      var kept: seq<Interval> := [];
      for k := 0 to |intervals|
        invariant kept == Retained(intervals[..k], cutoff)
      {
        assert intervals[..k + 1][..k] == intervals[..k];
        if intervals[k].ended >= cutoff {
          kept := kept + [intervals[k]];
        }
      }
      assert intervals[..|intervals|] == intervals;
      intervals := kept;
    }
  }
}
