/** Quota attribution (internal/proxytelemetry/quota.go): usage polls cut time into intervals,
    responses give each interval activity spans and a model, and both lifetime ledgers are kept
    incrementally.  The functions here specify one transaction each; `Telemetry` runs them. */
module Quota {
  import opened Base
  import opened Spans

  const RETENTION_MS := 7 * 24 * 3600 * 1000

  datatype Window = Short | Weekly

  /** Identifiers of accounts, responses and snapshots. */
  type Id = nat

  /** A model name: the empty name, the name "unknown", or a real one. */
  datatype Model = Unnamed | Unknown | Named(name: nat)

  datatype Tokens = Tokens(input: Option<int>, cached: Option<int>, output: Option<int>, reasoning: Option<int>,
                           total: Option<int>)

  datatype Response = Response(id: Id, account: Id, model: Model, started: int, ended: int, tokens: Tokens)

  datatype WindowRead = WindowRead(used: Option<int>, reset: Option<int>)

  /** One complete usage read. */
  datatype Snapshot = Snapshot(id: Id, at: int, short: WindowRead, weekly: WindowRead)

  /** The stored read of an account that the next one is compared with. */
  datatype Baseline = Baseline(readAt: Option<int>, short: WindowRead, weekly: WindowRead)

  datatype Interval = Interval(
    snapshot: Id, account: Id, window: Window, started: int, ended: int, used: int,
    active: int, spans: seq<Span>, model: Option<Model>)

  datatype Share = Share(samples: int, used: int, active: int)

  function Nothing(): Share { Share(0, 0, 0) }
  function Plus(a: Share, b: Share): Share { Share(a.samples + b.samples, a.used + b.used, a.active + b.active) }
  function Minus(a: Share, b: Share): Share { Share(a.samples - b.samples, a.used - b.used, a.active - b.active) }

  datatype LifeKey = LifeKey(account: Id, window: Window)
  datatype ModelKey = ModelKey(account: Id, model: Model, window: Window)

  datatype Ledger = Ledger(intervals: seq<Interval>, lifetime: map<LifeKey, Share>, models: map<ModelKey, Share>)

  function At<K>(table: map<K, Share>, key: K): (share: Share)
    ensures key in table ==> share == table[key]
    ensures key !in table ==> share == Nothing()
  {
    if key in table then table[key] else Nothing()
  }

  // What a response contributes to an interval.

  /** The part of a response inside [started, ended). */
  function Clip(r: Response, started: int, ended: int): Span {
    Span(Max(r.started, started), Min(r.ended, ended))
  }

  predicate Touches(r: Response, account: Id, started: int, ended: int) {
    r.account == account && r.started > 0 && Clip(r, started, ended).from < Clip(r, started, ended).to
  }

  /** Once mixed or unknown (None), an interval never regains a single model; Some(Unnamed) is no activity yet. */
  function QuotaModel(current: Option<Model>, model: Model): Option<Model> {
    if current.None? || !model.Named? || (!current.value.Unnamed? && current.value != model) then None
    else Some(model)
  }

  function Clips(rows: seq<Response>, account: Id, started: int, ended: int): (r: seq<Span>)
    ensures Proper(r)
    ensures forall i | 0 <= i < |r| :: started <= r[i].from && r[i].to <= ended
  {
    if rows == [] then []
    else
      var front, last := Clips(rows[..|rows| - 1], account, started, ended), rows[|rows| - 1];
      if Touches(last, account, started, ended) then front + [Clip(last, started, ended)] else front
  }

  function ModelOf(rows: seq<Response>, account: Id, started: int, ended: int): Option<Model> {
    if rows == [] then Some(Unnamed)
    else
      var front, last := ModelOf(rows[..|rows| - 1], account, started, ended), rows[|rows| - 1];
      if Touches(last, account, started, ended) then QuotaModel(front, last.model) else front
  }

  // Transactions.

  function AdjustModel(models: map<ModelKey, Share>, it: Interval, model: Option<Model>, active: int,
                       add: bool): map<ModelKey, Share>
  {
    if model.None? || model.value.Unnamed? || active == 0 then models
    else
      var key := ModelKey(it.account, model.value, it.window);
      if add then models[key := Plus(At(models, key), Share(1, it.used, active))]
      else if key in models then models[key := Minus(models[key], Share(1, it.used, active))]
      else models
  }

  /** Store the activity of interval i, reversing its prior attribution before applying the new one. */
  function SaveActivity(l: Ledger, i: nat, spans: seq<Span>, model: Option<Model>): Ledger
    requires i < |l.intervals|
  {
    var it, active := l.intervals[i], Length(spans);
    if active == it.active && model == it.model then l
    else
      var reversed := AdjustModel(l.models, it, it.model, it.active, false);
      var key := LifeKey(it.account, it.window);
      var first := it.active == 0 && active > 0;
      var change := Share(if first then 1 else 0, if first then it.used else 0, active - it.active);
      Ledger(l.intervals[i := it.(active := active, spans := spans, model := model)],
             l.lifetime[key := Plus(At(l.lifetime, key), change)],
             AdjustModel(reversed, it, model, active, true))
  }

  /** A finished response corrects interval i if it was active inside it. */
  function Correct(l: Ledger, i: nat, r: Response): Ledger
    requires i < |l.intervals|
  {
    var it := l.intervals[i];
    if Touches(r, it.account, it.started, it.ended) then
      SaveActivity(l, i, Merge(it.spans + [Clip(r, it.started, it.ended)]), QuotaModel(it.model, r.model))
    else l
  }

  function RecordActivity(l: Ledger, r: Response, n: nat): (l': Ledger)
    requires n <= |l.intervals|
    ensures |l'.intervals| == |l.intervals|
  {
    if n == 0 then l else Correct(RecordActivity(l, r, n - 1), n - 1, r)
  }

  /** Both reads measured the window, in the same unexpired period, without going down. */
  predicate Comparable(previous: WindowRead, next: WindowRead, at: int) {
    && previous.used.Some? && previous.reset.Some? && next.used.Some? && next.reset.Some?
    && previous.used.value >= 0 && previous.used.value <= next.used.value <= 100
    && next.reset == previous.reset && next.reset.value > Seconds(at)
  }

  predicate Taken(intervals: seq<Interval>, snapshot: Id, window: Window) {
    exists i | 0 <= i < |intervals| :: intervals[i].snapshot == snapshot && intervals[i].window == window
  }

  function AddInterval(l: Ledger, account: Id, started: int, snapshot: Snapshot, window: Window,
                       previous: WindowRead, next: WindowRead, spans: seq<Span>, model: Option<Model>): Ledger
  {
    if !Comparable(previous, next, snapshot.at) || Taken(l.intervals, snapshot.id, window) then l
    else
      var it := Interval(snapshot.id, account, window, started, snapshot.at,
                         next.used.value - previous.used.value, 0, [], model);
      SaveActivity(l.(intervals := l.intervals + [it]), |l.intervals|, spans, model)
  }

  /** A read is attributed only if it follows the baseline by at most the retention period. */
  predicate Attributable(base: Baseline, at: int) {
    base.readAt.Some? && 0 < base.readAt.value < at && at - base.readAt.value <= RETENTION_MS
  }

  function RecordUsage(l: Ledger, rows: seq<Response>, account: Id, base: Baseline, snapshot: Snapshot): Ledger {
    if !Attributable(base, snapshot.at) then l
    else
      var started := base.readAt.value;
      var spans := Merge(Clips(rows, account, started, snapshot.at));
      var model := ModelOf(rows, account, started, snapshot.at);
      var l1 := AddInterval(l, account, started, snapshot, Short, base.short, snapshot.short, spans, model);
      AddInterval(l1, account, started, snapshot, Weekly, base.weekly, snapshot.weekly, spans, model)
  }

  function Retained(intervals: seq<Interval>, cutoff: int): seq<Interval> {
    if intervals == [] then []
    else
      var front, last := Retained(intervals[..|intervals| - 1], cutoff), intervals[|intervals| - 1];
      if last.ended < cutoff then front else front + [last]
  }

  function Expired(intervals: seq<Interval>, cutoff: int): seq<Interval> {
    if intervals == [] then []
    else
      var front, last := Expired(intervals[..|intervals| - 1], cutoff), intervals[|intervals| - 1];
      if last.ended < cutoff then front + [last] else front
  }
}
