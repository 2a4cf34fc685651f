/** What the quota ledger holds at the end of a run does not depend on how responses, polls and pruning
    were interleaved: it is a function of the polls and of the set of responses alone. */
module Interleaving {
  import opened Base
  import opened Sums
  import opened Spans
  import opened Quota
  import opened QuotaLaws
  import opened TelemetryRuns
  import T = Telemetry

  // Intervals as the polls alone determine them.

  datatype Skeleton = Skeleton(snapshot: Id, account: Id, window: Window, started: int, ended: int, used: int)

  function SkeletonOf(x: Interval): Skeleton {
    Skeleton(x.snapshot, x.account, x.window, x.started, x.ended, x.used)
  }

  function Skeletons(xs: seq<Interval>): (r: seq<Skeleton>)
    ensures |r| == |xs| && forall i | 0 <= i < |xs| :: r[i] == SkeletonOf(xs[i])
  {
    seq(|xs|, i requires 0 <= i < |xs| => SkeletonOf(xs[i]))
  }

  /** The interval recomputed from scratch over all given responses. */
  function Build(sk: Skeleton, log: seq<Response>): Interval {
    var spans := Merge(Clips(log, sk.account, sk.started, sk.ended));
    Interval(sk.snapshot, sk.account, sk.window, sk.started, sk.ended, sk.used,
             Length(spans), spans, ModelOf(log, sk.account, sk.started, sk.ended))
  }

  function BuildAll(plan: seq<Skeleton>, log: seq<Response>): (r: seq<Interval>)
    ensures |r| == |plan| && forall i | 0 <= i < |plan| :: r[i] == Build(plan[i], log)
  {
    seq(|plan|, i requires 0 <= i < |plan| => Build(plan[i], log))
  }

  function PlanWindow(account: Id, started: int, snapshot: Snapshot, window: Window,
                      previous: WindowRead, next: WindowRead): seq<Skeleton>
  {
    if !Comparable(previous, next, snapshot.at) then []
    else [Skeleton(snapshot.id, account, window, started, snapshot.at, next.used.value - previous.used.value)]
  }

  /** The intervals one read opens, from the stored baseline. */
  function Plan(base: Baseline, account: Id, snapshot: Snapshot): seq<Skeleton> {
    if !Attributable(base, snapshot.at) then []
    else
      PlanWindow(account, base.readAt.value, snapshot, Short, base.short, snapshot.short) +
      PlanWindow(account, base.readAt.value, snapshot, Weekly, base.weekly, snapshot.weekly)
  }

  function NextBaselines(baselines: map<Id, Baseline>, step: Step): map<Id, Baseline> {
    if step.Poll? && T.Accepted(baselines, step.account, step.snapshot) then
      baselines[step.account := Baseline(Some(step.snapshot.at), step.snapshot.short, step.snapshot.weekly)]
    else baselines
  }

  function BaselinesAfter(accounts: map<Id, Baseline>, steps: seq<Step>): map<Id, Baseline> {
    if steps == [] then accounts
    else NextBaselines(BaselinesAfter(accounts, steps[..|steps| - 1]), steps[|steps| - 1])
  }

  function PlanStep(baselines: map<Id, Baseline>, step: Step): seq<Skeleton> {
    if step.Poll? && step.attributed && T.Accepted(baselines, step.account, step.snapshot) then
      Plan(baselines[step.account], step.account, step.snapshot)
    else []
  }

  /** Every interval the polls of a run open, in the order of the polls. */
  function Planned(accounts: map<Id, Baseline>, steps: seq<Step>): seq<Skeleton> {
    if steps == [] then []
    else
      Planned(accounts, steps[..|steps| - 1]) +
      PlanStep(BaselinesAfter(accounts, steps[..|steps| - 1]), steps[|steps| - 1])
  }

  function Polls(steps: seq<Step>): seq<Step> {
    if steps == [] then []
    else
      var front, last := Polls(steps[..|steps| - 1]), steps[|steps| - 1];
      if last.Poll? then front + [last] else front
  }

  /** Only the polls matter for which intervals exist. */
  lemma {:induction false} PlannedByPolls(accounts: map<Id, Baseline>, steps: seq<Step>)
    ensures BaselinesAfter(accounts, steps) == BaselinesAfter(accounts, Polls(steps))
    ensures Planned(accounts, steps) == Planned(accounts, Polls(steps))
  {
    if steps != [] {
      var front, last := steps[..|steps| - 1], steps[|steps| - 1];
      PlannedByPolls(accounts, front);
      if last.Poll? {
        assert Polls(steps)[..|Polls(steps)| - 1] == Polls(front);
      } else {
        assert Planned(accounts, front) + [] == Planned(accounts, front);
      }
    }
  }

  // Sums over skeletons do not depend on their order.

  ghost function Recompute(m: Meter, skeletons: seq<Skeleton>, log: seq<Response>): int {
    Total(seq(|skeletons|, i requires 0 <= i < |skeletons| => ShareOf(m, Build(skeletons[i], log))))
  }

  lemma RecomputeSplit(m: Meter, sks: seq<Skeleton>, i: nat, log: seq<Response>)
    requires i < |sks|
    ensures Recompute(m, sks, log) == Recompute(m, sks[..i] + sks[i + 1..], log) + ShareOf(m, Build(sks[i], log))
  {
    hide ShareOf, Build;
    var all := seq(|sks|, k requires 0 <= k < |sks| => ShareOf(m, Build(sks[k], log)));
    var rest := sks[..i] + sks[i + 1..];
    var few := seq(|rest|, k requires 0 <= k < |rest| => ShareOf(m, Build(rest[k], log)));
    assert few == all[..i] + all[i + 1..];
    TotalSplit(all, i);
  }

  lemma MultisetRemove(s: seq<Skeleton>, i: nat)
    requires i < |s|
    ensures multiset(s[..i] + s[i + 1..]) == multiset(s) - multiset{s[i]}
  {
    assert s == s[..i] + [s[i]] + s[i + 1..];
  }

  lemma Locate(a: seq<Skeleton>, b: seq<Skeleton>) returns (i: nat)
    requires a != [] && multiset(a) == multiset(b)
    ensures i < |b| && b[i] == a[|a| - 1]
    ensures multiset(a[..|a| - 1]) == multiset(b[..i] + b[i + 1..])
  {
    var k := |a| - 1;
    assert a[k] in multiset(b);
    i :| i < |b| && b[i] == a[k];
    MultisetRemove(b, i);
    MultisetRemove(a, k);
    assert a[..k] + a[k + 1..] == a[..k];
  }

  lemma RecomputeLast(m: Meter, a: seq<Skeleton>, log: seq<Response>)
    requires a != []
    ensures Recompute(m, a, log) == Recompute(m, a[..|a| - 1], log) + ShareOf(m, Build(a[|a| - 1], log))
  {
    RecomputeSplit(m, a, |a| - 1, log);
    assert a[..|a| - 1] + a[|a| - 1 + 1..] == a[..|a| - 1];
  }

  lemma {:induction false} RecomputePermutation(m: Meter, a: seq<Skeleton>, b: seq<Skeleton>, log: seq<Response>)
    requires multiset(a) == multiset(b)
    ensures Recompute(m, a, log) == Recompute(m, b, log)
    decreases |a|
  {
    if a == [] {
      assert |b| == |multiset(b)|;
    } else {
      var i := Locate(a, b);
      RecomputePermutation(m, a[..|a| - 1], b[..i] + b[i + 1..], log);
      RecomputeLast(m, a, log);
      RecomputeSplit(m, b, i, log);
    }
  }

  // Runs in which nothing needed arrives too late.

  /** A response is recorded before the intervals it overlaps are pruned; a poll uses a new snapshot id and
      was observed no earlier than the retention period after every pruning cutoff so far. */
  ghost predicate InOrder(w: World, step: Step) {
    match step
    case Record(r) =>
      T.Stored(w.tables.rows, r.id) || forall x | x in w.archive :: !Touches(r, x.account, x.started, x.ended)
    case Poll(_, snapshot, _) =>
      && (forall x | x in Made(w) :: x.snapshot != snapshot.id)
      && (w.cutoff.None? || w.cutoff.value <= snapshot.at - RETENTION_MS)
    case Prune(_, _) => true
  }

  ghost predicate Orderly(accounts: map<Id, Baseline>, steps: seq<Step>) {
    steps == [] ||
    (Orderly(accounts, steps[..|steps| - 1]) && InOrder(Exec(accounts, steps[..|steps| - 1]), steps[|steps| - 1]))
  }

  ghost predicate Built(x: Interval, log: seq<Response>) { x == Build(SkeletonOf(x), log) }

  /** Only expired responses have left the table. */
  ghost predicate LogKept(w: World) {
    && (forall r | r in w.tables.rows :: r in w.log)
    && (forall r | r in w.log :: r in w.tables.rows || (w.cutoff.Some? && r.ended < w.cutoff.value))
  }

  /** What a correction makes of one interval, whatever the rest of the ledger. */
  ghost function Corrected(it: Interval, r: Response): Interval {
    Correct(Ledger([it], map[], map[]), 0, r).intervals[0]
  }

  lemma CorrectFrame(l: Ledger, i: nat, r: Response)
    requires i < |l.intervals|
    ensures Correct(l, i, r).intervals == l.intervals[i := Corrected(l.intervals[i], r)]
    ensures SkeletonOf(Corrected(l.intervals[i], r)) == SkeletonOf(l.intervals[i])
  {
  }

  lemma {:induction false} RecordFrame(l: Ledger, r: Response, n: nat, i: nat)
    requires i < |l.intervals| && n <= |l.intervals|
    ensures var x := RecordActivity(l, r, n).intervals;
            |x| == |l.intervals| && x[i] == if i < n then Corrected(l.intervals[i], r) else l.intervals[i]
  {
    hide Correct, Corrected;
    if n > 0 {
      RecordFrame(l, r, n - 1, i);
      CorrectFrame(RecordActivity(l, r, n - 1), n - 1, r);
    }
  }

  lemma CorrectedBuilt(it: Interval, r: Response, log: seq<Response>)
    requires Built(it, log)
    ensures Built(Corrected(it, r), log + [r])
  {
    CorrectHolds(Ledger([it], map[], map[]), 0, r, log);
    CorrectFrame(Ledger([it], map[], map[]), 0, r);
  }

  lemma AddShape(l: Ledger, account: Id, started: int, snapshot: Snapshot, window: Window,
                 previous: WindowRead, next: WindowRead, spans: seq<Span>, model: Option<Model>)
    requires !Taken(l.intervals, snapshot.id, window) && Separated(spans)
    ensures var plan := PlanWindow(account, started, snapshot, window, previous, next);
            AddInterval(l, account, started, snapshot, window, previous, next, spans, model).intervals ==
            if plan == [] then l.intervals
            else l.intervals + [Interval(snapshot.id, account, window, started, snapshot.at, plan[0].used,
                                         Length(spans), spans, model)]
  {
    EmptySpans(spans);
  }

  lemma EmptySpans(spans: seq<Span>)
    requires Separated(spans)
    ensures Length(spans) == 0 ==> spans == []
  {
    SeparatedMeasure(spans);
    if spans != [] { LastSpan(spans); }
  }

  /** A poll opens exactly its planned intervals, each built from the rows then stored. */
  lemma UsageShape(l: Ledger, rows: seq<Response>, account: Id, base: Baseline, snapshot: Snapshot)
    requires forall x | x in l.intervals :: x.snapshot != snapshot.id
    ensures var plan := Plan(base, account, snapshot);
            RecordUsage(l, rows, account, base, snapshot).intervals ==
            l.intervals + BuildAll(plan, rows)
  {
    hide Merge, ModelOf, Clips, Separated, AddInterval, Comparable;
    if Attributable(base, snapshot.at) {
      var started := base.readAt.value;
      var spans := Merge(Clips(rows, account, started, snapshot.at));
      var model := ModelOf(rows, account, started, snapshot.at);
      MergeCanonical(Clips(rows, account, started, snapshot.at));
      forall i | 0 <= i < |l.intervals| ensures l.intervals[i].snapshot != snapshot.id {
        assert l.intervals[i] in l.intervals;
      }
      AddShape(l, account, started, snapshot, Short, base.short, snapshot.short, spans, model);
      var l1 := AddInterval(l, account, started, snapshot, Short, base.short, snapshot.short, spans, model);
      assert !Taken(l1.intervals, snapshot.id, Weekly);
      AddShape(l1, account, started, snapshot, Weekly, base.weekly, snapshot.weekly, spans, model);
    }
  }

  ghost predicate Content(accounts: map<Id, Baseline>, steps: seq<Step>, w: World) {
    && w.tables.baselines == BaselinesAfter(accounts, steps)
    && multiset(Skeletons(Made(w))) == multiset(Planned(accounts, steps))
    && EachBuilt(Made(w), w.log)
    && LogKept(w)
  }

  lemma RecordStep(w: World, r: Response)
    requires InOrder(w, Record(r)) && !T.Stored(w.tables.rows, r.id)
    requires EachBuilt(Made(w), w.log)
    ensures var w' := Next(w, Record(r));
            && Skeletons(Made(w')) == Skeletons(Made(w))
            && EachBuilt(Made(w'), w.log + [r])
  {
    hide Built, Correct, Corrected, Touches, RecordActivity;
    var l, n := w.tables.ledger, |w.tables.ledger.intervals|;
    var w' := Next(w, Record(r));
    forall i | 0 <= i < n
      ensures |w'.tables.ledger.intervals| == n
      ensures SkeletonOf(Made(w')[i]) == SkeletonOf(Made(w)[i]) && Built(Made(w')[i], w.log + [r])
    {
      assert Built(Made(w)[i], w.log);
      RecordFrame(l, r, n, i);
      CorrectFrame(l, i, r);
      CorrectedBuilt(l.intervals[i], r, w.log);
    }
    forall i | n <= i < |Made(w)| ensures Made(w')[i] == Made(w)[i] && Built(Made(w)[i], w.log + [r]) {
      assert Built(Made(w)[i], w.log);
      UntouchedBuilt(Made(w)[i], w.log, r);
    }
  }

  lemma UntouchedBuilt(x: Interval, log: seq<Response>, r: Response)
    requires Built(x, log) && !Touches(r, x.account, x.started, x.ended)
    ensures Built(x, log + [r])
  {
    assert (log + [r])[..|log|] == log;
  }

  /** What pruning has removed ended before any interval a timely poll opens: nothing needed is gone. */
  lemma PrunedNotNeeded(w: World, account: Id, started: int, ended: int)
    requires LogKept(w) && (w.cutoff.None? || w.cutoff.value <= started)
    ensures forall r | Touches(r, account, started, ended) :: r in w.tables.rows <==> r in w.log
  {
  }

  lemma RowsSuffice(w: World, base: Baseline, account: Id, snapshot: Snapshot, i: nat)
    requires LogKept(w) && InOrder(w, Poll(account, snapshot, true))
    requires i < |Plan(base, account, snapshot)|
    ensures Built(Build(Plan(base, account, snapshot)[i], w.tables.rows), w.log)
  {
    var x := Build(Plan(base, account, snapshot)[i], w.tables.rows);
    PrunedNotNeeded(w, account, x.started, x.ended);
    HoldsSame(x, w.tables.rows, w.log);
  }

  lemma SkeletonsConcat(a: seq<Interval>, b: seq<Interval>)
    ensures Skeletons(a + b) == Skeletons(a) + Skeletons(b)
  {
  }

  lemma SkeletonsBuilt(plan: seq<Skeleton>, rows: seq<Response>)
    ensures Skeletons(BuildAll(plan, rows)) == plan
  {
  }

  lemma SkeletonsInsert(a: seq<Interval>, plan: seq<Skeleton>, rows: seq<Response>, b: seq<Interval>)
    ensures multiset(Skeletons(a + BuildAll(plan, rows) + b)) == multiset(Skeletons(a + b)) + multiset(plan)
  {
    var more := BuildAll(plan, rows);
    SkeletonsConcat(a + more, b);
    SkeletonsConcat(a, more);
    SkeletonsBuilt(plan, rows);
    SkeletonsConcat(a, b);
  }

  lemma PollShape(w: World, account: Id, snapshot: Snapshot, attributed: bool)
    requires InOrder(w, Poll(account, snapshot, attributed))
    ensures var step := Poll(account, snapshot, attributed);
            Made(Next(w, step)) == w.tables.ledger.intervals +
                                   BuildAll(PlanStep(w.tables.baselines, step), w.tables.rows) + w.archive
  {
    if T.Accepted(w.tables.baselines, account, snapshot) && attributed {
      forall x | x in w.tables.ledger.intervals ensures x.snapshot != snapshot.id { assert x in Made(w); }
      UsageShape(w.tables.ledger, w.tables.rows, account, w.tables.baselines[account], snapshot);
    }
  }

  ghost predicate EachBuilt(xs: seq<Interval>, log: seq<Response>) {
    forall i | 0 <= i < |xs| :: Built(xs[i], log)
  }

  lemma EachBuiltConcat(a: seq<Interval>, b: seq<Interval>, log: seq<Response>)
    ensures EachBuilt(a + b, log) <==> EachBuilt(a, log) && EachBuilt(b, log)
  {
    if EachBuilt(a + b, log) {
      forall i | 0 <= i < |a| ensures Built(a[i], log) { assert (a + b)[i] == a[i]; }
      forall i | 0 <= i < |b| ensures Built(b[i], log) { assert (a + b)[|a| + i] == b[i]; }
    }
  }

  lemma PollStep(w: World, account: Id, snapshot: Snapshot, attributed: bool)
    requires InOrder(w, Poll(account, snapshot, attributed)) && LogKept(w) && EachBuilt(Made(w), w.log)
    ensures var step := Poll(account, snapshot, attributed);
            var w' := Next(w, step);
            && multiset(Skeletons(Made(w'))) ==
                 multiset(Skeletons(Made(w))) + multiset(PlanStep(w.tables.baselines, step))
            && EachBuilt(Made(w'), w.log)
  {
    var plan := PlanStep(w.tables.baselines, Poll(account, snapshot, attributed));
    var xs, more := w.tables.ledger.intervals, BuildAll(plan, w.tables.rows);
    PollShape(w, account, snapshot, attributed);
    SkeletonsInsert(xs, plan, w.tables.rows, w.archive);
    forall i | 0 <= i < |plan| ensures Built(more[i], w.log) {
      RowsSuffice(w, w.tables.baselines[account], account, snapshot, i);
    }
    EachBuiltConcat(xs, w.archive, w.log);
    EachBuiltConcat(xs, more, w.log);
    EachBuiltConcat(xs + more, w.archive, w.log);
  }

  lemma {:induction false} SkeletonsMultiset(a: seq<Interval>, cutoff: int)
    ensures multiset(Skeletons(Retained(a, cutoff))) + multiset(Skeletons(Expired(a, cutoff))) == multiset(Skeletons(a))
  {
    if a != [] {
      var front, last := a[..|a| - 1], a[|a| - 1];
      SkeletonsMultiset(front, cutoff);
      assert a == front + [last];
      SkeletonsConcat(front, [last]);
      SkeletonsConcat(Expired(front, cutoff), [last]);
      SkeletonsConcat(Retained(front, cutoff), [last]);
    }
  }

  lemma {:induction false} RetainedBuilt(a: seq<Interval>, cutoff: int, log: seq<Response>)
    requires EachBuilt(a, log)
    ensures EachBuilt(Retained(a, cutoff), log) && EachBuilt(Expired(a, cutoff), log)
  {
    if a != [] {
      RetainedBuilt(a[..|a| - 1], cutoff, log);
    }
  }

  lemma PruneStep(w: World, cutoff: int, limit: nat)
    requires EachBuilt(Made(w), w.log)
    ensures var w' := Next(w, Prune(cutoff, limit));
            multiset(Skeletons(Made(w'))) == multiset(Skeletons(Made(w))) && EachBuilt(Made(w'), w.log)
  {
    var xs := w.tables.ledger.intervals;
    var kept, gone := Retained(xs, cutoff), Expired(xs, cutoff);
    PruneRowsLedger(w.tables, cutoff, limit);
    SkeletonsMultiset(xs, cutoff);
    SkeletonsConcat(kept, w.archive + gone);
    SkeletonsConcat(w.archive, gone);
    SkeletonsConcat(xs, w.archive);
    EachBuiltConcat(xs, w.archive, w.log);
    RetainedBuilt(xs, cutoff, w.log);
    EachBuiltConcat(w.archive, gone, w.log);
    EachBuiltConcat(kept, w.archive + gone, w.log);
  }

  lemma KeptStep(w: World, step: Step)
    requires LogKept(w)
    ensures LogKept(Next(w, step))
  {
    if step.Prune? { PruneRowsKeeps(w.tables, step.cutoff, step.limit); }
  }

  lemma BaselinesStep(w: World, step: Step)
    ensures Next(w, step).tables.baselines == NextBaselines(w.tables.baselines, step)
  {
    if step.Prune? { PruneRowsLedger(w.tables, step.cutoff, step.limit); }
  }

  lemma MadeStep(w: World, step: Step)
    requires InOrder(w, step) && LogKept(w) && EachBuilt(Made(w), w.log)
    ensures var w' := Next(w, step);
            && multiset(Skeletons(Made(w'))) ==
                 multiset(Skeletons(Made(w))) + multiset(PlanStep(w.tables.baselines, step))
            && EachBuilt(Made(w'), w'.log)
  {
    match step
    case Record(r) => if !T.Stored(w.tables.rows, r.id) { RecordStep(w, r); }
    case Poll(account, snapshot, attributed) => PollStep(w, account, snapshot, attributed);
    case Prune(cutoff, limit) => PruneStep(w, cutoff, limit);
  }

  lemma {:induction false} RunContent(accounts: map<Id, Baseline>, steps: seq<Step>)
    requires Orderly(accounts, steps)
    ensures Content(accounts, steps, Exec(accounts, steps))
  {
    if steps == [] {
      assert Skeletons(Made(Start(accounts))) == [];
    } else {
      var w, step := Exec(accounts, steps[..|steps| - 1]), steps[|steps| - 1];
      RunContent(accounts, steps[..|steps| - 1]);
      KeptStep(w, step);
      BaselinesStep(w, step);
      MadeStep(w, step);
    }
  }

  // Main results.

  lemma SumIsRecomputed(m: Meter, xs: seq<Interval>, log: seq<Response>)
    requires EachBuilt(xs, log)
    ensures Sum(m, xs) == Recompute(m, Skeletons(xs), log)
  {
    var sks := Skeletons(xs);
    assert Shares(m, xs) == seq(|sks|, i requires 0 <= i < |sks| => ShareOf(m, Build(sks[i], log))) by {
      forall i | 0 <= i < |xs| ensures ShareOf(m, xs[i]) == ShareOf(m, Build(sks[i], log)) { assert Built(xs[i], log); }
    }
  }

  lemma MadeIsRecomputed(m: Meter, accounts: map<Id, Baseline>, steps: seq<Step>)
    requires Orderly(accounts, steps)
    ensures Sum(m, Made(Exec(accounts, steps))) == Recompute(m, Planned(accounts, steps), Exec(accounts, steps).log)
  {
    var w := Exec(accounts, steps);
    RunContent(accounts, steps);
    SumIsRecomputed(m, Made(w), w.log);
    RecomputePermutation(m, Skeletons(Made(w)), Planned(accounts, steps), w.log);
  }

  /** After any orderly run both ledgers equal recomputation from scratch: from the intervals the polls
      open and all responses recorded, in whatever order these arrived and whatever was pruned since. */
  lemma LedgerFromScratch(accounts: map<Id, Baseline>, steps: seq<Step>)
    requires Orderly(accounts, steps)
    ensures var w, plan := Exec(accounts, steps), Planned(accounts, steps);
            && (forall key, c :: Part(At(w.tables.ledger.lifetime, key), c) == Recompute(Life(key, c), plan, w.log))
            && (forall key: ModelKey, c | key.model.Named? ::
                 Part(At(w.tables.ledger.models, key), c) == Recompute(PerModel(key, c), plan, w.log))
  {
    LedgersExact(accounts, steps);
    var w, plan := Exec(accounts, steps), Planned(accounts, steps);
    forall key, c ensures Part(At(w.tables.ledger.lifetime, key), c) == Recompute(Life(key, c), plan, w.log) {
      MadeIsRecomputed(Life(key, c), accounts, steps);
    }
    forall key: ModelKey, c | key.model.Named?
      ensures Part(At(w.tables.ledger.models, key), c) == Recompute(PerModel(key, c), plan, w.log)
    {
      MadeIsRecomputed(PerModel(key, c), accounts, steps);
    }
  }

  lemma BuildSame(sk: Skeleton, p: seq<Response>, q: seq<Response>)
    requires forall r :: r in p <==> r in q
    ensures Build(sk, p) == Build(sk, q)
  {
    HoldsSame(Build(sk, p), p, q);
  }

  lemma RecomputeSame(m: Meter, sks: seq<Skeleton>, p: seq<Response>, q: seq<Response>)
    requires forall r :: r in p <==> r in q
    ensures Recompute(m, sks, p) == Recompute(m, sks, q)
  {
    forall sk ensures Build(sk, p) == Build(sk, q) { BuildSame(sk, p, q); }
    assert seq(|sks|, i requires 0 <= i < |sks| => ShareOf(m, Build(sks[i], p))) ==
           seq(|sks|, i requires 0 <= i < |sks| => ShareOf(m, Build(sks[i], q)));
  }

  /** Intervals with the same skeletons, built from the same responses, are the same. */
  lemma MadeSubset(xs: seq<Interval>, ys: seq<Interval>, p: seq<Response>, q: seq<Response>, x: Interval)
    requires EachBuilt(xs, p) && EachBuilt(ys, q) && multiset(Skeletons(xs)) == multiset(Skeletons(ys))
    requires forall r :: r in p <==> r in q
    ensures x in xs ==> x in ys
  {
    if x in xs {
      var i :| 0 <= i < |xs| && xs[i] == x;
      assert Built(xs[i], p);
      assert Skeletons(xs)[i] in multiset(Skeletons(ys));
      assert SkeletonOf(x) in Skeletons(ys);
      var j :| 0 <= j < |ys| && Skeletons(ys)[j] == SkeletonOf(x);
      assert Built(ys[j], q);
      BuildSame(SkeletonOf(x), p, q);
    }
  }

  /** Interleaving independence: two orderly runs with the same polls and the same set of responses, however
      interleaved and pruned, make the same intervals and end with equal ledgers. */
  lemma {:induction false} InterleavingIndependence(accounts: map<Id, Baseline>, a: seq<Step>, b: seq<Step>)
    requires Orderly(accounts, a) && Orderly(accounts, b) && Polls(a) == Polls(b)
    requires forall r :: r in Exec(accounts, a).log <==> r in Exec(accounts, b).log
    ensures var wa, wb := Exec(accounts, a), Exec(accounts, b);
            && (forall x :: x in Made(wa) <==> x in Made(wb))
            && (forall key, c ::
                 Part(At(wa.tables.ledger.lifetime, key), c) == Part(At(wb.tables.ledger.lifetime, key), c))
            && (forall key: ModelKey, c | key.model.Named? ::
                 Part(At(wa.tables.ledger.models, key), c) == Part(At(wb.tables.ledger.models, key), c))
  {
    var wa, wb := Exec(accounts, a), Exec(accounts, b);
    RunContent(accounts, a);
    RunContent(accounts, b);
    PlannedByPolls(accounts, a);
    PlannedByPolls(accounts, b);
    forall x ensures x in Made(wa) <==> x in Made(wb) {
      MadeSubset(Made(wa), Made(wb), wa.log, wb.log, x);
      MadeSubset(Made(wb), Made(wa), wb.log, wa.log, x);
    }
    LedgerFromScratch(accounts, a);
    LedgerFromScratch(accounts, b);
    forall m ensures Recompute(m, Planned(accounts, a), wa.log) == Recompute(m, Planned(accounts, b), wb.log) {
      RecomputeSame(m, Planned(accounts, a), wa.log, wb.log);
    }
  }

  // Attributed time is bounded by elapsed time.

  function ReadAt(baselines: map<Id, Baseline>, account: Id): Option<int> {
    if account in baselines then baselines[account].readAt else None
  }

  /** When the account was first read, in the run or before it. */
  function FirstRead(accounts: map<Id, Baseline>, steps: seq<Step>, account: Id): Option<int> {
    if steps == [] then ReadAt(accounts, account)
    else
      var before := FirstRead(accounts, steps[..|steps| - 1], account);
      if before.Some? then before else ReadAt(BaselinesAfter(accounts, steps), account)
  }

  lemma RecomputeConcat(m: Meter, a: seq<Skeleton>, b: seq<Skeleton>, log: seq<Response>)
    ensures Recompute(m, a + b, log) == Recompute(m, a, log) + Recompute(m, b, log)
  {
    hide ShareOf, Build;
    var sa := seq(|a|, i requires 0 <= i < |a| => ShareOf(m, Build(a[i], log)));
    var sb := seq(|b|, i requires 0 <= i < |b| => ShareOf(m, Build(b[i], log)));
    var ab := a + b;
    assert seq(|ab|, i requires 0 <= i < |ab| => ShareOf(m, Build(ab[i], log))) == sa + sb;
    TotalConcat(sa, sb);
  }

  lemma PlanWindowTime(key: LifeKey, account: Id, started: int, snapshot: Snapshot, window: Window,
                       previous: WindowRead, next: WindowRead, log: seq<Response>)
    ensures Recompute(Elapsed(key), PlanWindow(account, started, snapshot, window, previous, next), log) ==
            if Comparable(previous, next, snapshot.at) && key == LifeKey(account, window)
            then snapshot.at - started else 0
  {
    var plan := PlanWindow(account, started, snapshot, window, previous, next);
    if plan != [] {
      RecomputeSplit(Elapsed(key), plan, 0, log);
      assert plan[..0] + plan[0 + 1..] == [];
    }
  }

  lemma PlanTime(key: LifeKey, base: Baseline, account: Id, snapshot: Snapshot, log: seq<Response>)
    ensures Recompute(Elapsed(key), Plan(base, account, snapshot), log) <=
            if Attributable(base, snapshot.at) && key.account == account then snapshot.at - base.readAt.value else 0
  {
    if Attributable(base, snapshot.at) {
      var at := base.readAt.value;
      var s, w := PlanWindow(account, at, snapshot, Short, base.short, snapshot.short),
                  PlanWindow(account, at, snapshot, Weekly, base.weekly, snapshot.weekly);
      RecomputeConcat(Elapsed(key), s, w, log);
      PlanWindowTime(key, account, at, snapshot, Short, base.short, snapshot.short, log);
      PlanWindowTime(key, account, at, snapshot, Weekly, base.weekly, snapshot.weekly, log);
    }
  }

  predicate EndedBy(plan: seq<Skeleton>, baselines: map<Id, Baseline>) {
    forall i | 0 <= i < |plan| ::
      var readAt := ReadAt(baselines, plan[i].account); readAt.Some? && plan[i].ended <= readAt.value
  }

  /** Intervals of one account and window, in order, have nothing in common but end points. */
  predicate Apart(plan: seq<Skeleton>) {
    forall i, j | 0 <= i < j < |plan| && plan[i].account == plan[j].account && plan[i].window == plan[j].window ::
      plan[i].ended <= plan[j].started
  }

  /** What one poll opens starts where the account was last read and ends where it is read now. */
  lemma PlanStepApart(before: map<Id, Baseline>, step: Step)
    ensures var plan := PlanStep(before, step);
            && Apart(plan) && EndedBy(plan, NextBaselines(before, step))
            && forall i | 0 <= i < |plan| :: ReadAt(before, plan[i].account) == Some(plan[i].started)
  {
  }

  lemma EndedLater(plan: seq<Skeleton>, before: map<Id, Baseline>, step: Step)
    requires EndedBy(plan, before)
    ensures EndedBy(plan, NextBaselines(before, step))
  {
    forall i | 0 <= i < |plan|
      ensures var readAt := ReadAt(NextBaselines(before, step), plan[i].account);
              readAt.Some? && plan[i].ended <= readAt.value
    {
      assert ReadAt(before, plan[i].account).Some?;
    }
  }

  /** An account's intervals of one window never overlap, whatever the polls and the responses between them. */
  lemma {:induction false} IntervalsApart(accounts: map<Id, Baseline>, steps: seq<Step>)
    ensures Apart(Planned(accounts, steps)) && EndedBy(Planned(accounts, steps), BaselinesAfter(accounts, steps))
  {
    if steps != [] {
      hide PlanStep, NextBaselines;
      var front, step := steps[..|steps| - 1], steps[|steps| - 1];
      IntervalsApart(accounts, front);
      var before := BaselinesAfter(accounts, front);
      PlanStepApart(before, step);
      EndedLater(Planned(accounts, front), before, step);
    }
  }

  /** So at every instant at most one of an orderly run's intervals of an account and window is open. */
  lemma MadeApart(accounts: map<Id, Baseline>, steps: seq<Step>, x: Interval, y: Interval)
    requires Orderly(accounts, steps) && x in Made(Exec(accounts, steps)) && y in Made(Exec(accounts, steps))
    requires x.account == y.account && x.window == y.window
    ensures x == y || x.ended <= y.started || y.ended <= x.started
  {
    hide Orderly, Exec, Planned, BaselinesAfter, EndedBy, Build, Made;
    var w, plan := Exec(accounts, steps), Planned(accounts, steps);
    RunContent(accounts, steps);
    IntervalsApart(accounts, steps);
    var i := MadeAt(w, plan, x);
    var j := MadeAt(w, plan, y);
    assert SkeletonOf(x) == plan[i] && SkeletonOf(y) == plan[j];
  }

  /** A made interval is one of the planned ones, built from the whole log. */
  lemma MadeAt(w: World, plan: seq<Skeleton>, x: Interval) returns (i: nat)
    requires EachBuilt(Made(w), w.log) && multiset(Skeletons(Made(w))) == multiset(plan) && x in Made(w)
    ensures i < |plan| && x == Build(plan[i], w.log) && plan[i] == SkeletonOf(x)
  {
    var k :| 0 <= k < |Made(w)| && Made(w)[k] == x;
    assert Built(Made(w)[k], w.log);
    assert Skeletons(Made(w))[k] in multiset(plan);
    i :| 0 <= i < |plan| && plan[i] == SkeletonOf(x);
  }

  /** Their total length fits between the account's first and last read. */
  lemma {:induction false} PlannedTime(accounts: map<Id, Baseline>, steps: seq<Step>, key: LifeKey, log: seq<Response>)
    ensures var last, first :=
              ReadAt(BaselinesAfter(accounts, steps), key.account), FirstRead(accounts, steps, key.account);
            && (last.Some? <==> first.Some?)
            && Recompute(Elapsed(key), Planned(accounts, steps), log) <=
                 if last.Some? then last.value - first.value else 0
  {
    if steps != [] {
      var front, step := steps[..|steps| - 1], steps[|steps| - 1];
      PlannedTime(accounts, front, key, log);
      var before := BaselinesAfter(accounts, front);
      RecomputeConcat(Elapsed(key), Planned(accounts, front), PlanStep(before, step), log);
      if step.Poll? && T.Accepted(before, step.account, step.snapshot) {
        PlanTime(key, before[step.account], step.account, step.snapshot, log);
      }
    }
  }

  lemma ActiveWithin(m: Meter, x: Interval, log: seq<Response>)
    requires Built(x, log) && m.Life? && m.column.Active?
    ensures x.started <= x.ended ==> ShareOf(m, x) <= ShareOf(Elapsed(m.life), x)
  {
    if x.started <= x.ended {
      InstantsWithin(Clips(log, x.account, x.started, x.ended), x.started, x.ended);
    }
  }

  lemma {:induction false} PlannedForward(accounts: map<Id, Baseline>, steps: seq<Step>)
    ensures forall i | 0 <= i < |Planned(accounts, steps)| ::
              Planned(accounts, steps)[i].started < Planned(accounts, steps)[i].ended
  {
    if steps != [] { PlannedForward(accounts, steps[..|steps| - 1]); }
  }

  lemma ActiveAtMostTime(plan: seq<Skeleton>, key: LifeKey, log: seq<Response>)
    requires forall i | 0 <= i < |plan| :: plan[i].started < plan[i].ended
    ensures Recompute(Life(key, Active), plan, log) <= Recompute(Elapsed(key), plan, log)
  {
    var active := seq(|plan|, i requires 0 <= i < |plan| => ShareOf(Life(key, Active), Build(plan[i], log)));
    var time := seq(|plan|, i requires 0 <= i < |plan| => ShareOf(Elapsed(key), Build(plan[i], log)));
    forall i | 0 <= i < |plan| ensures active[i] <= time[i] {
      ActiveWithin(Life(key, Active), Build(plan[i], log), log);
    }
    TotalAtMost(active, time);
  }

  /** The active time attributed to an account never exceeds the time between its first and last read. */
  lemma ActiveBounded(accounts: map<Id, Baseline>, steps: seq<Step>, key: LifeKey)
    requires Orderly(accounts, steps)
    ensures var w := Exec(accounts, steps);
            var last, first := ReadAt(w.tables.baselines, key.account), FirstRead(accounts, steps, key.account);
            && (last.Some? <==> first.Some?)
            && At(w.tables.ledger.lifetime, key).active <= if last.Some? then last.value - first.value else 0
  {
    var w, plan := Exec(accounts, steps), Planned(accounts, steps);
    PlannedTime(accounts, steps, key, w.log);
    PlannedForward(accounts, steps);
    ActiveAtMostTime(plan, key, w.log);
    RunContent(accounts, steps);
    LedgerFromScratch(accounts, steps);
    assert Part(At(w.tables.ledger.lifetime, key), Active) == Recompute(Life(key, Active), plan, w.log);
  }
}
