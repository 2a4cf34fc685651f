/** The incremental quota ledgers equal recomputation from the intervals, and an interval's content
    depends only on which responses were recorded. */
module QuotaLaws {
  import opened Base
  import opened Spans
  import opened Sums
  import opened Quota

  // What each interval contributes to the ledgers, counted in one of their three columns.

  datatype Column = Samples | Used | Active

  /** A ledger column, or the wall-clock time covered by an account's intervals of one window. */
  datatype Meter =
    | Life(life: LifeKey, column: Column)
    | PerModel(key: ModelKey, column: Column)
    | Elapsed(life: LifeKey)

  function Part(share: Share, column: Column): int {
    match column
    case Samples => share.samples
    case Used => share.used
    case Active => share.active
  }

  predicate Counts(m: Meter, x: Interval) {
    x.active > 0 &&
    match m
    case Life(k, _) => x.account == k.account && x.window == k.window
    case PerModel(k, _) => x.account == k.account && x.window == k.window && x.model == Some(k.model)
    case Elapsed(_) => false
  }

  function ShareOf(m: Meter, x: Interval): int {
    if m.Elapsed? then
      if x.account == m.life.account && x.window == m.life.window then x.ended - x.started else 0
    else if Counts(m, x) then Part(Share(1, x.used, x.active), m.column)
    else 0
  }

  ghost function Shares(m: Meter, xs: seq<Interval>): (r: seq<int>)
    ensures |r| == |xs| && forall i | 0 <= i < |xs| :: r[i] == ShareOf(m, xs[i])
  {
    seq(|xs|, i requires 0 <= i < |xs| => ShareOf(m, xs[i]))
  }

  lemma SharesUpdate(m: Meter, xs: seq<Interval>, i: nat, x: Interval)
    requires i < |xs|
    ensures Shares(m, xs[i := x]) == Shares(m, xs)[i := ShareOf(m, x)]
  {
    assert |xs[i := x]| == |xs|;
  }

  lemma SharesConcat(m: Meter, a: seq<Interval>, b: seq<Interval>)
    ensures Shares(m, a + b) == Shares(m, a) + Shares(m, b)
  {
    assert |a + b| == |a| + |b|;
  }

  /** What a ledger column should be: the sum over all given intervals. */
  ghost function Sum(m: Meter, xs: seq<Interval>): int { Total(Shares(m, xs)) }

  lemma SumUpdate(xs: seq<Interval>, i: nat, x: Interval, m: Meter)
    requires i < |xs|
    ensures Sum(m, xs[i := x]) == Sum(m, xs) - ShareOf(m, xs[i]) + ShareOf(m, x)
  {
    SharesUpdate(m, xs, i, x);
    TotalUpdate(Shares(m, xs), i, ShareOf(m, x));
  }

  lemma SumConcat(a: seq<Interval>, b: seq<Interval>, m: Meter)
    ensures Sum(m, a + b) == Sum(m, a) + Sum(m, b)
  {
    SharesConcat(m, a, b);
    TotalConcat(Shares(m, a), Shares(m, b));
  }

  lemma SumSingle(x: Interval, m: Meter)
    ensures Sum(m, [x]) == ShareOf(m, x)
  {
    var shares := Shares(m, [x]);
    assert shares[..|shares| - 1] == [] && shares[0] == ShareOf(m, [x][0]);
    assert Total(shares) == Total(shares[..|shares| - 1]) + shares[|shares| - 1];
  }

  lemma {:induction false} SumRetained(xs: seq<Interval>, cutoff: int, m: Meter)
    ensures Sum(m, xs) == Sum(m, Retained(xs, cutoff)) + Sum(m, Expired(xs, cutoff))
  {
    if xs != [] {
      var front, last := xs[..|xs| - 1], xs[|xs| - 1];
      assert xs == front + [last];
      SumRetained(front, cutoff, m);
      SumConcat(front, [last], m);
      SumConcat(Retained(front, cutoff), [last], m);
      SumConcat(Expired(front, cutoff), [last], m);
    }
  }

  ghost predicate LifeExact(l: Ledger, made: seq<Interval>, key: LifeKey, c: Column) {
    Part(At(l.lifetime, key), c) == Sum(Life(key, c), made)
  }

  ghost predicate ModelExact(l: Ledger, made: seq<Interval>, key: ModelKey, c: Column) {
    Part(At(l.models, key), c) == Sum(PerModel(key, c), made)
  }

  /** Both lifetime ledgers equal recomputation over the given intervals. */
  ghost predicate Exact(l: Ledger, made: seq<Interval>) {
    && (forall key, c :: LifeExact(l, made, key, c))
    && (forall key: ModelKey, c | key.model.Named? :: ModelExact(l, made, key, c))
  }

  lemma SaveLifetime(l: Ledger, made: seq<Interval>, i: nat, spans: seq<Span>, model: Option<Model>, key: LifeKey,
                     c: Column)
    requires i < |l.intervals| <= |made| && made[i] == l.intervals[i]
    requires 0 <= l.intervals[i].active <= Length(spans)
    requires LifeExact(l, made, key, c)
    ensures var l' := SaveActivity(l, i, spans, model); LifeExact(l', made[i := l'.intervals[i]], key, c)
  {
    SumUpdate(made, i, SaveActivity(l, i, spans, model).intervals[i], Life(key, c));
  }

  lemma AddAt(models: map<ModelKey, Share>, it: Interval, it': Interval, key: ModelKey, c: Column)
    requires key.model.Named? && it'.active >= 0
    requires it'.account == it.account && it'.window == it.window && it'.used == it.used
    ensures Part(At(AdjustModel(models, it, it'.model, it'.active, true), key), c) ==
            Part(At(models, key), c) + ShareOf(PerModel(key, c), it')
  {
  }

  lemma RemoveFrom(models: map<ModelKey, Share>, it: Interval, key: ModelKey, c: Column)
    requires key.model.Named? && it.active >= 0
    requires Counts(PerModel(key, c), it) ==> key in models
    ensures Part(At(AdjustModel(models, it, it.model, it.active, false), key), c) ==
            Part(At(models, key), c) - ShareOf(PerModel(key, c), it)
  {
  }

  /** An interval counted for a model has its ledger row: the reversal never misses it. */
  lemma RowPresent(l: Ledger, made: seq<Interval>, i: nat, key: ModelKey, c: Column)
    requires i < |made| && Counts(PerModel(key, c), made[i])
    requires ModelExact(l, made, key, Samples)
    ensures key in l.models
  {
    TotalAtLeast(Shares(PerModel(key, Samples), made), i);
    assert Counts(PerModel(key, Samples), made[i]);
  }

  lemma SaveModels(l: Ledger, made: seq<Interval>, i: nat, spans: seq<Span>, model: Option<Model>, key: ModelKey,
                   c: Column)
    requires i < |l.intervals| <= |made| && made[i] == l.intervals[i] && key.model.Named?
    requires 0 <= l.intervals[i].active <= Length(spans)
    requires ModelExact(l, made, key, Samples) && ModelExact(l, made, key, c)
    ensures var l' := SaveActivity(l, i, spans, model); ModelExact(l', made[i := l'.intervals[i]], key, c)
  {
    var it, it' := l.intervals[i], SaveActivity(l, i, spans, model).intervals[i];
    SumUpdate(made, i, it', PerModel(key, c));
    if Counts(PerModel(key, c), it) { RowPresent(l, made, i, key, c); }
    RemoveFrom(l.models, it, key, c);
    AddAt(AdjustModel(l.models, it, it.model, it.active, false), it, it', key, c);
  }

  /** Saving activity keeps both ledgers exact: a correction is reversed before it is reapplied. */
  lemma SaveExact(l: Ledger, archive: seq<Interval>, i: nat, spans: seq<Span>, model: Option<Model>)
    requires i < |l.intervals| && Exact(l, l.intervals + archive)
    requires 0 <= l.intervals[i].active <= Length(spans)
    ensures var l' := SaveActivity(l, i, spans, model); Exact(l', l'.intervals + archive)
  {
    var l', made := SaveActivity(l, i, spans, model), l.intervals + archive;
    assert l'.intervals + archive == made[i := l'.intervals[i]];
    forall key, c ensures LifeExact(l', l'.intervals + archive, key, c) {
      SaveLifetime(l, made, i, spans, model, key, c);
    }
    forall key: ModelKey, c | key.model.Named? ensures ModelExact(l', l'.intervals + archive, key, c) {
      assert ModelExact(l, made, key, Samples);
      SaveModels(l, made, i, spans, model, key, c);
    }
  }

  // What each interval holds.

  /** The interval records exactly the activity of the given responses inside it. */
  ghost predicate Holds(x: Interval, rows: seq<Response>) {
    && x.spans == Merge(Clips(rows, x.account, x.started, x.ended))
    && x.active == Length(x.spans)
    && x.model == ModelOf(rows, x.account, x.started, x.ended)
  }

  lemma {:induction false} InClips(rows: seq<Response>, account: Id, a: int, b: int, t: int)
    ensures t in Instants(Clips(rows, account, a, b)) <==>
            exists r :: r in rows && Touches(r, account, a, b) && t in Range(Clip(r, a, b))
  {
    if rows != [] {
      var front, last := rows[..|rows| - 1], rows[|rows| - 1];
      InClips(front, account, a, b, t);
      assert rows == front + [last];
      InstantsConcat(Clips(front, account, a, b), [Clip(last, a, b)]);
    }
  }

  ghost predicate AllModel(rows: seq<Response>, account: Id, a: int, b: int, model: Model) {
    forall r | r in rows && Touches(r, account, a, b) :: r.model == model
  }

  ghost predicate Untouched(rows: seq<Response>, account: Id, a: int, b: int) {
    forall r | r in rows :: !Touches(r, account, a, b)
  }

  /** The model of an interval: none without activity, the one known model of all activity, else unknown. */
  lemma {:induction false} ModelSummary(rows: seq<Response>, account: Id, a: int, b: int)
    ensures var m := ModelOf(rows, account, a, b);
            && m != Some(Unknown)
            && (m == Some(Unnamed) <==> Untouched(rows, account, a, b))
            && (forall name :: m == Some(Named(name)) <==>
                 !Untouched(rows, account, a, b) && AllModel(rows, account, a, b, Named(name)))
  {
    if rows != [] {
      var front, last := rows[..|rows| - 1], rows[|rows| - 1];
      ModelSummary(front, account, a, b);
      assert rows == front + [last];
      assert last in rows;
      assert forall r :: r in front ==> r in rows;
    }
  }

  /** Content depends only on the set of responses touching the interval. */
  lemma HoldsSame(x: Interval, p: seq<Response>, q: seq<Response>)
    requires forall r | Touches(r, x.account, x.started, x.ended) :: r in p <==> r in q
    ensures Merge(Clips(p, x.account, x.started, x.ended)) == Merge(Clips(q, x.account, x.started, x.ended))
    ensures ModelOf(p, x.account, x.started, x.ended) == ModelOf(q, x.account, x.started, x.ended)
  {
    var cp, cq := Clips(p, x.account, x.started, x.ended), Clips(q, x.account, x.started, x.ended);
    forall t ensures t in Instants(cp) <==> t in Instants(cq) {
      InClips(p, x.account, x.started, x.ended, t);
      InClips(q, x.account, x.started, x.ended, t);
    }
    assert Instants(cp) == Instants(cq);
    MergeDependsOnInstants(cp, cq);
    ModelSummary(p, x.account, x.started, x.ended);
    ModelSummary(q, x.account, x.started, x.ended);
    var mp, mq := ModelOf(p, x.account, x.started, x.ended), ModelOf(q, x.account, x.started, x.ended);
    if mp.Some? && mp.value.Named? { assert mq == Some(Named(mp.value.name)); }
    if mq.Some? && mq.value.Named? { assert mp == Some(Named(mq.value.name)); }
  }

  /** Correcting an interval for one more response yields exactly what a full recomputation would. */
  lemma CorrectHolds(l: Ledger, i: nat, r: Response, log: seq<Response>)
    requires i < |l.intervals| && Holds(l.intervals[i], log)
    ensures var l' := Correct(l, i, r); |l'.intervals| == |l.intervals| && Holds(l'.intervals[i], log + [r])
  {
    var x := l.intervals[i];
    assert (log + [r])[..|log|] == log;
    if Touches(r, x.account, x.started, x.ended) {
      var clips, clip := Clips(log, x.account, x.started, x.ended), Clip(r, x.started, x.ended);
      MergeCanonical(clips);
      MergeAppend(clips, clip);
      MergeGrows(x.spans, clip);
    }
  }
}
