/** Rolling and lifetime usage totals (internal/proxytelemetry/telemetry.go) equal plain sums over response rows. */
module TelemetryTotals {
  import opened Base
  import opened Sums
  import opened Quota
  import opened TelemetryRuns
  import T = Telemetry

  datatype Counter = Responses | ActiveMs | Input | Cached | Output | Reasoning | AllTokens

  function Value(c: T.Counters, k: Counter): int {
    match k
    case Responses => c.responses
    case ActiveMs => c.active
    case Input => c.input
    case Cached => c.cached
    case Output => c.output
    case Reasoning => c.reasoning
    case AllTokens => c.total
  }

  function Amount(r: Response, model: Model, k: Counter): int {
    if r.model == model then Value(T.Amounts(r), k) else 0
  }

  ghost function Amounts(rows: seq<Response>, model: Model, k: Counter): (s: seq<int>)
    ensures |s| == |rows| && forall i | 0 <= i < |rows| :: s[i] == Amount(rows[i], model, k)
  {
    seq(|rows|, i requires 0 <= i < |rows| => Amount(rows[i], model, k))
  }

  /** One counter of one model, summed over the given rows. */
  ghost function Tally(rows: seq<Response>, model: Model, k: Counter): int { Total(Amounts(rows, model, k)) }

  lemma AmountsAppend(rows: seq<Response>, r: Response, model: Model, k: Counter)
    ensures Amounts(rows + [r], model, k) == Amounts(rows, model, k) + [Amount(r, model, k)]
  {
    assert |rows + [r]| == |rows| + 1;
  }

  lemma TallyAppend(rows: seq<Response>, r: Response, model: Model, k: Counter)
    ensures Tally(rows + [r], model, k) == Tally(rows, model, k) + Amount(r, model, k)
  {
    AmountsAppend(rows, r, model, k);
    TotalMiddle(Amounts(rows, model, k), Amount(r, model, k), []);
    assert Amounts(rows, model, k) + [] == Amounts(rows, model, k);
    assert Amounts(rows, model, k) + [Amount(r, model, k)] + [] == Amounts(rows + [r], model, k);
  }

  lemma AmountsRemove(rows: seq<Response>, i: nat, model: Model, k: Counter)
    requires i < |rows|
    ensures Amounts(rows[..i] + rows[i + 1..], model, k) ==
              Amounts(rows, model, k)[..i] + Amounts(rows, model, k)[i + 1..]
  {
    assert |rows[..i] + rows[i + 1..]| == |rows| - 1;
  }

  lemma TallyRemove(rows: seq<Response>, i: nat, model: Model, k: Counter)
    requires i < |rows|
    ensures Tally(rows[..i] + rows[i + 1..], model, k) == Tally(rows, model, k) - Amount(rows[i], model, k)
  {
    AmountsRemove(rows, i, model, k);
    TotalSplit(Amounts(rows, model, k), i);
  }

  ghost predicate Equal(totals: map<T.TotalKey, T.Counters>, period: T.Period, rows: seq<Response>, model: Model,
                        k: Counter)
  {
    Value(T.TotalAt(totals, T.TotalKey(period, model)), k) == Tally(rows, model, k)
  }

  /** Rolling totals count the retained rows, lifetime totals every response ever recorded. */
  ghost predicate Balanced(totals: map<T.TotalKey, T.Counters>, rows: seq<Response>, log: seq<Response>) {
    forall model, k :: Equal(totals, T.Rolling, rows, model, k) && Equal(totals, T.Lifetime, log, model, k)
  }

  lemma RecordBalanced(totals: map<T.TotalKey, T.Counters>, rows: seq<Response>, log: seq<Response>, r: Response)
    requires Balanced(totals, rows, log)
    ensures Balanced(T.AddResponse(T.AddResponse(totals, T.Rolling, r), T.Lifetime, r), rows + [r], log + [r])
  {
    var after := T.AddResponse(T.AddResponse(totals, T.Rolling, r), T.Lifetime, r);
    forall model, k
      ensures Equal(after, T.Rolling, rows + [r], model, k) && Equal(after, T.Lifetime, log + [r], model, k)
    {
      assert Equal(totals, T.Rolling, rows, model, k) && Equal(totals, T.Lifetime, log, model, k);
      TallyAppend(rows, r, model, k);
      TallyAppend(log, r, model, k);
    }
  }

  /** A stored row is counted, so the totals row it must be taken out of exists. */
  lemma TotalPresent(totals: map<T.TotalKey, T.Counters>, rows: seq<Response>, i: nat)
    requires i < |rows| && Equal(totals, T.Rolling, rows, rows[i].model, Responses)
    ensures T.TotalKey(T.Rolling, rows[i].model) in totals
  {
    TotalAtLeast(Amounts(rows, rows[i].model, Responses), i);
  }

  lemma RemoveBalanced(totals: map<T.TotalKey, T.Counters>, rows: seq<Response>, log: seq<Response>, i: nat)
    requires i < |rows| && Balanced(totals, rows, log)
    ensures Balanced(T.SubtractResponse(totals, rows[i]), rows[..i] + rows[i + 1..], log)
  {
    var after, rest := T.SubtractResponse(totals, rows[i]), rows[..i] + rows[i + 1..];
    assert Equal(totals, T.Rolling, rows, rows[i].model, Responses);
    TotalPresent(totals, rows, i);
    forall model, k ensures Equal(after, T.Rolling, rest, model, k) && Equal(after, T.Lifetime, log, model, k) {
      assert Equal(totals, T.Rolling, rows, model, k) && Equal(totals, T.Lifetime, log, model, k);
      TallyRemove(rows, i, model, k);
    }
  }

  lemma {:induction false} PruneBalanced(t: T.Tables, log: seq<Response>, cutoff: int, limit: nat)
    requires Balanced(t.totals, t.rows, log)
    ensures var t' := T.PruneRows(t, cutoff, limit); Balanced(t'.totals, t'.rows, log)
    decreases limit
  {
    hide Balanced;
    var i := T.Oldest(t.rows, cutoff, |t.rows|);
    if limit > 0 && i.Some? {
      var t1 := t.(rows := t.rows[..i.value] + t.rows[i.value + 1..],
                   totals := T.SubtractResponse(t.totals, t.rows[i.value]));
      RemoveBalanced(t.totals, t.rows, log, i.value);
      PruneBalanced(t1, log, cutoff, limit - 1);
    }
  }

  /** In every run the rolling totals are the sums over the retained rows and the lifetime totals the sums
      over every response recorded, for every model and counter. */
  lemma {:induction false} TotalsExact(accounts: map<Id, Baseline>, steps: seq<Step>)
    ensures var w := Exec(accounts, steps); Balanced(w.tables.totals, w.tables.rows, w.log)
  {
    if steps == [] {
      forall model, k ensures Tally([], model, k) == 0 { assert Amounts([], model, k) == []; }
    } else {
      hide Balanced, RecordActivity;
      var w, step := Exec(accounts, steps[..|steps| - 1]), steps[|steps| - 1];
      TotalsExact(accounts, steps[..|steps| - 1]);
      match step
      case Record(r) => RecordBalanced(w.tables.totals, w.tables.rows, w.log, r);
      case Poll(_, _, _) =>
      case Prune(cutoff, limit) => PruneBalanced(w.tables, w.log, cutoff, limit);
    }
  }
}
