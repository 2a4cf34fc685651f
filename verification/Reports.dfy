/** Daily usage reports and the order the sync protocol rests on (internal/usagereport/report.go). */
module Reports {
  import opened Base

  type Day = int

  const DAY_2000: Day := 10957  // 1 January 2000, in days since 1 January 1970
  const MAX_ROW_BYTES := 1048576
  const MAX_TOKENS := 1_000_000_000_000_000
  const MAX_COST := 1000000000000.0

  datatype Tokens = Tokens(input: int, output: int, cacheWrite: int, cacheRead: int)

  datatype Model = Model(name: string, tokens: Tokens, cost: Option<real>)

  datatype Agent = Agent(name: string, tokens: Tokens, models: seq<Model>)

  datatype Row = Row(period: Day, agent: string, tokens: Tokens, total: int, cost: real, agents: seq<Agent>,
                     models: seq<Model>)

  /** A canonical document: its parsed row, whatever else it carries, its length in bytes, and whether it
      was JSON with every required field and a date. */
  datatype Report = Report(row: Row, rest: nat, size: nat, complete: bool)

  predicate ValidTokens(t: Tokens) {
    && 0 <= t.input <= MAX_TOKENS && 0 <= t.output <= MAX_TOKENS
    && 0 <= t.cacheRead <= MAX_TOKENS && 0 <= t.cacheWrite <= MAX_TOKENS
  }

  predicate ValidModel(m: Model) {
    ValidTokens(m.tokens) && (m.cost.Some? ==> 0.0 <= m.cost.value <= MAX_COST)
  }

  predicate ValidModels(models: seq<Model>) {
    forall i | 0 <= i < |models| :: ValidModel(models[i])
  }

  predicate ValidAgent(a: Agent) {
    0 < |a.name| <= 100 && ValidTokens(a.tokens) && ValidModels(a.models)
  }

  predicate DistinctAgents(agents: seq<Agent>) {
    forall i, j | 0 <= i < j < |agents| :: agents[i].name != agents[j].name
  }

  predicate ValidAgents(agents: seq<Agent>) {
    (forall i | 0 <= i < |agents| :: ValidAgent(agents[i])) && DistinctAgents(agents)
  }

  predicate ValidHead(r: Report) {
    && r.complete && r.row.period >= DAY_2000 && r.row.agent == "all" && r.size <= MAX_ROW_BYTES
    && ValidTokens(r.row.tokens) && 0 <= r.row.total <= MAX_TOKENS && 0.0 <= r.row.cost <= MAX_COST
  }

  /** What a document must satisfy to be accepted as a unified daily report. */
  predicate Valid(r: Report) {
    ValidHead(r) && ValidAgents(r.row.agents) && ValidModels(r.row.models)
  }

  method CheckModels(models: seq<Model>) returns (ok: bool)
    ensures ok == ValidModels(models)
  {
    for i := 0 to |models|
      invariant ValidModels(models[..i])
    {
      if !ValidModel(models[i]) {
        return false;
      }
      assert forall k | 0 <= k < i :: models[..i][k] == models[k] && ValidModel(models[k]);
    }
    assert models[..|models|] == models;
    return true;
  }

  method Canonical(r: Report) returns (ok: bool)
    ensures ok == Valid(r)
  {
    if !ValidHead(r) {
      return false;
    }
    var agents, names := r.row.agents, {};
    for i := 0 to |agents|
      invariant forall k | 0 <= k < i :: ValidAgent(agents[k]) && agents[k].name in names
      invariant forall name | name in names :: exists k | 0 <= k < i :: agents[k].name == name
      invariant DistinctAgents(agents[..i])
    {
      if agents[i].name == "" || |agents[i].name| > 100 || agents[i].name in names {
        assert !ValidAgents(agents);
        return false;
      }
      names := names + {agents[i].name};
      var modelsOk := CheckModels(agents[i].models);
      if !ValidTokens(agents[i].tokens) || !modelsOk {
        assert !ValidAgent(agents[i]);
        return false;
      }
    }
    assert agents[..|agents|] == agents;
    ok := CheckModels(r.row.models);
  }

  // The decrease order.

  /** Some counter of b is below that of a. */
  predicate Lower(a: Tokens, b: Tokens) {
    b.input < a.input || b.output < a.output || b.cacheRead < a.cacheRead || b.cacheWrite < a.cacheWrite
  }

  function NoTokens(): Tokens { Tokens(0, 0, 0, 0) }

  function ModelKey(agent: string, model: string): string { agent + ['\0'] + model }

  function IndexModels(index: map<string, Tokens>, agent: string, models: seq<Model>): map<string, Tokens> {
    if models == [] then index
    else
      var last := models[|models| - 1];
      IndexModels(index, agent, models[..|models| - 1])[ModelKey(agent, last.name) := last.tokens]
  }

  /** Tokens by agent and by agent and model, later entries replacing earlier ones. */
  function Index(agents: seq<Agent>): map<string, Tokens> {
    if agents == [] then map[]
    else
      var last := agents[|agents| - 1];
      IndexModels(Index(agents[..|agents| - 1])[last.name := last.tokens], last.name, last.models)
  }

  function At(index: map<string, Tokens>, key: string): Tokens { if key in index then index[key] else NoTokens() }

  predicate Decreases(earlier: Row, next: Row) {
    || Lower(earlier.tokens, next.tokens) || next.total < earlier.total
    || exists key | key in Index(earlier.agents) :: Lower(Index(earlier.agents)[key], At(Index(next.agents), key))
  }

  method FindDecrease(earlier: Row, next: Row) returns (found: bool)
    ensures found == Decreases(earlier, next)
  {
    if Lower(earlier.tokens, next.tokens) || next.total < earlier.total {
      return true;
    }
    var older, newer := Index(earlier.agents), Index(next.agents);
    var keys := older.Keys;
    while keys != {}
      invariant keys <= older.Keys
      invariant forall key | key in older.Keys - keys :: !Lower(older[key], At(newer, key))
      decreases |keys|
    {
      var key :| key in keys;
      if Lower(older[key], At(newer, key)) {
        return true;
      }
      keys := keys - {key};
    }
    return false;
  }

  // What the index holds.

  predicate NulFree(s: string) { '\0' !in s }

  lemma {:induction false} IndexModelsFrame(index: map<string, Tokens>, agent: string, models: seq<Model>, key: string)
    requires forall j | 0 <= j < |models| :: key != ModelKey(agent, models[j].name)
    ensures key in IndexModels(index, agent, models) <==> key in index
    ensures At(IndexModels(index, agent, models), key) == At(index, key)
  {
    if models != [] { IndexModelsFrame(index, agent, models[..|models| - 1], key); }
  }

  lemma {:induction false} IndexModelsLast(index: map<string, Tokens>, agent: string, models: seq<Model>, j: nat)
    requires j < |models| && forall k | j < k < |models| :: models[k].name != models[j].name
    ensures var key := ModelKey(agent, models[j].name);
            key in IndexModels(index, agent, models) && IndexModels(index, agent, models)[key] == models[j].tokens
  {
    if j < |models| - 1 {
      IndexModelsLast(index, agent, models[..|models| - 1], j);
      KeyInjective(agent, models[j].name, agent, models[|models| - 1].name);
    }
  }

  lemma KeyInjective(a: string, m: string, b: string, n: string)
    requires a == b || (NulFree(a) && NulFree(b))
    ensures ModelKey(a, m) == ModelKey(b, n) <==> a == b && m == n
  {
    var x, y := ModelKey(a, m), ModelKey(b, n);
    if x == y {
      FirstNul(a, m);
      FirstNul(b, n);
      assert a == x[..|a|] && b == y[..|b|];
      assert m == x[|a| + 1..] && n == y[|b| + 1..];
    }
  }

  lemma FirstNul(a: string, m: string)
    ensures ModelKey(a, m)[|a|] == '\0'
    ensures NulFree(a) ==> forall k | 0 <= k < |a| :: ModelKey(a, m)[k] != '\0'
  {
  }

  lemma PlainKey(name: string, agent: string, model: string)
    requires NulFree(name)
    ensures name != ModelKey(agent, model)
  {
    assert ModelKey(agent, model)[|agent|] == '\0';
  }

  /** For agent names without a NUL, every agent is found under its name. */
  lemma {:induction false} IndexAgent(agents: seq<Agent>, i: nat)
    requires i < |agents| && DistinctAgents(agents) && forall k | 0 <= k < |agents| :: NulFree(agents[k].name)
    ensures agents[i].name in Index(agents) && Index(agents)[agents[i].name] == agents[i].tokens
  {
    var front, last := agents[..|agents| - 1], agents[|agents| - 1];
    forall j | 0 <= j < |last.models| ensures agents[i].name != ModelKey(last.name, last.models[j].name) {
      PlainKey(agents[i].name, last.name, last.models[j].name);
    }
    IndexModelsFrame(Index(front)[last.name := last.tokens], last.name, last.models, agents[i].name);
    if i < |front| { IndexAgent(front, i); }
  }

  /** And under agent and model name, the last of that agent's models with the name. */
  lemma {:induction false} IndexModel(agents: seq<Agent>, i: nat, j: nat)
    requires i < |agents| && DistinctAgents(agents) && forall k | 0 <= k < |agents| :: NulFree(agents[k].name)
    requires j < |agents[i].models|
    requires forall k | j < k < |agents[i].models| :: agents[i].models[k].name != agents[i].models[j].name
    ensures var key := ModelKey(agents[i].name, agents[i].models[j].name);
            key in Index(agents) && Index(agents)[key] == agents[i].models[j].tokens
  {
    var front, last, key := agents[..|agents| - 1], agents[|agents| - 1],
      ModelKey(agents[i].name, agents[i].models[j].name);
    var index := Index(front)[last.name := last.tokens];
    if i == |front| {
      IndexModelsLast(index, last.name, last.models, j);
    } else {
      forall k | 0 <= k < |last.models| ensures key != ModelKey(last.name, last.models[k].name) {
        KeyInjective(agents[i].name, agents[i].models[j].name, last.name, last.models[k].name);
      }
      IndexModelsFrame(index, last.name, last.models, key);
      PlainKey(last.name, agents[i].name, agents[i].models[j].name);
      IndexModel(front, i, j);
    }
  }

  // The order itself.

  predicate Counted(index: map<string, Tokens>) { forall key | key in index :: ValidTokens(index[key]) }

  lemma {:induction false} ModelsCounted(index: map<string, Tokens>, agent: string, models: seq<Model>)
    requires Counted(index) && ValidModels(models)
    ensures Counted(IndexModels(index, agent, models))
  {
    if models != [] { ModelsCounted(index, agent, models[..|models| - 1]); }
  }

  lemma {:induction false} IndexCounted(agents: seq<Agent>)
    requires ValidAgents(agents)
    ensures Counted(Index(agents))
  {
    if agents != [] {
      var front, last := agents[..|agents| - 1], agents[|agents| - 1];
      assert ValidAgent(last);
      assert ValidAgents(front);
      IndexCounted(front);
      ModelsCounted(Index(front)[last.name := last.tokens], last.name, last.models);
    }
  }

  /** A counter kept under the key is lower in b, an absent one counting as zero. */
  predicate Falls(a: Row, b: Row, key: string) { Lower(At(Index(a.agents), key), At(Index(b.agents), key)) }

  /** For valid reports, decreasing means exactly that some counter falls, an absent agent or model counting as zero. */
  lemma DecreasesPointwise(a: Report, b: Report)
    requires Valid(a) && Valid(b)
    ensures Decreases(a.row, b.row) <==>
            Lower(a.row.tokens, b.row.tokens) || b.row.total < a.row.total || exists key :: Falls(a.row, b.row, key)
  {
    IndexCounted(a.row.agents);
    IndexCounted(b.row.agents);
    var ia, ib := Index(a.row.agents), Index(b.row.agents);
    forall key ensures key in ia && Lower(ia[key], At(ib, key)) <==> Falls(a.row, b.row, key) {
      if key in ib { assert ValidTokens(ib[key]); }
    }
    if key :| key in ia && Lower(ia[key], At(ib, key)) {
      assert Falls(a.row, b.row, key);
    }
    if key :| Falls(a.row, b.row, key) {
      assert key in ia && Lower(ia[key], At(ib, key));
    }
  }

  lemma DecreasesReflexive(a: Report)
    ensures !Decreases(a.row, a.row)
  {
    assert forall key | key in Index(a.row.agents) :: !Lower(Index(a.row.agents)[key], At(Index(a.row.agents), key));
  }

  lemma DecreasesTransitive(a: Report, b: Report, c: Report)
    requires Valid(a) && Valid(b) && Valid(c)
    requires !Decreases(a.row, b.row) && !Decreases(b.row, c.row)
    ensures !Decreases(a.row, c.row)
  {
    DecreasesPointwise(a, b);
    DecreasesPointwise(b, c);
    DecreasesPointwise(a, c);
    forall key ensures !Falls(a.row, c.row, key) {
      assert !Falls(a.row, b.row, key) && !Falls(b.row, c.row, key);
    }
  }

  /** The reports of one collection: all valid, no day twice. */
  predicate ValidDaily(reports: seq<Report>) {
    && (forall i | 0 <= i < |reports| :: Valid(reports[i]))
    && (forall i, j | 0 <= i < j < |reports| :: reports[i].row.period != reports[j].row.period)
  }

  method Daily(documents: Option<seq<Report>>) returns (result: Option<seq<Report>>)
    ensures result == if documents.Some? && ValidDaily(documents.value) then documents else None
  {
    if documents.None? {
      return None;
    }
    var reports, seen := documents.value, {};
    var kept: seq<Report> := [];
    for i := 0 to |reports|
      invariant kept == reports[..i]
      invariant forall k | 0 <= k < i :: Valid(reports[k]) && reports[k].row.period in seen
      invariant forall day | day in seen :: exists k | 0 <= k < i :: reports[k].row.period == day
      invariant forall j, k | 0 <= j < k < i :: reports[j].row.period != reports[k].row.period
    {
      var ok := Canonical(reports[i]);
      if !ok || reports[i].row.period in seen {
        return None;
      }
      seen := seen + {reports[i].row.period};
      kept := kept + [reports[i]];
    }
    assert reports[..|reports|] == reports;
    return Some(kept);
  }
}
