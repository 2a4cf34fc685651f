/** Deduplicated processing of relay event batches (internal/httpserver/relay.go), interrupted anywhere
    and resent any number of times. */
module RelayEvents {
  import opened Base
  import opened Quota
  import opened TelemetryRuns
  import opened TelemetryTotals
  import T = Telemetry

  /** A telemetry event carries an observed response; for the other kinds only the authority's verdict matters. */
  datatype Body = Observed(response: Response) | Reported(accepted: bool)

  datatype Event = Event(id: Id, valid: bool, body: Body)

  datatype Reply = Done | Invalid | Refused | Interrupted

  const BATCH_LIMIT := 100

  /** The store, and the ids of the events already processed. */
  datatype Intake = Intake(world: World, marks: set<Id>)

  /** An observation of an account the broker does not know is dropped without an error. */
  function Process(w: World, body: Body): World {
    if body.Observed? && body.response.account in w.tables.baselines then Next(w, Record(body.response)) else w
  }

  /** Process events in order; `budget` counts the writes that succeed before an interruption. */
  function Accept(s: Intake, events: seq<Event>, budget: nat): (Intake, Reply)
    decreases |events|
  {
    if events == [] then (s, Done)
    else
      var e := events[0];
      if !e.valid then (s, Invalid)
      else if e.id in s.marks then Accept(s, events[1..], budget)
      else if e.body == Reported(false) then (s, Refused)
      else if budget == 0 then (s, Interrupted)
      else
        var processed := Process(s.world, e.body);
        if budget == 1 then (s.(world := processed), Interrupted)
        else Accept(Intake(processed, s.marks + {e.id}), events[1..], budget - 2)
  }

  function Receive(s: Intake, events: seq<Event>, budget: nat): (Intake, Reply) {
    if |events| > BATCH_LIMIT then (s, Invalid) else Accept(s, events, budget)
  }

  class Inbox {
    const store: T.Store
    var marks: set<Id>
    ghost var world: World

    ghost predicate Valid()
      reads this, store
    {
      world.tables == store.View()
    }

    constructor (store: T.Store)
      requires store.View() == T.Tables([], map[], store.baselines, Ledger([], map[], map[]))
      ensures Valid() && this.store == store && marks == {} && world == Start(store.baselines)
    {
      this.store := store;
      marks := {};
      world := Start(store.baselines);
    }

    method RelayEvents(events: seq<Event>, budget: nat) returns (reply: Reply)
      requires Valid()
      modifies this, store
      ensures Valid()
      ensures (Intake(world, marks), reply) == Receive(old(Intake(world, marks)), events, budget)
    {
      if |events| > BATCH_LIMIT {
        return Invalid;
      }
      var left := budget;
      for i := 0 to |events|
        invariant Valid()
        invariant Accept(Intake(world, marks), events[i..], left) == Accept(old(Intake(world, marks)), events, budget)
      {
        var e := events[i];
        assert events[i..][1..] == events[i + 1..];
        if !e.valid {
          return Invalid;
        }
        if e.id in marks {
          continue;
        }
        if e.body == Reported(false) {
          return Refused;
        }
        if left == 0 {
          return Interrupted;
        }
        world := Process(world, e.body);
        if e.body.Observed? && e.body.response.account in store.baselines {
          var _ := store.RecordResponse(e.body.response);
        }
        if left == 1 {
          return Interrupted;
        }
        marks := marks + {e.id};
        left := left - 2;
      }
      return Done;
    }
  }

  // Resending a batch.

  lemma {:induction false} EnoughBudget(s: Intake, events: seq<Event>, budget: nat)
    requires budget >= 2 * |events|
    ensures Accept(s, events, budget) == Accept(s, events, 2 * |events|)
    decreases |events|
  {
    if events != [] && events[0].valid {
      var e := events[0];
      if e.id in s.marks {
        EnoughBudget(s, events[1..], budget);
        EnoughBudget(s, events[1..], 2 * |events|);
      } else {
        EnoughBudget(Intake(Process(s.world, e.body), s.marks + {e.id}), events[1..], budget - 2);
      }
    }
  }

  lemma {:induction false} MarksGrow(s: Intake, events: seq<Event>, budget: nat)
    ensures s.marks <= Accept(s, events, budget).0.marks
    decreases |events|
  {
    if events != [] && events[0].valid {
      var e := events[0];
      if e.id in s.marks {
        MarksGrow(s, events[1..], budget);
      } else if budget >= 2 {
        MarksGrow(Intake(Process(s.world, e.body), s.marks + {e.id}), events[1..], budget - 2);
      }
    }
  }

  lemma ProcessTwice(w: World, body: Body)
    ensures Process(Process(w, body), body) == Process(w, body)
  {
    if body.Observed? && body.response.account in w.tables.baselines {
      var w1 := Next(w, Record(body.response));
      if !T.Stored(w.tables.rows, body.response.id) {
        assert w1.tables.rows[|w.tables.rows|] == body.response;
      }
    }
  }

  /** Processing interrupted after any write and then resent ends exactly as if never interrupted. */
  lemma {:induction false} ResentOnce(s: Intake, events: seq<Event>, budget: nat)
    ensures Accept(Accept(s, events, budget).0, events, 2 * |events|) == Accept(s, events, 2 * |events|)
    decreases |events|
  {
    if events != [] && events[0].valid {
      var e, tail := events[0], events[1..];
      if e.id in s.marks {
        ResentOnce(s, tail, budget);
        MarksGrow(s, tail, budget);
        EnoughBudget(Accept(s, tail, budget).0, tail, 2 * |events|);
        EnoughBudget(s, tail, 2 * |events|);
      } else if e.body != Reported(false) && budget == 1 {
        ProcessTwice(s.world, e.body);
      } else if e.body != Reported(false) && budget >= 2 {
        var s2 := Intake(Process(s.world, e.body), s.marks + {e.id});
        ResentOnce(s2, tail, budget - 2);
        MarksGrow(s2, tail, budget - 2);
        EnoughBudget(Accept(s2, tail, budget - 2).0, tail, 2 * |events|);
      }
    }
  }

  function Deliveries(s: Intake, events: seq<Event>, budgets: seq<nat>): Intake
    decreases |budgets|
  {
    if budgets == [] then s else Deliveries(Accept(s, events, budgets[0]).0, events, budgets[1..])
  }

  /** Any number of interrupted deliveries followed by one complete delivery counts every event exactly
      as the complete delivery alone. */
  lemma {:induction false} ResentAnyTimes(s: Intake, events: seq<Event>, budgets: seq<nat>)
    requires budgets != [] && budgets[|budgets| - 1] >= 2 * |events|
    ensures Deliveries(s, events, budgets) == Accept(s, events, 2 * |events|).0
    decreases |budgets|
  {
    if |budgets| == 1 {
      EnoughBudget(s, events, budgets[0]);
    } else {
      ResentAnyTimes(Accept(s, events, budgets[0]).0, events, budgets[1..]);
      ResentOnce(s, events, budgets[0]);
    }
  }

  // Runs mixing deliveries with everything else the store does.

  datatype Move = Deliver(events: seq<Event>, budget: nat) | Other(step: Step)

  function Moved(s: Intake, move: Move): Intake {
    match move
    case Deliver(events, budget) => Receive(s, events, budget).0
    case Other(step) => s.(world := Next(s.world, step))
  }

  function Run(accounts: map<Id, Baseline>, moves: seq<Move>): Intake {
    if moves == [] then Intake(Start(accounts), {})
    else Moved(Run(accounts, moves[..|moves| - 1]), moves[|moves| - 1])
  }

  lemma {:induction false} AcceptSteps(accounts: map<Id, Baseline>, steps: seq<Step>, s: Intake, events: seq<Event>,
                                       budget: nat)
    returns (steps': seq<Step>)
    requires s.world == Exec(accounts, steps)
    ensures Accept(s, events, budget).0.world == Exec(accounts, steps')
    decreases |events|
  {
    steps' := steps;
    if events != [] && events[0].valid {
      var e := events[0];
      if e.id in s.marks {
        steps' := AcceptSteps(accounts, steps, s, events[1..], budget);
      } else if e.body != Reported(false) && budget > 0 {
        if e.body.Observed? && e.body.response.account in s.world.tables.baselines {
          steps' := steps + [Record(e.body.response)];
          assert steps'[..|steps'| - 1] == steps;
        }
        if budget >= 2 {
          var s2 := Intake(Process(s.world, e.body), s.marks + {e.id});
          steps' := AcceptSteps(accounts, steps', s2, events[1..], budget - 2);
        }
      }
    }
  }

  /** Whatever relays send, the store is in a state some run of single steps reaches: every law about
      those runs holds behind relays too. */
  lemma {:induction false} RelayedRunsAreRuns(accounts: map<Id, Baseline>, moves: seq<Move>) returns (steps: seq<Step>)
    ensures Run(accounts, moves).world == Exec(accounts, steps)
  {
    if moves == [] {
      steps := [];
    } else {
      var s, move := Run(accounts, moves[..|moves| - 1]), moves[|moves| - 1];
      var before := RelayedRunsAreRuns(accounts, moves[..|moves| - 1]);
      steps := before;
      if move.Other? {
        steps := before + [move.step];
        assert steps[..|steps| - 1] == before;
      } else if |move.events| <= BATCH_LIMIT {
        steps := AcceptSteps(accounts, before, s, move.events, move.budget);
      }
    }
  }

  /** The usage totals stay exact behind relays. */
  lemma RelayedTotals(accounts: map<Id, Baseline>, moves: seq<Move>)
    ensures var w := Run(accounts, moves).world; Balanced(w.tables.totals, w.tables.rows, w.log)
  {
    var steps := RelayedRunsAreRuns(accounts, moves);
    TotalsExact(accounts, steps);
  }

  // Each relayed response is counted exactly once.

  predicate Distinct(log: seq<Response>) {
    forall i, j | 0 <= i < j < |log| :: log[i].id != log[j].id
  }

  /** `book` gives the response behind each telemetry event; no two events share a response. */
  predicate Injective(book: map<Id, Response>) {
    forall k, k' | k in book && k' in book && book[k].id == book[k'].id :: k == k'
  }

  predicate Booked(e: Event, book: map<Id, Response>) {
    if e.body.Observed? then e.id in book && e.body.response == book[e.id] else e.id !in book
  }

  /** A resent event is the same event, a response observed locally is new and not a relayed one, and a
      relayed response is pruned only after its event was marked processed. */
  predicate Fair(s: Intake, move: Move, book: map<Id, Response>) {
    match move
    case Deliver(events, _) => forall e | e in events :: Booked(e, book)
    case Other(Record(r)) =>
      (forall x | x in s.world.log :: x.id != r.id) && (forall k | k in book :: book[k].id != r.id)
    case Other(Poll(_, _, _)) => true
    case Other(Prune(cutoff, _)) =>
      forall k | k in book && book[k] in s.world.log && book[k].ended < cutoff :: k in s.marks
  }

  predicate FairRun(accounts: map<Id, Baseline>, moves: seq<Move>, book: map<Id, Response>) {
    moves == [] ||
    (FairRun(accounts, moves[..|moves| - 1], book) &&
     Fair(Run(accounts, moves[..|moves| - 1]), moves[|moves| - 1], book))
  }

  /** A booked response is logged at most under its own event, stays stored until that event is marked, and
      a marked event of a known account has been logged. */
  ghost predicate Settled(s: Intake, k: Id, r: Response) {
    && (forall x | x in s.world.log && x.id == r.id :: x == r)
    && (r in s.world.log && !T.Stored(s.world.tables.rows, r.id) ==> k in s.marks)
    && (k in s.marks && r.account in s.world.tables.baselines ==> r in s.world.log)
  }

  ghost predicate Sound(s: Intake, book: map<Id, Response>) {
    && Distinct(s.world.log)
    && (forall x | x in s.world.tables.rows :: x in s.world.log)
    && (forall k | k in book :: Settled(s, k, book[k]))
  }

  lemma ProcessSound(s: Intake, e: Event, book: map<Id, Response>)
    requires Sound(s, book) && Booked(e, book) && Injective(book) && e.id !in s.marks
    ensures var s' := s.(world := Process(s.world, e.body));
            Sound(s', book) && Sound(s'.(marks := s.marks + {e.id}), book)
  {
    hide RecordActivity, T.AddResponse;
    var s' := s.(world := Process(s.world, e.body));
    var s2 := s'.(marks := s.marks + {e.id});
    if e.body.Observed? && e.body.response.account in s.world.tables.baselines {
      var r := e.body.response;
      assert Settled(s, e.id, r);
      if !T.Stored(s.world.tables.rows, r.id) {
        assert s'.world.log == s.world.log + [r] && s'.world.tables.rows == s.world.tables.rows + [r];
        assert s'.world.tables.rows[|s.world.tables.rows|] == r;
        forall k | k in book ensures Settled(s', k, book[k]) && Settled(s2, k, book[k]) {
          assert Settled(s, k, book[k]);
          StoredAppend(s.world.tables.rows, r, book[k].id);
        }
      } else {
        forall k | k in book ensures Settled(s2, k, book[k]) {
          assert Settled(s, k, book[k]);
        }
      }
    } else {
      forall k | k in book ensures Settled(s2, k, book[k]) { assert Settled(s, k, book[k]); }
    }
  }

  lemma StoredAppend(rows: seq<Response>, r: Response, id: Id)
    ensures T.Stored(rows + [r], id) <==> T.Stored(rows, id) || r.id == id
  {
    if T.Stored(rows, id) {
      var i :| 0 <= i < |rows| && rows[i].id == id;
      assert (rows + [r])[i].id == id;
    }
    assert (rows + [r])[|rows|] == r;
  }

  lemma {:induction false} AcceptSound(s: Intake, events: seq<Event>, budget: nat, book: map<Id, Response>)
    requires Sound(s, book) && Injective(book) && forall e | e in events :: Booked(e, book)
    ensures Sound(Accept(s, events, budget).0, book)
    decreases |events|
  {
    hide Sound, Process, Booked, Injective;
    if events != [] && events[0].valid {
      var e := events[0];
      if e.id in s.marks {
        AcceptSound(s, events[1..], budget, book);
      } else if e.body != Reported(false) && budget > 0 {
        assert Booked(e, book);
        ProcessSound(s, e, book);
        if budget >= 2 {
          AcceptSound(Intake(Process(s.world, e.body), s.marks + {e.id}), events[1..], budget - 2, book);
        }
      }
    }
  }

  lemma PruneSound(s: Intake, cutoff: int, limit: nat, book: map<Id, Response>)
    requires Sound(s, book) && Fair(s, Other(Prune(cutoff, limit)), book)
    ensures Sound(Moved(s, Other(Prune(cutoff, limit))), book)
  {
    var s' := Moved(s, Other(Prune(cutoff, limit)));
    PruneRowsLedger(s.world.tables, cutoff, limit);
    PruneRowsKeeps(s.world.tables, cutoff, limit);
    forall k | k in book ensures Settled(s', k, book[k]) {
      assert Settled(s, k, book[k]);
      if book[k] in s.world.log && T.Stored(s.world.tables.rows, book[k].id) && k !in s.marks {
        var i :| 0 <= i < |s.world.tables.rows| && s.world.tables.rows[i].id == book[k].id;
        assert s.world.tables.rows[i] == book[k];
        assert book[k] in s'.world.tables.rows;
      }
    }
  }

  lemma MoveSound(s: Intake, move: Move, book: map<Id, Response>)
    requires Sound(s, book) && Fair(s, move, book) && Injective(book)
    ensures Sound(Moved(s, move), book)
  {
    match move
    case Deliver(events, budget) => if |events| <= BATCH_LIMIT { AcceptSound(s, events, budget, book); }
    case Other(Record(r)) =>
      var s' := Moved(s, move);
      forall k | k in book ensures Settled(s', k, book[k]) {
        assert Settled(s, k, book[k]);
        StoredAppend(s.world.tables.rows, r, book[k].id);
      }
    case Other(Poll(_, _, _)) =>
      forall k | k in book ensures Settled(Moved(s, move), k, book[k]) { assert Settled(s, k, book[k]); }
    case Other(Prune(cutoff, limit)) => PruneSound(s, cutoff, limit, book);
  }

  lemma {:induction false} FairRunsSound(accounts: map<Id, Baseline>, moves: seq<Move>, book: map<Id, Response>)
    requires FairRun(accounts, moves, book) && Injective(book)
    ensures Sound(Run(accounts, moves), book)
  {
    if moves != [] {
      FairRunsSound(accounts, moves[..|moves| - 1], book);
      MoveSound(Run(accounts, moves[..|moves| - 1]), moves[|moves| - 1], book);
    }
  }

  /** Through resent and half-processed batches no response is ever counted twice, and every processed
      telemetry event of a known account has been counted. */
  lemma CountedOnce(accounts: map<Id, Baseline>, moves: seq<Move>, book: map<Id, Response>)
    requires FairRun(accounts, moves, book) && Injective(book)
    ensures var s := Run(accounts, moves);
            && Distinct(s.world.log)
            && forall k | k in book && k in s.marks && book[k].account in s.world.tables.baselines ::
                 book[k] in s.world.log
  {
    FairRunsSound(accounts, moves, book);
    var s := Run(accounts, moves);
    forall k | k in book && k in s.marks && book[k].account in s.world.tables.baselines ensures book[k] in s.world.log {
      assert Settled(s, k, book[k]);
    }
  }

  predicate Logged(log: seq<Response>, id: Id) { exists i | 0 <= i < |log| :: log[i].id == id }

  /** The events of a delivery whose processing is written: the unmarked ones, each id once, up to the first
      invalid or refused event or the interruption. */
  function Processed(marks: set<Id>, events: seq<Event>, budget: nat): seq<Event>
    decreases |events|
  {
    if events == [] || !events[0].valid then []
    else if events[0].id in marks then Processed(marks, events[1..], budget)
    else if events[0].body == Reported(false) || budget == 0 then []
    else [events[0]] + if budget == 1 then [] else Processed(marks + {events[0].id}, events[1..], budget - 2)
  }

  /** The response of a known account was counted before, and its row has been pruned since. */
  predicate Forgotten(w: World, e: Event) {
    && e.body.Observed? && e.body.response.account in w.tables.baselines
    && Logged(w.log, e.body.response.id) && !T.Stored(w.tables.rows, e.body.response.id)
  }

  lemma LoggedAppend(log: seq<Response>, r: Response, id: Id)
    ensures Logged(log + [r], id) <==> Logged(log, id) || r.id == id
  {
    if Logged(log, id) {
      var i :| 0 <= i < |log| && log[i].id == id;
      assert (log + [r])[i].id == id;
    }
    assert (log + [r])[|log|].id == r.id;
  }

  /** Processing one event counts a response twice exactly if it was forgotten, and makes no other one forgotten. */
  lemma ProcessCounts(w: World, e: Event, other: Event)
    requires Distinct(w.log)
    ensures Distinct(Process(w, e.body).log) <==> !Forgotten(w, e)
    ensures !Forgotten(w, e) ==> (Forgotten(Process(w, e.body), other) <==> Forgotten(w, other))
  {
    hide RecordActivity, T.AddResponse;
    if e.body.Observed? && e.body.response.account in w.tables.baselines {
      var r := e.body.response;
      if !T.Stored(w.tables.rows, r.id) {
        assert Process(w, e.body).log == w.log + [r];
        if Logged(w.log, r.id) {
          var i :| 0 <= i < |w.log| && w.log[i].id == r.id;
          assert (w.log + [r])[i].id == (w.log + [r])[|w.log|].id;
        } else if other.body.Observed? {
          LoggedAppend(w.log, r, other.body.response.id);
          StoredAppend(w.tables.rows, r, other.body.response.id);
        }
      }
    }
  }

  lemma {:induction false} LogGrows(s: Intake, events: seq<Event>, budget: nat)
    ensures s.world.log <= Accept(s, events, budget).0.world.log
    decreases |events|
  {
    if events != [] && events[0].valid {
      var e := events[0];
      if e.id in s.marks {
        LogGrows(s, events[1..], budget);
      } else if e.body != Reported(false) && budget >= 2 {
        LogGrows(Intake(Process(s.world, e.body), s.marks + {e.id}), events[1..], budget - 2);
      }
    }
  }

  /** Exactly when a delivery, interrupted or not, counts a response twice: it processes an event whose response
      was counted before and whose row has been pruned since. */
  lemma {:induction false} CountedTwice(s: Intake, events: seq<Event>, budget: nat)
    requires Distinct(s.world.log)
    ensures Distinct(Accept(s, events, budget).0.world.log) <==>
            forall e | e in Processed(s.marks, events, budget) :: !Forgotten(s.world, e)
    decreases |events|
  {
    hide Process, Forgotten;
    if events != [] && events[0].valid {
      var e, tail := events[0], events[1..];
      if e.id in s.marks {
        CountedTwice(s, tail, budget);
      } else if e.body != Reported(false) && budget > 0 {
        ProcessCounts(s.world, e, e);
        assert e in Processed(s.marks, events, budget);
        if budget >= 2 {
          var s2 := Intake(Process(s.world, e.body), s.marks + {e.id});
          LogGrows(s2, tail, budget - 2);
          if !Forgotten(s.world, e) {
            CountedTwice(s2, tail, budget - 2);
            forall x | x in Processed(s2.marks, tail, budget - 2)
              ensures Forgotten(s2.world, x) <==> Forgotten(s.world, x)
            {
              ProcessCounts(s.world, e, x);
            }
          }
        }
      }
    }
  }

  lemma RunThen(accounts: map<Id, Baseline>, moves: seq<Move>, move: Move)
    ensures Run(accounts, moves + [move]) == Moved(Run(accounts, moves), move)
  {
    assert (moves + [move])[..|moves + [move]| - 1] == moves;
  }

  lemma ProcessFirst(w: World, body: Body)
    requires body.Observed? && body.response.account in w.tables.baselines && w.tables.rows == []
    ensures var w' := Process(w, body);
            w'.tables.rows == [body.response] && w'.log == w.log + [body.response] &&
            w'.tables.baselines == w.tables.baselines
  {
  }

  lemma DeliverNew(s: Intake, e: Event, budget: nat)
    requires e.valid && e.body.Observed? && e.body.response.account in s.world.tables.baselines && e.id !in s.marks
    requires s.world.tables.rows == [] && budget > 0
    ensures var w := Moved(s, Deliver([e], budget)).world;
            w.tables.rows == [e.body.response] && w.log == s.world.log + [e.body.response] &&
            w.tables.baselines == s.world.tables.baselines
    ensures budget == 1 ==> Moved(s, Deliver([e], budget)).marks == s.marks
  {
    hide Process;
    var after := Process(s.world, e.body);
    assert |[e]| == 1 && [e][0] == e && [e][1..] == [];
    if budget >= 2 {
      assert Accept(Intake(after, s.marks + {e.id}), [e][1..], budget - 2).0.world == after;
    }
    assert Accept(s, [e], budget).0.world == after;
    ProcessFirst(s.world, e.body);
  }

  lemma PruneOnly(w: World, r: Response)
    requires w.tables.rows == [r]
    ensures var w' := Next(w, Prune(r.ended + 1, 1));
            w'.tables.rows == [] && w'.log == w.log && w'.tables.baselines == w.tables.baselines
  {
    assert T.Oldest([r], r.ended + 1, 1) == Some(0);
    PruneRowsLedger(w.tables, r.ended + 1, 1);
    T.PruneStep(w.tables, r.ended + 1, 1);
    assert [r][..0] + [r][0 + 1..] == [];
  }

  /** Pruning between an interrupted delivery and its resend does count a response twice. */
  lemma PrunedTooEarly(accounts: map<Id, Baseline>, r: Response, id: Id)
    requires r.account in accounts
    ensures var e := Event(id, true, Observed(r));
            var moves := [] + [Deliver([e], 1)] + [Other(Prune(r.ended + 1, 1))] + [Deliver([e], 2)];
            Run(accounts, moves).world.log == [r, r]
  {
    hide Run, Process, T.Prune;
    var e := Event(id, true, Observed(r));
    var first, prune, second := Deliver([e], 1), Other(Prune(r.ended + 1, 1)), Deliver([e], 2);
    RunThen(accounts, [], first);
    RunThen(accounts, [] + [first], prune);
    RunThen(accounts, [] + [first] + [prune], second);
    RunFromStart(accounts);
    DeliverNew(Run(accounts, []), e, 1);
    PruneOnly(Run(accounts, [] + [first]).world, r);
    DeliverNew(Run(accounts, [] + [first] + [prune]), e, 2);
  }

  lemma RunFromStart(accounts: map<Id, Baseline>)
    ensures Run(accounts, []) == Intake(Start(accounts), {})
  {
  }
}
