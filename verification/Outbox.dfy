/** The relay's store-and-forward outbox (queueLocked and flush in internal/relay/relay.go). */
module Outbox {
  import opened Base

  const LIMIT := 10000
  const BATCH := 100

  datatype Event = Event(id: nat, telemetry: bool)

  /** The oldest telemetry event. */
  function OldestTelemetry(outbox: seq<Event>): (r: Option<nat>)
    ensures r.Some? ==> r.value < |outbox| && outbox[r.value].telemetry
    ensures r.Some? ==> forall j | 0 <= j < r.value :: !outbox[j].telemetry
    ensures r.None? ==> forall j | 0 <= j < |outbox| :: !outbox[j].telemetry
  {
    if outbox == [] then None
    else if outbox[0].telemetry then Some(0)
    else
      var r := OldestTelemetry(outbox[1..]);
      assert forall j | 1 <= j < |outbox| :: outbox[j] == outbox[1..][j - 1];
      if r.Some? then Some(r.value + 1) else None
  }

  function Without(outbox: seq<Event>, i: nat): seq<Event>
    requires i < |outbox|
  {
    outbox[..i] + outbox[i + 1..]
  }

  /** A batch on its way to the broker, and how many of its events were evicted meanwhile. */
  datatype Flight = Flight(batch: seq<Event>, hit: nat)

  /** `queued` remembers the accepted events, without the evicted ones; `sent` those the broker acknowledged. */
  datatype State = State(outbox: seq<Event>, flight: Option<Flight>, sent: seq<Event>, queued: seq<Event>)

  /** Whether an event is accepted: only a critical one may displace another, and only telemetry. */
  predicate Accepts(outbox: seq<Event>, e: Event) {
    |outbox| < LIMIT || (!e.telemetry && OldestTelemetry(outbox).Some?)
  }

  predicate Evicts(outbox: seq<Event>, e: Event) { |outbox| >= LIMIT && Accepts(outbox, e) }

  /** The first `count` events are in flight. */
  function InFlight(s: State): nat {
    if s.flight.Some? && s.flight.value.hit <= |s.flight.value.batch|
    then |s.flight.value.batch| - s.flight.value.hit else 0
  }

  function Queue(s: State, e: Event): State {
    if !Accepts(s.outbox, e) then s
    else if !Evicts(s.outbox, e) then s.(outbox := s.outbox + [e], queued := s.queued + [e])
    else
      var i := OldestTelemetry(s.outbox).value;
      s.(outbox := Without(s.outbox, i) + [e],
         queued := (if |s.sent| + i < |s.queued| then Without(s.queued, |s.sent| + i) else s.queued) + [e],
         flight := if i < InFlight(s) then Some(s.flight.value.(hit := s.flight.value.hit + 1)) else s.flight)
  }

  function Begin(s: State): State {
    if s.flight.Some? || s.outbox == [] then s
    else s.(flight := Some(Flight(if |s.outbox| > BATCH then s.outbox[..BATCH] else s.outbox, 0)))
  }

  /** The reply to a flush: on success the batch is dropped from the front, by its length. */
  function Finish(s: State, ok: bool): State {
    if s.flight.None? then s
    else if !ok || |s.flight.value.batch| > |s.outbox| then s.(flight := None)
    else State(s.outbox[|s.flight.value.batch|..], None, s.sent + s.flight.value.batch, s.queued)
  }

  class Relay {
    var outbox: seq<Event>
    ghost var state: State

    ghost predicate Valid()
      reads this
    {
      state.outbox == outbox && Inv(state)
    }

    constructor ()
      ensures Valid() && state == State([], None, [], [])
    {
      outbox := [];
      state := State([], None, [], []);
    }

    method QueueLocked(e: Event) returns (ok: bool)
      requires Valid()
      modifies this
      ensures Valid() && state == Queue(old(state), e) && ok == Accepts(old(outbox), e)
    {
      QueueInv(state, e);
      ok := true;
      state := Queue(state, e);
      if |outbox| >= LIMIT {
        if e.telemetry {
          return false;
        }
        var index := |outbox|;
        for candidate := 0 to |outbox|
          invariant index == |outbox| && forall j | 0 <= j < candidate :: !outbox[j].telemetry
        {
          if outbox[candidate].telemetry {
            index := candidate;
            break;
          }
        }
        if index == |outbox| {
          return false;
        }
        outbox := outbox[..index] + outbox[index + 1..];
      }
      outbox := outbox + [e];
    }

    /** The copy a flush sends; other methods run until its reply is handled. */
    method BeginFlush() returns (batch: seq<Event>)
      requires Valid() && state.flight.None?
      modifies this`state
      ensures Valid() && state == Begin(old(state))
      ensures |batch| <= BATCH && (outbox != [] ==> state.flight == Some(Flight(batch, 0)))
    {
      batch := outbox;
      if |batch| > BATCH {
        batch := batch[..BATCH];
      }
      BeginInv(state);
      state := Begin(state);
    }

    method FinishFlush(batch: seq<Event>, ok: bool)
      requires Valid() && state.flight.Some? && state.flight.value.batch == batch
      modifies this
      ensures Valid() && state == Finish(old(state), ok)
    {
      FinishInv(state, ok);
      state := Finish(state, ok);
      if ok {
        outbox := outbox[|batch|..];
      }
    }
  }

  /** The outbox is bounded, and a flight fits into it. */
  predicate Inv(s: State) {
    && |s.outbox| <= LIMIT
    && (s.flight.Some? ==> 0 < |s.flight.value.batch| <= BATCH && |s.flight.value.batch| <= |s.outbox|
                           && s.flight.value.hit <= |s.flight.value.batch|)
  }

  lemma QueueInv(s: State, e: Event)
    requires Inv(s)
    ensures Inv(Queue(s, e))
  {
  }

  lemma BeginInv(s: State)
    requires Inv(s)
    ensures Inv(Begin(s))
  {
  }

  lemma FinishInv(s: State, ok: bool)
    requires Inv(s)
    ensures Inv(Finish(s, ok))
  {
  }

  // Runs.

  datatype Step = Add(event: Event) | Start | Reply(ok: bool)

  function Next(s: State, step: Step): State {
    match step
    case Add(e) => Queue(s, e)
    case Start => Begin(s)
    case Reply(ok) => Finish(s, ok)
  }

  function Run(steps: seq<Step>): State {
    if steps == [] then State([], None, [], []) else Next(Run(steps[..|steps| - 1]), steps[|steps| - 1])
  }

  /** What remains of the batch at the front of the outbox while it is in flight. */
  ghost predicate Ordered(s: State) {
    && s.queued == s.sent + s.outbox
    && (s.flight.Some? && s.flight.value.hit == 0 ==> s.flight.value.batch <= s.outbox)
  }

  /** No acknowledged batch had an event evicted while it was on its way. */
  predicate Unhit(s: State, step: Step) { step.Reply? && step.ok && s.flight.Some? ==> s.flight.value.hit == 0 }

  predicate AllUnhit(steps: seq<Step>) {
    steps == [] || (AllUnhit(steps[..|steps| - 1]) && Unhit(Run(steps[..|steps| - 1]), steps[|steps| - 1]))
  }

  lemma QueueOrdered(s: State, e: Event)
    requires Inv(s) && Ordered(s)
    ensures Ordered(Queue(s, e))
  {
    if Evicts(s.outbox, e) {
      var i := OldestTelemetry(s.outbox).value;
      WithoutConcat(s.sent, s.outbox, i);
      Shifted(s.sent, Without(s.outbox, i), e);
      if s.flight.Some? && s.flight.value.hit == 0 && i >= |s.flight.value.batch| {
        KeepsPrefix(s.outbox, s.flight.value.batch, i, e);
      }
    } else if Accepts(s.outbox, e) {
      Shifted(s.sent, s.outbox, e);
    }
  }

  lemma WithoutConcat(a: seq<Event>, b: seq<Event>, i: nat)
    requires i < |b|
    ensures Without(a + b, |a| + i) == a + Without(b, i)
  {
  }

  lemma Shifted(a: seq<Event>, b: seq<Event>, e: Event)
    ensures a + (b + [e]) == a + b + [e]
  {
  }

  lemma KeepsPrefix(outbox: seq<Event>, batch: seq<Event>, i: nat, e: Event)
    requires batch <= outbox && |batch| <= i < |outbox|
    ensures batch <= Without(outbox, i) + [e]
  {
  }

  lemma StepOrdered(s: State, step: Step)
    requires Inv(s) && Ordered(s) && Unhit(s, step)
    ensures Ordered(Next(s, step))
  {
    match step
    case Add(e) => QueueOrdered(s, e);
    case Start =>
    case Reply(ok) =>
      if s.flight.Some? && ok { assert s.outbox == s.flight.value.batch + s.outbox[|s.flight.value.batch|..]; }
  }

  lemma {:induction false} RunInv(steps: seq<Step>)
    ensures Inv(Run(steps))
  {
    if steps != [] {
      var s, step := Run(steps[..|steps| - 1]), steps[|steps| - 1];
      RunInv(steps[..|steps| - 1]);
      match step
      case Add(e) => QueueInv(s, e);
      case Start => BeginInv(s);
      case Reply(ok) => FinishInv(s, ok);
    }
  }

  /** With no eviction hitting a batch on its way, what was sent followed by the outbox is exactly what was
      queued, in order. */
  lemma {:induction false} SentInOrder(steps: seq<Step>)
    requires AllUnhit(steps)
    ensures var s := Run(steps); s.sent + s.outbox == s.queued
    ensures Ordered(Run(steps))
  {
    if steps != [] {
      SentInOrder(steps[..|steps| - 1]);
      RunInv(steps[..|steps| - 1]);
      StepOrdered(Run(steps[..|steps| - 1]), steps[|steps| - 1]);
    }
  }

  // Critical events.

  function Critical(events: seq<Event>): seq<Event> {
    if events == [] then []
    else Critical(events[..|events| - 1]) + if events[|events| - 1].telemetry then [] else [events[|events| - 1]]
  }

  lemma {:induction false} CriticalConcat(a: seq<Event>, b: seq<Event>)
    ensures Critical(a + b) == Critical(a) + Critical(b)
  {
    if b == [] {
      assert a + b == a;
    } else {
      assert (a + b)[..|a + b| - 1] == a + b[..|b| - 1];
      CriticalConcat(a, b[..|b| - 1]);
    }
  }

  lemma CriticalSingle(e: Event)
    ensures Critical([e]) == if e.telemetry then [] else [e]
  {
    assert [e][..0] == [];
  }

  lemma Parts(events: seq<Event>, i: nat)
    requires i < |events|
    ensures events == events[..i] + [events[i]] + events[i + 1..]
  {
  }

  lemma CriticalWithout(events: seq<Event>, i: nat)
    requires i < |events| && events[i].telemetry
    ensures Critical(Without(events, i)) == Critical(events)
  {
    hide Critical;
    var a, b := events[..i], events[i + 1..];
    Parts(events, i);
    CriticalConcat(a, b);
    CriticalConcat(a + [events[i]], b);
    CriticalConcat(a, [events[i]]);
    CriticalSingle(events[i]);
  }

  /** Queueing a critical event displaces no critical event; queueing telemetry displaces nothing. */
  lemma CriticalKept(s: State, e: Event)
    ensures Critical(Queue(s, e).outbox) ==
              Critical(s.outbox) + (if Accepts(s.outbox, e) && !e.telemetry then [e] else [])
    ensures e.telemetry ==> s.outbox <= Queue(s, e).outbox
    ensures Queue(s, e).sent == s.sent
  {
    assert [e][..0] == [];
    if Evicts(s.outbox, e) {
      var i := OldestTelemetry(s.outbox).value;
      CriticalWithout(s.outbox, i);
      CriticalConcat(Without(s.outbox, i), [e]);
    } else if Accepts(s.outbox, e) {
      CriticalConcat(s.outbox, [e]);
    }
  }

  lemma NotFlushed(s: State, ok: bool)
    requires s.flight.None? || !ok
    ensures Finish(s, ok).outbox == s.outbox && Finish(s, ok).sent == s.sent
  {
  }

  lemma FlushedCritical(s: State)
    requires Inv(s) && Ordered(s) && s.flight.Some? && s.flight.value.hit == 0
    ensures var s' := Finish(s, true); Critical(s'.sent) + Critical(s'.outbox) == Critical(s.sent) + Critical(s.outbox)
  {
    hide Critical;
    var batch := s.flight.value.batch;
    assert s.outbox == batch + s.outbox[|batch|..];
    CriticalConcat(batch, s.outbox[|batch|..]);
    CriticalConcat(s.sent, batch);
  }

  /** The critical event a step accepts. */
  function NewCritical(s: State, step: Step): seq<Event> {
    if step.Add? && !step.event.telemetry && Accepts(s.outbox, step.event) then [step.event] else []
  }

  lemma CriticalStep(s: State, step: Step)
    requires Inv(s) && Ordered(s) && Unhit(s, step)
    ensures var s' := Next(s, step);
            Critical(s'.sent) + Critical(s'.outbox) == Critical(s.sent) + Critical(s.outbox) + NewCritical(s, step)
  {
    hide Critical, Accepts, Queue, Finish;
    match step
    case Add(e) => CriticalKept(s, e);
    case Start =>
    case Reply(ok) => if s.flight.Some? && ok { FlushedCritical(s); } else { NotFlushed(s, ok); }
  }

  /** The critical events accepted in a run, in order. */
  function AcceptedCritical(steps: seq<Step>): seq<Event> {
    if steps == [] then []
    else AcceptedCritical(steps[..|steps| - 1]) + NewCritical(Run(steps[..|steps| - 1]), steps[|steps| - 1])
  }

  /** No accepted failure or activation event is lost or overtaken. */
  lemma {:induction false} CriticalDelivered(steps: seq<Step>)
    requires AllUnhit(steps)
    ensures var s := Run(steps); Critical(s.sent) + Critical(s.outbox) == AcceptedCritical(steps)
  {
    if steps != [] {
      hide Critical, Next, Ordered, Inv, NewCritical, Unhit;
      CriticalDelivered(steps[..|steps| - 1]);
      SentInOrder(steps[..|steps| - 1]);
      RunInv(steps[..|steps| - 1]);
      CriticalStep(Run(steps[..|steps| - 1]), steps[|steps| - 1]);
    } else {
      CriticalConcat([], []);
    }
  }

  // The order is kept exactly when no eviction hits the batch.

  /** Every event is queued once. */
  predicate Fresh(steps: seq<Step>) {
    forall i, j | 0 <= i < j < |steps| && steps[i].Add? && steps[j].Add? :: steps[i].event != steps[j].event
  }

  predicate Added(steps: seq<Step>, e: Event) { exists i | 0 <= i < |steps| :: steps[i] == Add(e) }

  predicate Distinct(events: seq<Event>) { forall i, j | 0 <= i < j < |events| :: events[i] != events[j] }

  ghost predicate Known(steps: seq<Step>, events: seq<Event>) { forall e | e in events :: Added(steps, e) }

  predicate Missing(batch: seq<Event>, queued: seq<Event>) { exists e | e in batch :: e !in queued }

  /** The front of the outbox is what remains of the batch, nothing behind it belongs to the batch, and a hit
      batch has lost an event. */
  ghost predicate Tracked(s: State) {
    s.flight.Some? ==>
      && (forall j | 0 <= j < InFlight(s) && j < |s.outbox| :: s.outbox[j] in s.flight.value.batch)
      && (forall j | InFlight(s) <= j < |s.outbox| :: s.outbox[j] !in s.flight.value.batch)
      && (s.flight.value.hit > 0 ==> Missing(s.flight.value.batch, s.queued))
  }

  ghost predicate Sound(steps: seq<Step>, s: State) {
    && Distinct(s.queued) && Known(steps, s.queued)
    && (s.flight.Some? ==> Known(steps, s.flight.value.batch))
  }

  lemma WithoutLoses(events: seq<Event>, i: nat)
    requires i < |events| && Distinct(events)
    ensures Distinct(Without(events, i)) && events[i] !in Without(events, i)
    ensures forall e :: e in Without(events, i) ==> e in events
  {
  }

  lemma KnownLater(steps: seq<Step>, step: Step, events: seq<Event>)
    requires Known(steps, events)
    ensures Known(steps + [step], events)
  {
    forall e | e in events ensures Added(steps + [step], e) {
      var i :| 0 <= i < |steps| && steps[i] == Add(e);
      assert (steps + [step])[i] == Add(e);
    }
  }

  lemma DistinctAppend(steps: seq<Step>, events: seq<Event>, e: Event)
    requires Distinct(events) && Known(steps + [Add(e)], events) && e !in events
    ensures Distinct(events + [e]) && Known(steps + [Add(e)], events + [e])
  {
    AddedNow(steps, e);
    hide Added;
  }

  lemma QueueSound(steps: seq<Step>, s: State, e: Event)
    requires s.queued == s.sent + s.outbox && Sound(steps, s) && !Added(steps, e)
    ensures Sound(steps + [Add(e)], Queue(s, e))
  {
    hide Added, Distinct;
    KnownLater(steps, Add(e), s.queued);
    if s.flight.Some? { KnownLater(steps, Add(e), s.flight.value.batch); }
    NotIn(steps, s.queued, e);
    if Evicts(s.outbox, e) {
      var i := OldestTelemetry(s.outbox).value;
      WithoutLoses(s.queued, |s.sent| + i);
      DistinctAppend(steps, Without(s.queued, |s.sent| + i), e);
    } else {
      DistinctAppend(steps, s.queued, e);
    }
  }

  lemma QueueTracked(steps: seq<Step>, s: State, e: Event)
    requires Inv(s) && s.queued == s.sent + s.outbox && Tracked(s) && Sound(steps, s) && !Added(steps, e)
    ensures Tracked(Queue(s, e))
  {
    hide Added, Distinct;
    if s.flight.Some? && Evicts(s.outbox, e) {
      var i, batch := OldestTelemetry(s.outbox).value, s.flight.value.batch;
      NotIn(steps, batch, e);
      WithoutLoses(s.queued, |s.sent| + i);
      FrontKept(s.outbox, batch, InFlight(s), i, e);
      if i < InFlight(s) {
        assert s.queued[|s.sent| + i] == s.outbox[i] && s.outbox[i] in batch;
        assert s.outbox[i] !in Queue(s, e).queued;
      }
    }
  }

  lemma FrontKept(outbox: seq<Event>, batch: seq<Event>, n: nat, i: nat, e: Event)
    requires n <= |outbox| && i < |outbox| && forall j | 0 <= j < n :: outbox[j] in batch
    requires e !in batch && forall j | n <= j < |outbox| :: outbox[j] !in batch
    ensures var more, m := Without(outbox, i) + [e], if i < n then n - 1 else n;
            && (forall j | 0 <= j < m :: more[j] in batch)
            && (forall j | m <= j < |more| :: more[j] !in batch)
  {
  }

  lemma NotIn(steps: seq<Step>, events: seq<Event>, e: Event)
    requires Known(steps, events) && !Added(steps, e)
    ensures e !in events
  {
  }

  lemma AddedNow(steps: seq<Step>, e: Event)
    ensures Added(steps + [Add(e)], e)
  {
    assert (steps + [Add(e)])[|steps|] == Add(e);
  }

  lemma {:induction false} RunTracked(steps: seq<Step>)
    requires AllUnhit(steps) && Fresh(steps)
    ensures Tracked(Run(steps)) && Sound(steps, Run(steps))
  {
    if steps != [] {
      hide Sound, Tracked, Queue, Finish, Begin;
      var front, step := steps[..|steps| - 1], steps[|steps| - 1];
      assert front + [step] == steps;
      assert forall i | 0 <= i < |front| :: front[i] == steps[i];
      RunTracked(front);
      SentInOrder(front);
      RunInv(front);
      match step
      case Add(e) =>
        assert !Added(front, e);
        QueueTracked(front, Run(front), e);
        QueueSound(front, Run(front), e);
      case Start => BeginTracked(front, Run(front));
      case Reply(ok) => FinishTracked(front, Run(front), ok);
    }
  }

  lemma BeginTracked(steps: seq<Step>, s: State)
    requires Inv(s) && s.queued == s.sent + s.outbox && Tracked(s) && Sound(steps, s)
    ensures Tracked(Begin(s)) && Sound(steps + [Start], Begin(s))
  {
    KnownLater(steps, Start, s.queued);
    if s.flight.Some? { KnownLater(steps, Start, s.flight.value.batch); }
    hide Added;
    if s.flight.None? && s.outbox != [] {
      var batch := Begin(s).flight.value.batch;
      forall j, k | |batch| <= j < |s.outbox| && 0 <= k < |batch| ensures batch[k] != s.outbox[j] {
        assert s.queued[|s.sent| + k] == batch[k] && s.queued[|s.sent| + j] == s.outbox[j];
      }
    }
  }

  lemma FinishTracked(steps: seq<Step>, s: State, ok: bool)
    requires Inv(s) && Tracked(s) && Sound(steps, s)
    ensures Tracked(Finish(s, ok)) && Sound(steps + [Reply(ok)], Finish(s, ok))
  {
    KnownLater(steps, Reply(ok), s.queued);
  }

  predicate Lost(s: State, e: Event) { e in s.queued && e !in s.sent && e !in s.outbox }

  /** What an acknowledged flush drops without sending: the events that moved up into the batch's place. */
  lemma DroppedExactly(steps: seq<Step>, s: State, e: Event)
    requires Inv(s) && s.queued == s.sent + s.outbox && Tracked(s) && Sound(steps, s) && s.flight.Some?
    ensures Lost(Finish(s, true), e) <==> e in s.outbox[InFlight(s)..|s.flight.value.batch|]
  {
    hide Known;
    var n, m := InFlight(s), |s.flight.value.batch|;
    var s' := Finish(s, true);
    if e in s.outbox[n..m] {
      var j :| n <= j < m && s.outbox[j] == e;
      assert s.queued[|s.sent| + j] == e;
      forall k | 0 <= k < |s.sent| ensures s.sent[k] != e { assert s.queued[k] == s.sent[k]; }
      forall k | m <= k < |s.outbox| ensures s.outbox[k] != e { assert s.queued[|s.sent| + k] == s.outbox[k]; }
    }
  }

  lemma FlushLoses(steps: seq<Step>, s: State)
    requires Inv(s) && Ordered(s) && Tracked(s) && Sound(steps, s) && s.flight.Some?
    ensures var s', flight := Finish(s, true), s.flight.value;
            && ((exists e :: Lost(s', e)) <==> flight.hit > 0)
            && (s'.sent + s'.outbox == s'.queued <==> flight.hit == 0)
  {
    hide Known, Lost;
    var n, m := InFlight(s), |s.flight.value.batch|;
    forall e ensures Lost(Finish(s, true), e) <==> e in s.outbox[n..m] { DroppedExactly(steps, s, e); }
    if s.flight.value.hit == 0 {
      StepOrdered(s, Reply(true));
    } else {
      assert s.outbox[n] in s.outbox[n..m];
      assert Lost(Finish(s, true), s.outbox[n]);
      var e :| e in s.flight.value.batch && e !in s.queued;
      assert e in Finish(s, true).sent;
    }
  }

  /** The first acknowledged flush whose batch was hit loses events: those, neither evicted nor sent, that followed
      the batch, one for every event of the batch evicted while it was on its way.  So something is lost, and the
      order broken, if and only if there was such an eviction. */
  lemma {:induction false} LostExactly(steps: seq<Step>)
    requires AllUnhit(steps) && Fresh(steps) && Run(steps).flight.Some?
    ensures var s := Run(steps); var s', flight := Finish(s, true), s.flight.value;
            && flight.hit <= |flight.batch| <= |s.outbox|
            && (forall e :: Lost(s', e) <==> e in s.outbox[|flight.batch| - flight.hit..|flight.batch|])
            && ((exists e :: Lost(s', e)) <==> flight.hit > 0)
            && (s'.sent + s'.outbox == s'.queued <==> flight.hit == 0)
  {
    hide Run, Fresh, AllUnhit, Tracked, Sound, Finish, Lost;
    var s := Run(steps);
    RunTracked(steps);
    SentInOrder(steps);
    RunInv(steps);
    forall e ensures Lost(Finish(s, true), e) <==> e in s.outbox[InFlight(s)..|s.flight.value.batch|] {
      DroppedExactly(steps, s, e);
    }
    FlushLoses(steps, s);
  }

  // What an eviction during a flush does: the batch is dropped by its length, so an event behind it goes too.

  function Flood(n: nat): (events: seq<Event>)
    ensures |events| == n && forall i | 0 <= i < n :: events[i] == Event(i, true)
  {
    seq(n, i requires 0 <= i < n => Event(i, true))
  }

  function Adds(n: nat): seq<Step> {
    if n == 0 then [] else Adds(n - 1) + [Add(Event(n - 1, true))]
  }

  lemma RunThen(steps: seq<Step>, step: Step)
    ensures Run(steps + [step]) == Next(Run(steps), step)
  {
    assert (steps + [step])[..|steps + [step]| - 1] == steps;
  }

  lemma {:induction false} Flooded(n: nat)
    requires n <= LIMIT
    ensures Run(Adds(n)) == State(Flood(n), None, [], Flood(n))
  {
    if n > 0 {
      Flooded(n - 1);
      RunThen(Adds(n - 1), Add(Event(n - 1, true)));
      assert Flood(n - 1) + [Event(n - 1, true)] == Flood(n);
    }
  }

  /** A full outbox, a flush of its first hundred events, a failure event meanwhile: the event behind the
      batch is neither sent nor kept. */
  lemma EventLost() returns (steps: seq<Step>, lost: Event)
    ensures var s := Run(steps); lost in s.queued && lost !in s.sent && lost !in s.outbox
  {
    hide Run, Queue, OldestTelemetry;
    var base, e := Adds(LIMIT), Event(LIMIT, false);
    var s2 := base + [Start];
    var s3 := s2 + [Add(e)];
    steps, lost := s3 + [Reply(true)], Event(BATCH, true);
    Flooded(LIMIT);
    RunThen(base, Start);
    RunThen(s2, Add(e));
    RunThen(s3, Reply(true));
    EvictFirst(Run(s2), e);
    var outbox := Run(s3).outbox;
    assert Run(s3).queued[BATCH - 1] == lost;
    assert Run(steps).sent == Flood(LIMIT)[..BATCH];
    assert Run(steps).outbox == Flood(LIMIT)[BATCH + 1..] + [e];
  }

  lemma EvictFirst(s: State, e: Event)
    requires s.outbox == s.queued == Flood(LIMIT) && s.sent == [] &&
               s.flight == Some(Flight(Flood(LIMIT)[..BATCH], 0)) && !e.telemetry
    ensures var s' := Queue(s, e);
            s'.outbox == s'.queued == Flood(LIMIT)[1..] + [e] && s'.sent == [] &&
              s'.flight == Some(Flight(Flood(LIMIT)[..BATCH], 1))
  {
    assert s.outbox[0].telemetry;
    assert OldestTelemetry(s.outbox) == Some(0);
    assert Without(s.outbox, 0) == Flood(LIMIT)[1..];
    assert [] + s.outbox == s.outbox;
  }
}
