/** Using and checkpointing an account's credential (managedLocked, setCredentialUse and replaceActive in
    internal/broker/credentials.go, recovery in service.go and login.go).  The upstream may rotate the credential
    inside a runtime at any moment, which makes the stored one worthless; the process may die between any two steps. */
module Credentials {
  import opened Base

  type Credential = nat

  datatype Worker = Stopped | InUse | Quarantined

  /** Where the holder of the account's credential lock is. */
  datatype Phase =
    | Idle
    | Claimed                          // the worker state is CREDENTIAL_IN_USE, no runtime yet
    | Running
    | Captured(found: Option<Credential>)
    | Saved(safe: bool)                // the active bundle is up to date, or could not be brought up to date
    | Releasing(safe: bool)
    | Promoted                         // a sign-in has installed its credential

  /** `home` is the running runtime's credential, `preserved` those of homes kept for recovery; `valid` holds what
      upstream accepts and `issued` what its last rotation gave out. */
  datatype World = World(
    worker: Worker, verified: bool, active: Credential, phase: Phase, home: Option<Credential>,
    preserved: set<Credential>, valid: set<Credential>, issued: Option<Credential>)

  datatype Step =
    | Claim
    | Start(ok: bool, recorded: bool)
    | Rotate(next: Credential)
    | Capture(ok: bool)
    | Checkpoint(ok: bool)
    | Discard(ok: bool)
    | Release(recorded: bool)
    | Crash
    | Recover                  // an explicit reauthentication begins
    | Promote(next: Credential)
    | Commit                   // the sign-in completes
    | Reject                   // a client's request failed for authentication
    | Confirm                  // a manual read with the active credential succeeded

  /** The guarded transition to CREDENTIAL_IN_USE. */
  predicate Claims(w: World) { w.phase == Idle && w.worker == Stopped }

  function Recorded(w: World, safe: bool): World {
    if safe then w.(worker := Stopped) else w.(worker := Quarantined, verified := false)
  }

  function Abandoned(w: World): World {
    w.(home := None, preserved := if w.home.Some? then w.preserved + {w.home.value} else w.preserved)
  }

  function Next(w: World, step: Step): World {
    match step
    case Claim => if Claims(w) then w.(worker := InUse, phase := Claimed) else w
    case Start(ok, recorded) =>
      if w.phase != Claimed then w
      else if ok then w.(home := Some(w.active), phase := Running)
      else if recorded then Recorded(w, true).(phase := Idle)
      else w.(phase := Idle)
    case Rotate(next) =>
      if w.phase != Running || w.home.None? || w.home.value !in w.valid || next in w.valid then w
      else w.(home := Some(next), valid := w.valid - {w.home.value} + {next}, issued := Some(next))
    case Capture(ok) => if w.phase != Running then w else w.(phase := Captured(if ok then w.home else None))
    case Checkpoint(ok) =>
      if !w.phase.Captured? then w
      else if w.phase.found.None? then w.(phase := Saved(false))
      else if w.phase.found.value == w.active then w.(phase := Saved(true))
      else if ok then w.(active := w.phase.found.value, phase := Saved(true))
      else w.(phase := Saved(false))
    case Discard(ok) =>
      if !w.phase.Saved? then w
      else if w.phase.safe then w.(home := None, phase := Releasing(ok))
      else Abandoned(w).(phase := Releasing(false))
    case Release(recorded) =>
      if !w.phase.Releasing? then w
      else if recorded then Recorded(w, w.phase.safe).(phase := Idle)
      else w.(phase := Idle)
    case Crash =>
      var w1 := Abandoned(w).(phase := Idle);
      if w.worker == Stopped then w1 else w1.(worker := Quarantined, verified := false)
    case Recover => if w.worker == Quarantined && !w.verified then w.(worker := Stopped) else w
    case Promote(next) =>
      if w.phase != Idle then w else w.(active := next, valid := w.valid + {next}, phase := Promoted, issued := None)
    case Commit => if w.phase != Promoted then w else w.(verified := true, worker := Stopped, phase := Idle)
    case Reject => w.(verified := false)
    case Confirm => if w.phase == Idle && w.active in w.valid then w.(verified := true) else w
  }

  function Run(first: Credential, steps: seq<Step>): World {
    if steps == [] then World(Stopped, true, first, Idle, None, {}, {first}, None)
    else Next(Run(first, steps[..|steps| - 1]), steps[|steps| - 1])
  }

  predicate Safe(w: World) {
    && (w.phase.Idle? && w.worker == Stopped && w.verified ==> w.active in w.valid)
    && (w.phase.Promoted? ==> w.active in w.valid)
    && (w.phase.Claimed? && w.verified ==> w.active in w.valid)
    && (w.phase.Claimed? || w.phase.Running? || w.phase.Captured? || w.phase.Saved? || w.phase.Releasing? ==>
         w.worker == InUse)
    && (w.home.Some? <==> w.phase.Running? || w.phase.Captured? || w.phase.Saved?)
    && (w.home.Some? && w.verified ==> w.home.value in w.valid)
    && (w.phase.Captured? && w.phase.found.Some? ==> w.phase.found == w.home)
    && (w.phase.Saved? && w.phase.safe ==> w.home == Some(w.active))
    && (w.phase.Releasing? && w.phase.safe && w.verified ==> w.active in w.valid)
    && (w.home.Some? && w.home.value != w.active ==> w.issued == w.home)
    && (w.issued.Some? ==> w.issued.value == w.active || w.issued == w.home || w.issued.value in w.preserved)
  }

  lemma RunnerSafe(w: World, step: Step)
    requires Safe(w) && (step.Claim? || step.Start? || step.Rotate? || step.Capture? || step.Checkpoint?)
    ensures Safe(Next(w, step))
  {
  }

  lemma ReleaseSafe(w: World, step: Step)
    requires Safe(w) && (step.Discard? || step.Release? || step.Crash?)
    ensures Safe(Next(w, step))
  {
  }

  lemma OtherSafe(w: World, step: Step)
    requires Safe(w) && (step.Recover? || step.Promote? || step.Commit? || step.Reject? || step.Confirm?)
    ensures Safe(Next(w, step))
  {
  }

  lemma {:induction false} RunSafe(first: Credential, steps: seq<Step>)
    ensures Safe(Run(first, steps))
  {
    if steps != [] {
      hide Safe, Next;
      var w, step := Run(first, steps[..|steps| - 1]), steps[|steps| - 1];
      RunSafe(first, steps[..|steps| - 1]);
      if step.Claim? || step.Start? || step.Rotate? || step.Capture? || step.Checkpoint? {
        RunnerSafe(w, step);
      } else if step.Discard? || step.Release? || step.Crash? {
        ReleaseSafe(w, step);
      } else {
        OtherSafe(w, step);
      }
    }
  }

  /** Whatever fails or dies, a verified account at rest holds a credential that upstream accepts. */
  lemma NeverStale(first: Credential, steps: seq<Step>)
    ensures var w := Run(first, steps);
            w.phase == Idle && w.worker == Stopped && w.verified ==> w.active in w.valid
  {
    RunSafe(first, steps);
  }

  /** A credential given out by a rotation is never lost: it is the active one, in the running home, or in a
      home preserved for recovery, until a sign-in replaces it. */
  lemma RotationKept(first: Credential, steps: seq<Step>)
    ensures var w := Run(first, steps);
            w.issued.Some? ==> w.issued.value == w.active || w.issued == w.home || w.issued.value in w.preserved
  {
    RunSafe(first, steps);
  }

  predicate NoRelief(steps: seq<Step>) {
    forall i | 0 <= i < |steps| :: !steps[i].Recover? && !steps[i].Commit?
  }

  /** A use that could not be checkpointed, or not even recorded, blocks every later one in every continuation of the
      run: until an explicit recovery begins or a sign-in completes no runtime starts, whatever else happens. */
  lemma {:induction false} BlockedUntilRecovered(first: Credential, before: seq<Step>, after: seq<Step>)
    requires Run(first, before).phase == Idle && Run(first, before).worker != Stopped
    requires NoRelief(after)
    ensures var w := Run(first, before + after);
            w.worker != Stopped && !Claims(w) && (w.phase == Idle || w.phase == Promoted) && w.home.None?
  {
    if after == [] {
      assert before + after == before;
      RunSafe(first, before);
    } else {
      var front, step := after[..|after| - 1], after[|after| - 1];
      BlockedUntilRecovered(first, before, front);
      assert forall i | 0 <= i < |front| :: front[i] == after[i];
      RunThen(first, before + front, step);
      assert before + after == before + front + [step];
      hide Run;
    }
  }

  lemma RunThen(first: Credential, steps: seq<Step>, step: Step)
    ensures Run(first, steps + [step]) == Next(Run(first, steps), step)
  {
    assert (steps + [step])[..|steps + [step]| - 1] == steps;
  }

  // One use of the credential, as the code runs it.

  /** How each call of a use goes; `rotations` are the credentials upstream gives the runtime in turn. */
  datatype Calls = Calls(
    started: bool, rotations: seq<Credential>, captured: bool, saved: bool, discarded: bool, recorded: bool)

  function Rotates(rotations: seq<Credential>): seq<Step> {
    if rotations == [] then [] else Rotates(rotations[..|rotations| - 1]) + [Rotate(rotations[|rotations| - 1])]
  }

  function EndSteps(calls: Calls): seq<Step> {
    [Capture(calls.captured), Checkpoint(calls.saved), Discard(calls.discarded), Release(calls.recorded)]
  }

  /** One use is this run of steps; those after a refused one change nothing. */
  function UseSteps(calls: Calls): seq<Step> {
    [Claim, Start(calls.started, calls.recorded)] + Rotates(calls.rotations) + EndSteps(calls)
  }

  /** The runtime's last credential. */
  function LastOf(valid: set<Credential>, home: Credential, rotations: seq<Credential>): (set<Credential>, Credential) {
    if rotations == [] then (valid, home)
    else
      var next := rotations[|rotations| - 1];
      var (v, h) := LastOf(valid, home, rotations[..|rotations| - 1]);
      if h in v && next !in v then (v - {h} + {next}, next) else (v, h)
  }

  predicate NeedsUse(step: Step) {
    step.Start? || step.Rotate? || step.Capture? || step.Checkpoint? || step.Discard? || step.Release?
  }

  /** Without a claim the steps of a use change nothing. */
  lemma {:induction false} Skipped(first: Credential, steps: seq<Step>, rest: seq<Step>)
    requires Run(first, steps).phase == Idle && forall i | 0 <= i < |rest| :: NeedsUse(rest[i])
    ensures Run(first, steps + rest) == Run(first, steps)
  {
    if rest == [] {
      assert steps + rest == steps;
    } else {
      var front, step := rest[..|rest| - 1], rest[|rest| - 1];
      assert forall i | 0 <= i < |front| :: front[i] == rest[i];
      Skipped(first, steps, front);
      RunThen(first, steps + front, step);
      assert steps + rest == steps + front + [step];
    }
  }

  lemma {:induction false} RotatesNeedUse(rotations: seq<Credential>)
    ensures forall i | 0 <= i < |Rotates(rotations)| :: NeedsUse(Rotates(rotations)[i])
  {
    if rotations != [] { RotatesNeedUse(rotations[..|rotations| - 1]); }
  }

  /** `upstream` and `issued` are upstream's own: what it accepts and last gave out.  `phase` says how far the holder
      of the credential lock has come, `trace` which steps were taken since the first sign-in. */
  class Account {
    ghost const first: Credential
    var worker: Worker
    var verified: bool
    var active: Credential
    var home: Option<Credential>
    var preserved: set<Credential>
    var upstream: set<Credential>
    var issued: Option<Credential>
    ghost var phase: Phase
    ghost var trace: seq<Step>

    ghost function View(): World
      reads this
    {
      World(worker, verified, active, phase, home, preserved, upstream, issued)
    }

    /** The account is in a state of a run, so every law of runs holds of it. */
    ghost predicate Valid()
      reads this
    {
      View() == Run(first, trace)
    }

    constructor (credential: Credential)
      ensures Valid() && first == active == credential && trace == []
    {
      first, worker, verified, active, home, preserved := credential, Stopped, true, credential, None, {};
      phase, upstream, issued, trace := Idle, {credential}, None, [];
    }

    ghost method Take(step: Step)
      modifies this`trace
      ensures trace == old(trace) + [step] && Run(first, trace) == Next(Run(first, old(trace)), step)
    {
      RunThen(first, trace, step);
      trace := trace + [step];
    }

    /** `started` asks for exclusive use; otherwise the use ends, safely or not. */
    method SetCredentialUse(started: bool, safe: bool, recorded: bool) returns (ok: bool)
      modifies this`worker, this`verified
      ensures ok == (recorded && (started ==> old(worker) == Stopped))
      ensures !ok ==> worker == old(worker) && verified == old(verified)
      ensures ok ==> worker == (if started then InUse else if safe then Stopped else Quarantined)
                     && verified == (old(verified) && (started || safe))
    {
      if !recorded || (started && worker != Stopped) {
        return false;
      }
      if started {
        worker := InUse;
      } else if safe {
        worker := Stopped;
      } else {
        worker, verified := Quarantined, false;
      }
      return true;
    }

    /** The runtime works, and upstream rotates its credential whenever it likes. */
    method Work(rotations: seq<Credential>)
      requires Valid() && phase == Running && home.Some?
      modifies this`home, this`upstream, this`issued, this`trace
      ensures Valid() && trace == old(trace) + Rotates(rotations)
      ensures home.Some? && (upstream, home.value) == LastOf(old(upstream), old(home).value, rotations)
    {
      assert trace + Rotates(rotations[..0]) == trace;
      for i := 0 to |rotations|
        invariant Valid() && trace == old(trace) + Rotates(rotations[..i])
        invariant home.Some? && (upstream, home.value) == LastOf(old(upstream), old(home).value, rotations[..i])
      {
        hide Run;
        assert rotations[..i + 1][..i] == rotations[..i];
        var next := rotations[i];
        Take(Rotate(next));
        if home.value in upstream && next !in upstream {
          upstream := upstream - {home.value} + {next};
          home, issued := Some(next), Some(next);
        }
      }
      assert rotations[..|rotations|] == rotations;
    }

    /** Closing the runtime, storing its last credential, giving up its home and the exclusive use. */
    method CheckpointUse(source: Credential, calls: Calls) returns (ok: bool)
      requires Valid() && phase == Running && home.Some? && active == source && worker == InUse
      modifies this
      ensures Valid() && phase == Idle && home.None? && trace == old(trace) + EndSteps(calls)
      ensures old(preserved) <= preserved && (ok <==> worker == Stopped)
      ensures ok ==> active == old(home).value
      ensures active == old(home).value || (old(home).value in preserved && active == source)
      ensures calls.recorded && !ok ==> worker == Quarantined && !verified
    {
      hide Run, Next;
      ghost var before, w := trace, View();
      Take(Capture(calls.captured));
      Take(Checkpoint(calls.saved));
      Take(Discard(calls.discarded));
      Take(Release(calls.recorded));
      EndTrace(before, calls);
      EndIs(w, calls);
      var safe := calls.captured;
      if safe && home.value != source {
        safe := calls.saved;
        if safe {
          active := home.value;
        }
      }
      if safe {
        safe := calls.discarded;
      } else {
        preserved := preserved + {home.value};
      }
      home, phase := None, Idle;
      var recorded := SetCredentialUse(false, safe, calls.recorded);
      return safe && recorded;
    }

    /** One exclusive use.  It is the run `UseSteps`; afterwards the stored credential is the runtime's last one, or
        the account is blocked and, unless the credential was stored, the runtime's home is preserved. */
    method ManagedLocked(calls: Calls) returns (ok: bool)
      requires Valid() && phase == Idle
      modifies this
      ensures Valid() && phase == Idle && home.None? && trace == old(trace) + UseSteps(calls)
      ensures old(preserved) <= preserved
      ensures old(worker) != Stopped ==> !ok && worker == old(worker) && active == old(active)
      ensures old(worker) == Stopped && !calls.started ==>
                !ok && active == old(active) && (calls.recorded <==> worker == Stopped)
      ensures old(worker) == Stopped && calls.started ==>
                var last := LastOf(old(upstream), old(active), calls.rotations).1;
                && (ok <==> worker == Stopped) && (ok ==> active == last)
                && (active == last || (last in preserved && active == old(active)))
                && (calls.recorded && !ok ==> worker == Quarantined && !verified)
    {
      hide Run;
      RunSafe(first, trace);
      assert home.None? by { IdleHasNoHome(View()); }
      ghost var before := trace;
      var source := active;
      var claimed := SetCredentialUse(true, true, true);
      if !claimed {
        SkipUse(first, before, calls);
        trace := before + UseSteps(calls);
        return false;
      }
      phase := Claimed;
      Take(Claim);
      if !calls.started {
        var _ := SetCredentialUse(false, true, calls.recorded);
        phase := Idle;
        Take(Start(false, calls.recorded));
        SkipEnd(first, before, calls);
        trace := before + UseSteps(calls);
        return false;
      }
      home, phase := Some(source), Running;
      Take(Start(true, calls.recorded));
      Work(calls.rotations);
      ok := CheckpointUse(source, calls);
      UseTrace(before, calls);
      return ok;
    }
  }

  /** What the steps that end a use amount to. */
  lemma EndIs(w: World, calls: Calls)
    requires w.phase == Running && w.home.Some? && w.worker == InUse
    ensures var stored := calls.captured && (w.home.value == w.active || calls.saved);
            var w1 := w.(phase := Idle, home := None, active := if stored then w.home.value else w.active,
                         preserved := if stored then w.preserved else w.preserved + {w.home.value});
            Next(Next(Next(Next(w, Capture(calls.captured)), Checkpoint(calls.saved)), Discard(calls.discarded)),
                 Release(calls.recorded)) ==
              if calls.recorded then Recorded(w1, stored && calls.discarded) else w1
  {
  }

  lemma IdleHasNoHome(w: World)
    requires Safe(w) && w.phase == Idle
    ensures w.home.None?
  {
  }

  lemma EndTrace(before: seq<Step>, calls: Calls)
    ensures before + [Capture(calls.captured)] + [Checkpoint(calls.saved)] + [Discard(calls.discarded)] +
            [Release(calls.recorded)] == before + EndSteps(calls)
  {
  }

  lemma UseTrace(before: seq<Step>, calls: Calls)
    ensures before + [Claim] + [Start(calls.started, calls.recorded)] + Rotates(calls.rotations) + EndSteps(calls) ==
            before + UseSteps(calls)
  {
  }

  lemma SkipUse(first: Credential, before: seq<Step>, calls: Calls)
    requires Run(first, before).phase == Idle && Run(first, before).worker != Stopped
    ensures Run(first, before + UseSteps(calls)) == Run(first, before)
  {
    RunThen(first, before, Claim);
    RotatesNeedUse(calls.rotations);
    var rest := [Start(calls.started, calls.recorded)] + Rotates(calls.rotations) + EndSteps(calls);
    Skipped(first, before + [Claim], rest);
    assert before + [Claim] + rest == before + UseSteps(calls);
  }

  lemma SkipEnd(first: Credential, before: seq<Step>, calls: Calls)
    requires Run(first, before + [Claim] + [Start(calls.started, calls.recorded)]).phase == Idle
    ensures Run(first, before + UseSteps(calls)) ==
              Run(first, before + [Claim] + [Start(calls.started, calls.recorded)])
  {
    RotatesNeedUse(calls.rotations);
    var rest := Rotates(calls.rotations) + EndSteps(calls);
    Skipped(first, before + [Claim] + [Start(calls.started, calls.recorded)], rest);
    assert before + [Claim] + [Start(calls.started, calls.recorded)] + rest == before + UseSteps(calls);
  }
}
