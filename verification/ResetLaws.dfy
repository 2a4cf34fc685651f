/** No quota-blocked account is forgotten, no reset is missed, no exhausted account is stranded. */
module ResetLaws {
  import opened Base
  import opened QuotaResets

  // Blocks, at arbitrary times: rejections reported late by relays carry past times.

  datatype Step =
    | Reject(now: int)
    | Ask(reason: Reason, due: int)             // a rotation or relay asks for a read
    | Claim(now: int)
    | Begin(now: int)                           // the read of a queued operation starts
    | Start(now: int)                           // an operation queued by other means: a user, a pulse
    | Commit(read: Usage, at: int, ends: bool)  // a read is committed; the operation may read again
    | Give(now: int)                            // the operation fails
    | Change(now: int, eligible: bool, rolling: bool)  // enabling, sign-in, checkpoints, the weekly cycle

  function Next(a: Account, step: Step): Account {
    match step
    case Reject(now) => Blocked(a, now)
    case Ask(reason, due) => if Critical(reason) then a else a.(request := Requested(a.request, reason, due))
    case Claim(now) => Claimed(a, now)
    case Begin(now) => if a.operation == Queued then a.(operation := Reading(now)) else a
    case Start(now) => if a.operation == Idle then a.(operation := Queued) else a
    case Commit(read, at, ends) =>
      if !a.operation.Reading? then a
      else Committed(a, read, a.operation.started, at).(operation := if ends then Idle else Queued)
    case Give(now) => a.(operation := Idle)
    case Change(_, eligible, rolling) => a.(eligible := eligible, rolling := rolling)
  }

  function Fresh(): Account {
    var unknown := Window(None, None);
    Account(None, None, None, None, Usage(unknown, unknown, None), Idle, false, false)
  }

  function Run(steps: seq<Step>): Account {
    if steps == [] then Fresh() else Next(Run(steps[..|steps| - 1]), steps[|steps| - 1])
  }

  /** A block comes with a pending request that cannot be satisfied before the grace is over. */
  predicate BlockPending(a: Account) {
    a.block.Some? ==>
      a.request.Some? && a.request.value.reason == QuotaRejected && a.request.value.due >= a.block.value.at + GRACE_MS
  }

  lemma BlockKept(a: Account, step: Step)
    requires BlockPending(a)
    ensures BlockPending(Next(a, step))
  {
    hide Due, Unconfirmed, Scheduled, Settled, Complete, RetryAt, Active;
  }

  /** In every run a quota-blocked account has a pending QUOTA_REJECTED request due at least the grace after
      the block, so whatever deletes the request deletes the block with it. */
  lemma {:induction false} BlockedIsPending(steps: seq<Step>)
    ensures BlockPending(Run(steps))
  {
    if steps != [] {
      BlockedIsPending(steps[..|steps| - 1]);
      BlockKept(Run(steps[..|steps| - 1]), steps[|steps| - 1]);
    }
  }

  /** Nothing but a committed read that began when it was due removes, lowers or replaces a rejection's request. */
  lemma RejectionStays(a: Account, step: Step)
    requires a.request.Some? && a.request.value.reason == QuotaRejected
    requires step.Commit? && a.operation.Reading? ==>
               !Commits(a, step.read, step.at) || a.request.value.due > a.operation.started
    ensures var r := Next(a, step).request;
            r.Some? && r.value.reason == QuotaRejected && r.value.due >= a.request.value.due
  {
    hide Due, Unconfirmed, Scheduled, Settled, Complete, RetryAt, Active;
  }

  /** A commit that deletes a rejection's request deletes the block it was made for. */
  lemma DeletedTogether(a: Account, read: Usage, started: int, at: int)
    requires BlockPending(a) && a.block.Some?
    ensures var a' := Committed(a, read, started, at);
            a'.block.None? || (a'.block == a.block && a'.request.Some? && a'.request.value.reason == QuotaRejected)
    ensures a.request.value.due <= started && Commits(a, read, at) ==> Committed(a, read, started, at).block.None?
  {
    hide Due, Unconfirmed, Scheduled, Settled, Complete, RetryAt, Active;
  }

  // Watermarks, at any times.

  /** The window a step schedules from: the committed read's, or the stored one. */
  function Seen(a: Account, step: Step): Usage {
    if step.Commit? && a.operation.Reading? && Commits(a, step.read, step.at) then step.read else a.usage
  }

  /** Whether a claim takes the account. */
  predicate Takes(a: Account, now: int) { Claimable(ResetRequested(ScheduledBoth(a, now), now), now) }

  /** What a step does to the poll of one window, given the reset it sees. */
  function PollNext(a: Account, step: Step, poll: Option<Poll>, reset: Option<int>): Option<Poll> {
    match step
    case Claim(now) =>
      if Takes(a, now) then Settled(Scheduled(poll, reset, now), now) else Scheduled(poll, reset, now)
    case Commit(read, at, _) =>
      if a.operation.Reading? && Commits(a, read, at)
      then Scheduled(Settled(poll, a.operation.started), reset, at) else poll
    case _ => poll
  }

  lemma BothPolls(a: Account, step: Step)
    ensures Next(a, step).short == PollNext(a, step, a.short, Seen(a, step).short.reset)
    ensures Next(a, step).weekly == PollNext(a, step, a.weekly, Seen(a, step).weekly.reset)
  {
    hide Due, Unconfirmed, Complete, RetryAt, Active, Requested, Scheduled, Settled, Claimable;
  }

  function TimeOf(step: Step): int {
    match step
    case Reject(now) => now
    case Ask(_, due) => due
    case Claim(now) => now
    case Begin(now) => now
    case Start(now) => now
    case Commit(_, at, _) => at
    case Give(now) => now
    case Change(now, _, _) => now
  }

  /** A watermark never goes back, and a reset that has happened but is not polled is never overwritten:
      it stays until the watermark has reached it. */
  lemma WindowKept(a: Account, step: Step, p: Poll, reset: Option<int>)
    ensures var p' := PollNext(a, step, Some(p), reset);
            && p'.Some? && p'.value.polled >= p.polled
            && (Unpolled(p) && p.reset <= Seconds(TimeOf(step)) ==>
                 p'.value.reset == p.reset || p'.value.polled >= p.reset)
  {
    hide Takes, Commits;
  }

  predicate Kept(p: Option<Poll>, p': Option<Poll>, now: int) {
    p.Some? ==>
      && p'.Some? && p'.value.polled >= p.value.polled
      && (Unpolled(p.value) && p.value.reset <= Seconds(now) ==>
           p'.value.reset == p.value.reset || p'.value.polled >= p.value.reset)
  }

  /** No reset that has happened is forgotten, whatever the step and its time. */
  lemma HappenedStays(a: Account, step: Step)
    ensures Kept(a.short, Next(a, step).short, TimeOf(step)) && Kept(a.weekly, Next(a, step).weekly, TimeOf(step))
  {
    hide PollNext, Next;
    BothPolls(a, step);
    if a.short.Some? { WindowKept(a, step, a.short.value, Seen(a, step).short.reset); }
    if a.weekly.Some? { WindowKept(a, step, a.weekly.value, Seen(a, step).weekly.reset); }
  }

  // Runs along a clock: claims and reads take their times from one clock that does not go back.

  datatype World = World(account: Account, clock: int, lastRead: int)

  predicate OnTime(w: World, step: Step) {
    match step
    case Claim(now) => now >= w.clock
    case Begin(now) => now >= w.clock
    case Commit(_, at, _) => w.account.operation.Reading? ==> at >= w.account.operation.started
    case _ => true
  }

  /** `lastRead` is when the latest committed complete read began. */
  function Tick(w: World, step: Step): World {
    World(Next(w.account, step),
          if step.Claim? || step.Begin? then step.now else w.clock,
          if step.Commit? && w.account.operation.Reading? && Commits(w.account, step.read, step.at)
          then Max(w.lastRead, w.account.operation.started) else w.lastRead)
  }

  function Clocked(clock: int, steps: seq<Step>): World {
    if steps == [] then World(Fresh(), clock, 0)
    else Tick(Clocked(clock, steps[..|steps| - 1]), steps[|steps| - 1])
  }

  predicate InTime(clock: int, steps: seq<Step>) {
    steps == [] ||
    (InTime(clock, steps[..|steps| - 1]) &&
     OnTime(Clocked(clock, steps[..|steps| - 1]), steps[|steps| - 1]))
  }

  /** A watermark: a positive reset, polled at the latest at the given time. */
  predicate PollOk(poll: Option<Poll>, latest: int) {
    poll.Some? ==> poll.value.reset > 0 && poll.value.polled >= 0 &&
                   (poll.value.polled > 0 ==> poll.value.polled * 1000 + GRACE_MS <= latest)
  }

  /** The last polled reset was read after the grace, or a request for that read is pending. */
  predicate Answered(poll: Option<Poll>, lastRead: int, pending: bool) {
    poll.Some? && poll.value.polled > 0 ==> lastRead >= poll.value.polled * 1000 + GRACE_MS || pending
  }

  /** An exhausted window has a request pending, or its own reset is still to be polled. */
  predicate Attended(w: Window, poll: Option<Poll>, pending: bool) {
    Exhausted(w) ==> pending || (poll.Some? && Unpolled(poll.value))
  }

  predicate Inv(w: World) {
    var a := w.account;
    var latest := if a.operation.Reading? then a.operation.started else w.clock;
    && 0 <= latest <= w.clock
    && PollOk(a.short, latest) && PollOk(a.weekly, latest)
    && Answered(a.short, w.lastRead, a.request.Some?) && Answered(a.weekly, w.lastRead, a.request.Some?)
    && Attended(a.usage.short, a.short, a.request.Some?) && Attended(a.usage.weekly, a.weekly, a.request.Some?)
  }

  lemma ScheduledOk(poll: Option<Poll>, reset: Option<int>, now: int, latest: int)
    requires PollOk(poll, latest)
    ensures PollOk(Scheduled(poll, reset, now), latest)
    ensures poll.Some? && Unpolled(poll.value) ==>
              Scheduled(poll, reset, now).Some? && Unpolled(Scheduled(poll, reset, now).value)
    ensures Scheduled(poll, reset, now).Some? ==>
              Scheduled(poll, reset, now).value.polled == if poll.Some? then poll.value.polled else 0
  {
  }

  lemma SettledOk(poll: Option<Poll>, started: int, latest: int)
    requires PollOk(poll, latest) && latest <= started
    ensures PollOk(Settled(poll, started), started)
  {
  }

  /** A window read as exhausted, its reset still ahead, leaves an unpolled reset. */
  lemma AheadUnpolled(poll: Option<Poll>, reset: int, started: int, at: int)
    requires PollOk(poll, started) && 0 <= started <= at && reset > Seconds(at)
    ensures var p := Scheduled(poll, Some(reset), at); p.Some? && Unpolled(p.value)
  {
  }

  lemma ClaimInv(w: World, now: int)
    requires Inv(w) && now >= w.clock
    ensures Inv(Tick(w, Claim(now)))
  {
    hide Scheduled, Settled, Due, Active, Unconfirmed, Complete, PollOk, Unpolled;
    var a := w.account;
    var latest := if a.operation.Reading? then a.operation.started else w.clock;
    BothPolls(a, Claim(now));
    ScheduledOk(a.short, a.usage.short.reset, now, latest);
    ScheduledOk(a.weekly, a.usage.weekly.reset, now, latest);
    LaterOk(Scheduled(a.short, a.usage.short.reset, now), latest, now);
    LaterOk(Scheduled(a.weekly, a.usage.weekly.reset, now), latest, now);
    if Takes(a, now) {
      SettledOk(Scheduled(a.short, a.usage.short.reset, now), now, latest);
      SettledOk(Scheduled(a.weekly, a.usage.weekly.reset, now), now, latest);
    }
  }

  lemma LaterOk(poll: Option<Poll>, latest: int, later: int)
    requires PollOk(poll, latest) && latest <= later
    ensures PollOk(poll, later)
  {
  }

  /** After a commit both windows are scheduled on top of what the read settled. */
  lemma CommitPolls(w: World, read: Usage, at: int, ends: bool)
    requires Inv(w) && w.account.operation.Reading? && Commits(w.account, read, at)
    ensures var a, s := w.account, w.account.operation.started;
            var a' := Next(a, Commit(read, at, ends));
            && a'.short == Scheduled(Settled(a.short, s), read.short.reset, at) && PollOk(Settled(a.short, s), s)
            && a'.weekly == Scheduled(Settled(a.weekly, s), read.weekly.reset, at) && PollOk(Settled(a.weekly, s), s)
            && PollOk(a'.short, s) && PollOk(a'.weekly, s)
  {
    hide Scheduled, Settled, PollOk, Next, Complete;
    var a, s := w.account, w.account.operation.started;
    BothPolls(a, Commit(read, at, ends));
    SettledOk(a.short, s, s);
    SettledOk(a.weekly, s, s);
    ScheduledOk(Settled(a.short, s), read.short.reset, at, s);
    ScheduledOk(Settled(a.weekly, s), read.weekly.reset, at, s);
  }

  /** A window read as exhausted leaves a request or an unpolled reset of its own behind. */
  lemma CommitExhausted(w: World, read: Usage, at: int, ends: bool)
    requires Inv(w) && w.account.operation.Reading? && Commits(w.account, read, at) && at >= w.account.operation.started
    ensures var a' := Next(w.account, Commit(read, at, ends));
            Attended(read.short, a'.short, a'.request.Some?) && Attended(read.weekly, a'.weekly, a'.request.Some?)
  {
    var a, s := w.account, w.account.operation.started;
    CommitPolls(w, read, at, ends);
    if Unconfirmed(read.short, at) || Unconfirmed(read.weekly, at) {
      UnconfirmedAsks(a, read, s, at);
    } else {
      hide Scheduled, Settled, PollOk, Next, Unpolled;
      if Exhausted(read.short) {
        AheadUnpolled(Settled(a.short, s), read.short.reset.value, s, at);
      }
      if Exhausted(read.weekly) {
        AheadUnpolled(Settled(a.weekly, s), read.weekly.reset.value, s, at);
      }
    }
  }

  lemma UnconfirmedAsks(a: Account, read: Usage, started: int, at: int)
    requires Commits(a, read, at) && (Unconfirmed(read.short, at) || Unconfirmed(read.weekly, at))
    ensures Committed(a, read, started, at).request.Some?
  {
    hide Scheduled, Settled, Unconfirmed, Complete;
  }

  lemma CommitInv(w: World, read: Usage, at: int, ends: bool)
    requires Inv(w) && OnTime(w, Commit(read, at, ends))
    ensures Inv(Tick(w, Commit(read, at, ends)))
  {
    hide Due, Active, Complete, Scheduled, Settled, Exhausted, Unconfirmed, Unpolled;
    if w.account.operation.Reading? && Commits(w.account, read, at) {
      CommitPolls(w, read, at, ends);
      CommitExhausted(w, read, at, ends);
    }
  }

  lemma StepInv(w: World, step: Step)
    requires Inv(w) && OnTime(w, step)
    ensures Inv(Tick(w, step))
  {
    match step
    case Claim(now) => hide Inv; ClaimInv(w, now);
    case Commit(read, at, ends) => hide Inv; CommitInv(w, read, at, ends);
    case Reject(now) => hide PollOk;
    case Ask(_, _) => hide PollOk;
    case Begin(now) =>
    case Start(_) => hide PollOk;
    case Give(_) =>
    case Change(_, _, _) => hide PollOk;
  }

  lemma {:induction false} ClockedInv(clock: int, steps: seq<Step>)
    requires InTime(clock, steps) && clock >= 0
    ensures Inv(Clocked(clock, steps))
  {
    if steps != [] {
      hide Inv, OnTime, Tick;
      ClockedInv(clock, steps[..|steps| - 1]);
      StepInv(Clocked(clock, steps[..|steps| - 1]), steps[|steps| - 1]);
    }
  }

  /** No reset is lost: in every run the last polled reset of a window was followed by a committed complete
      read that began at least the grace after it, or a request for that read is still pending. */
  lemma {:induction false} NoResetLost(clock: int, steps: seq<Step>)
    requires InTime(clock, steps) && clock >= 0
    ensures var w := Clocked(clock, steps);
            && Answered(w.account.short, w.lastRead, w.account.request.Some?)
            && Answered(w.account.weekly, w.lastRead, w.account.request.Some?)
  {
    ClockedInv(clock, steps);
  }

  /** No exhausted window is stranded: a request is pending, or the reset of that very window is still to be
      polled. */
  lemma NoneStranded(clock: int, steps: seq<Step>)
    requires InTime(clock, steps) && clock >= 0
    ensures var a := Clocked(clock, steps).account;
            && (Exhausted(a.usage.short) ==> a.request.Some? || (a.short.Some? && Unpolled(a.short.value)))
            && (Exhausted(a.usage.weekly) ==> a.request.Some? || (a.weekly.Some? && Unpolled(a.weekly.value)))
  {
    ClockedInv(clock, steps);
  }

  /** Once the unpolled reset of an exhausted window is over by the grace, the next claim finds a request. */
  lemma ClaimFindsRequest(a: Account, now: int)
    requires Exhausted(a.usage.short) || Exhausted(a.usage.weekly)
    requires (a.short.Some? && Unpolled(a.short.value) && 0 < a.short.value.reset <= Seconds(now - GRACE_MS)) ||
             (a.weekly.Some? && Unpolled(a.weekly.value) && 0 < a.weekly.value.reset <= Seconds(now - GRACE_MS))
    ensures Claimed(a, now).request.Some?
    ensures a.eligible && a.operation == Idle && a.request.None? ==> Claimed(a, now).operation == Queued
  {
    hide Settled;
  }

  /** A pending request is claimed once it is due, unless a reset's request took its place, which is due then. */
  lemma DueIsClaimed(a: Account, now: int)
    requires a.request.Some? && a.request.value.due <= now && a.request.value.nextAttempt <= now
    requires a.eligible && a.operation == Idle
    requires (a.short.Some? ==> a.short.value.reset > 0) && (a.weekly.Some? ==> a.weekly.value.reset > 0)
    ensures Claimed(a, now).operation == Queued
  {
    hide Settled, Active;
  }

  /** When a window that cannot be used is read again at the latest, judging by the rows of its account. */
  function WakeAt(a: Account, poll: Option<Poll>): int {
    if a.request.Some? then Max(a.request.value.due, a.request.value.nextAttempt)
    else if poll.Some? then poll.value.reset * 1000 + GRACE_MS
    else 0
  }

  /** The run along a clock is one of the runs at arbitrary times. */
  lemma {:induction false} ClockedRuns(clock: int, steps: seq<Step>)
    ensures Clocked(clock, steps).account == Run(steps)
  {
    if steps != [] {
      hide Next;
      ClockedRuns(clock, steps[..|steps| - 1]);
    }
  }

  /** Whatever stops clients from using an account also brings its next read: in every run the first claim at or
      after `WakeAt` takes a blocked account, and one with an exhausted window, as soon as it is eligible and idle. */
  lemma UnusableIsRead(clock: int, steps: seq<Step>, now: int)
    requires InTime(clock, steps) && clock >= 0
    ensures var a := Clocked(clock, steps).account;
            a.eligible && a.operation == Idle ==>
              && (a.block.Some? && now >= WakeAt(a, None) ==> Claimed(a, now).operation == Queued)
              && (Exhausted(a.usage.short) && now >= WakeAt(a, a.short) ==> Claimed(a, now).operation == Queued)
              && (Exhausted(a.usage.weekly) && now >= WakeAt(a, a.weekly) ==> Claimed(a, now).operation == Queued)
  {
    hide Claimed, Claimable;
    var w := Clocked(clock, steps);
    var a := w.account;
    ClockedInv(clock, steps);
    NoneStranded(clock, steps);
    ClockedRuns(clock, steps);
    BlockedIsPending(steps);
    if a.eligible && a.operation == Idle {
      if a.request.Some? {
        if now >= WakeAt(a, None) { DueIsClaimed(a, now); }
      } else {
        if Exhausted(a.usage.short) && now >= WakeAt(a, a.short) { ClaimFindsRequest(a, now); }
        if Exhausted(a.usage.weekly) && now >= WakeAt(a, a.weekly) { ClaimFindsRequest(a, now); }
      }
    }
  }
}
