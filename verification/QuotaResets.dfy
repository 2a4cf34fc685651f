/** Quota blocks, refresh requests and reset watermarks of the broker's accounts (internal/broker/router.go,
    usage_poll.go, reset_poll.go and commitUsageAt in credentials.go).  Times are milliseconds, resets seconds. */
module QuotaResets {
  import opened Base

  type Id = nat

  const RETRY_MS := 300000

  datatype Reason = WindowReset | QuotaRejected | ResetUnconfirmed | Rotation | RelayReconcile

  predicate Critical(r: Reason) { r == WindowReset || r == QuotaRejected || r == ResetUnconfirmed }

  datatype Request = Request(due: int, reason: Reason, nextAttempt: int)

  datatype Block = Block(at: int, retry: int)

  /** The reset a window waits for, and the last reset whose read was taken care of. */
  datatype Poll = Poll(reset: int, polled: int)

  datatype Window = Window(used: Option<int>, reset: Option<int>)

  datatype Usage = Usage(short: Window, weekly: Window, readAt: Option<int>)

  datatype Operation = Idle | Queued | Reading(started: int)

  /** `rolling` is false for an idle account whose windows do not start by themselves; `eligible` says that
      the account may be refreshed at all. */
  datatype Account = Account(
    request: Option<Request>, block: Option<Block>, short: Option<Poll>, weekly: Option<Poll>,
    usage: Usage, operation: Operation, eligible: bool, rolling: bool)

  // Refresh requests and blocks.

  function Requested(current: Option<Request>, reason: Reason, due: int): Option<Request> {
    if current.None? then Some(Request(due, reason, 0))
    else if !Critical(current.value.reason) || Critical(reason) then
      Some(Request(Max(current.value.due, due), reason, 0))
    else current
  }

  /** The earlier of the account's resets that lie ahead. */
  function RetryAt(usage: Usage, now: int): int {
    var first := if usage.short.reset.Some? && usage.short.reset.value > Seconds(now)
                 then Min(NEVER, usage.short.reset.value * 1000) else NEVER;
    if usage.weekly.reset.Some? && usage.weekly.reset.value > Seconds(now)
    then Min(first, usage.weekly.reset.value * 1000) else first
  }

  function Blocked(a: Account, now: int): Account {
    a.(block := if a.block.None? || now >= a.block.value.at then Some(Block(now, RetryAt(a.usage, now))) else a.block,
       request := Requested(a.request, QuotaRejected, now + GRACE_MS))
  }

  // Reset watermarks.

  predicate Unpolled(p: Poll) { p.reset > p.polled }

  /** A reset that has happened stays until it is polled; one still ahead follows the latest read. */
  function Scheduled(poll: Option<Poll>, reset: Option<int>, now: int): Option<Poll> {
    if reset.None? || reset.value <= 0 then poll
    else if poll.None? then Some(Poll(reset.value, 0))
    else
      var p := poll.value;
      if reset.value > p.polled && reset.value != p.reset && (p.reset <= p.polled || p.reset > Seconds(now))
      then Some(p.(reset := reset.value)) else poll
  }

  function ScheduledBoth(a: Account, now: int): Account {
    a.(short := Scheduled(a.short, a.usage.short.reset, now), weekly := Scheduled(a.weekly, a.usage.weekly.reset, now))
  }

  function Settled(poll: Option<Poll>, started: int): Option<Poll> {
    if poll.Some? && poll.value.reset <= Seconds(started - GRACE_MS) && Unpolled(poll.value)
    then Some(poll.value.(polled := poll.value.reset)) else poll
  }

  function SettledBoth(a: Account, started: int): Account {
    a.(short := Settled(a.short, started), weekly := Settled(a.weekly, started))
  }

  // Claiming refreshes.

  /** The window's reset is over by the grace and no read was taken care of, or taken, since. */
  predicate Due(poll: Option<Poll>, usage: Usage, now: int) {
    poll.Some? && poll.value.reset <= Seconds(now - GRACE_MS) &&
    (Unpolled(poll.value) ||
     (if usage.readAt.Some? then usage.readAt.value else 0) < poll.value.reset * 1000 + GRACE_MS)
  }

  predicate Active(a: Account) {
    || a.rolling || (a.usage.short.used.Some? && a.usage.short.used.value > 0)
    || (a.usage.weekly.used.Some? && a.usage.weekly.used.value > 0) || a.block.Some?
  }

  function EarliestDue(a: Account, now: int): int
    requires Due(a.short, a.usage, now) || Due(a.weekly, a.usage, now)
  {
    if Due(a.short, a.usage, now) && Due(a.weekly, a.usage, now) then Min(a.short.value.reset, a.weekly.value.reset)
    else if Due(a.short, a.usage, now) then a.short.value.reset
    else a.weekly.value.reset
  }

  function ResetRequested(a: Account, now: int): Account {
    if (Due(a.short, a.usage, now) || Due(a.weekly, a.usage, now)) && Active(a) &&
       (a.request.None? || !Critical(a.request.value.reason))
    then a.(request := Some(Request(EarliestDue(a, now) * 1000 + GRACE_MS, WindowReset, 0)))
    else a
  }

  predicate Claimable(a: Account, now: int) {
    && a.request.Some? && a.request.value.due <= now && a.request.value.nextAttempt <= now
    && a.eligible && a.operation == Idle
  }

  /** Claim a request: queue a read and take over the resets it will cover. */
  function Taken(a: Account, now: int): Account {
    if !Claimable(a, now) then a
    else
      SettledBoth(a.(operation := Queued, request := Some(a.request.value.(nextAttempt := now + RETRY_MS))), now)
  }

  function Claimed(a: Account, now: int): Account { Taken(ResetRequested(ScheduledBoth(a, now), now), now) }

  // Committing a read.

  predicate Complete(u: Usage) {
    && u.short.used.Some? && 0 <= u.short.used.value <= 100
    && u.weekly.used.Some? && 0 <= u.weekly.used.value <= 100
  }

  predicate Exhausted(w: Window) { w.used.Some? && w.used.value >= 100 }

  /** Exhausted, and its reset is unknown or already past. */
  predicate Unconfirmed(w: Window, at: int) {
    Exhausted(w) && (w.reset.None? || w.reset.value <= Seconds(at))
  }

  predicate Commits(a: Account, read: Usage, at: int) {
    Complete(read) && (a.usage.readAt.None? || a.usage.readAt.value <= at)
  }

  /** Delete what the read covers: requests due and blocks old enough before it began. */
  function Covered(a: Account, started: int): Account {
    var request := if a.request.Some? && a.request.value.due <= started then None else a.request;
    var a1 := SettledBoth(a.(request := request), started);
    a1.(block := if a1.block.Some? && a1.block.value.at <= started - GRACE_MS then None else a1.block)
  }

  function Committed(a: Account, read: Usage, started: int, at: int): Account {
    if !Commits(a, read, at) then a
    else
      var a1 := Covered(a.(usage := read.(readAt := Some(at))), started);
      var a2 := if (Unconfirmed(read.short, at) || Unconfirmed(read.weekly, at)) && a1.request.None?
                then a1.(request := Some(Request(at + RETRY_MS, ResetUnconfirmed, 0))) else a1;
      ScheduledBoth(a2, at)
  }

  class Broker {
    var accounts: map<Id, Account>

    constructor (accounts: map<Id, Account>)
      ensures this.accounts == accounts
    {
      this.accounts := accounts;
    }

    method RequestUsageRefresh(id: Id, reason: Reason, due: int)
      requires id in accounts
      modifies this
      ensures var a := old(accounts)[id];
              accounts == old(accounts)[id := a.(request := Requested(a.request, reason, due))]
    {
      var a := accounts[id];
      if a.request.None? {
        a := a.(request := Some(Request(due, reason, 0)));
      } else if !Critical(a.request.value.reason) || Critical(reason) {
        a := a.(request := Some(Request(Max(a.request.value.due, due), reason, 0)));
      }
      accounts := accounts[id := a];
    }

    method BlockQuota(id: Id, now: int)
      requires id in accounts
      modifies this
      ensures accounts == old(accounts)[id := Blocked(old(accounts)[id], now)]
    {
      var a, retry := accounts[id], NEVER;
      var resets := [a.usage.short.reset, a.usage.weekly.reset];
      for i := 0 to 2
        invariant retry == if i == 0 then NEVER
                           else if i == 1 then RetryAt(a.usage.(weekly := a.usage.weekly.(reset := None)), now)
                           else RetryAt(a.usage, now)
      {
        if resets[i].Some? && resets[i].value > Seconds(now) && resets[i].value * 1000 < retry {
          retry := resets[i].value * 1000;
        }
      }
      if a.block.None? || now >= a.block.value.at {
        a := a.(block := Some(Block(now, retry)));
      }
      accounts := accounts[id := a];
      RequestUsageRefresh(id, QuotaRejected, now + GRACE_MS);
    }

    method ScheduleUsageResets(id: Id, now: int)
      requires id in accounts
      modifies this
      ensures accounts == old(accounts)[id := ScheduledBoth(old(accounts)[id], now)]
    {
      var a := accounts[id];
      var short := SchedulePoll(a.short, a.usage.short.reset, now);
      var weekly := SchedulePoll(a.weekly, a.usage.weekly.reset, now);
      accounts := accounts[id := a.(short := short, weekly := weekly)];
    }

    method SettleUsageResets(id: Id, started: int)
      requires id in accounts
      modifies this
      ensures accounts == old(accounts)[id := SettledBoth(old(accounts)[id], started)]
    {
      var a := accounts[id];
      if a.short.Some? && a.short.value.reset <= Seconds(started - GRACE_MS) &&
        a.short.value.reset > a.short.value.polled {
        a := a.(short := Some(a.short.value.(polled := a.short.value.reset)));
      }
      if a.weekly.Some? && a.weekly.value.reset <= Seconds(started - GRACE_MS) &&
        a.weekly.value.reset > a.weekly.value.polled {
        a := a.(weekly := Some(a.weekly.value.(polled := a.weekly.value.reset)));
      }
      accounts := accounts[id := a];
    }

    /** The part of a claiming transaction that concerns one account. */
    method ClaimOne(id: Id, now: int) returns (claimed: bool)
      requires id in accounts
      modifies this
      ensures accounts == old(accounts)[id := Claimed(old(accounts)[id], now)]
      ensures claimed == Claimable(ResetRequested(ScheduledBoth(old(accounts)[id], now), now), now)
    {
      hide ScheduledBoth, SettledBoth, ResetRequested, Claimable;
      ScheduleUsageResets(id, now);
      var a := ResetRequested(accounts[id], now);
      accounts := accounts[id := a];
      claimed := Claimable(a, now);
      if claimed {
        ClaimableHasRequest(a, now);
        var request := a.request.value.(nextAttempt := now + RETRY_MS);
        accounts := accounts[id := a.(operation := Queued, request := Some(request))];
        SettleUsageResets(id, now);
      }
    }

    /** One transaction over all accounts; the accounts whose reads are to start. */
    method ClaimResetRefreshes(now: int) returns (claimed: set<Id>)
      modifies this
      ensures accounts.Keys == old(accounts).Keys
      ensures forall id | id in accounts :: accounts[id] == Claimed(old(accounts)[id], now)
      ensures forall id | id in accounts ::
                id in claimed <==> Claimable(ResetRequested(ScheduledBoth(old(accounts)[id], now), now), now)
    {
      hide Claimed, Claimable, ResetRequested, ScheduledBoth;
      claimed := {};
      ghost var before := accounts;
      var left := accounts.Keys;
      while left != {}
        invariant left <= before.Keys == accounts.Keys && claimed <= before.Keys && claimed !! left
        invariant forall id | id in left :: accounts[id] == before[id]
        invariant forall id | id in before && id !in left :: accounts[id] == Claimed(before[id], now)
        invariant forall id | id in before && id !in left ::
          id in claimed <==> Claimable(ResetRequested(ScheduledBoth(before[id], now), now), now)
        decreases |left|
      {
        var id :| id in left;
        left := left - {id};
        var taken := ClaimOne(id, now);
        if taken {
          claimed := claimed + {id};
        }
      }
    }

    method CommitUsageAt(id: Id, read: Usage, started: int, at: int) returns (ok: bool)
      requires id in accounts
      modifies this
      ensures accounts == old(accounts)[id := Committed(old(accounts)[id], read, started, at)]
      ensures ok == Commits(old(accounts)[id], read, at)
    {
      hide SettledBoth, ScheduledBoth, Unconfirmed, Complete;
      var a := accounts[id];
      if !Complete(read) || (a.usage.readAt.Some? && a.usage.readAt.value > at) {
        return false;
      }
      a := a.(usage := read.(readAt := Some(at)));
      if a.request.Some? && a.request.value.due <= started {
        a := a.(request := None);
      }
      accounts := accounts[id := a];
      SettleUsageResets(id, started);
      assert accounts == old(accounts)[id := SettledBoth(a, started)];
      a := accounts[id];
      if a.block.Some? && a.block.value.at <= started - GRACE_MS {
        a := a.(block := None);
      }
      if (Unconfirmed(read.short, at) || Unconfirmed(read.weekly, at)) && a.request.None? {
        a := a.(request := Some(Request(at + RETRY_MS, ResetUnconfirmed, 0)));
      }
      accounts := accounts[id := a];
      assert accounts == old(accounts)[id := a];
      ScheduleUsageResets(id, at);
      assert accounts == old(accounts)[id := ScheduledBoth(a, at)];
      return true;
    }
  }

  lemma ClaimableHasRequest(a: Account, now: int)
    requires Claimable(a, now)
    ensures a.request.Some?
  {
  }

  method SchedulePoll(poll: Option<Poll>, reset: Option<int>, now: int) returns (r: Option<Poll>)
    ensures r == Scheduled(poll, reset, now)
  {
    if reset.None? || reset.value <= 0 {
      return poll;
    }
    if poll.None? {
      return Some(Poll(reset.value, 0));
    }
    var p := poll.value;
    if reset.value > p.polled && reset.value != p.reset && (p.reset <= p.polled || p.reset > Seconds(now)) {
      p := p.(reset := reset.value);
    }
    return Some(p);
  }
}
