/** Choosing an account for a client request, or when to retry (Route, exhausted, rankLess and nextRetry in
    internal/broker/router.go).  Times are milliseconds, resets seconds. */
module Routing {
  import opened Base
  import Q = QuotaResets

  const RELEASE_WAIT_MS := 10000

  datatype Cycle = Held | Releasing | InCycle

  datatype Account = Account(
    id: nat, public: nat, created: int,
    shortUsed: Option<int>, shortReset: Option<int>, weeklyUsed: Option<int>, weeklyReset: Option<int>,
    excludedUntil: Option<int>, blockedUntil: Option<int>, blockedAt: int, cycle: Cycle, reservedUntil: Option<int>)

  predicate Full(used: Option<int>) { used.Some? && used.value >= 100 }

  /** A quota block exhausts an account whatever its percentages say. */
  predicate Exhausted(a: Account) { a.blockedUntil.Some? || Full(a.shortUsed) || Full(a.weeklyUsed) }

  predicate Ahead(time: Option<int>, now: int) { time.Some? && time.value > now }

  predicate Available(a: Account, now: int) { !Exhausted(a) && !Ahead(a.excludedUntil, now) }

  /** May be chosen at once, or only if no other may. */
  predicate Usable(a: Account, now: int, pulse: bool) { Available(a, now) && (pulse ==> a.cycle == InCycle) }

  predicate Reserve(a: Account, now: int, pulse: bool) {
    Available(a, now) && pulse && a.cycle == Held && !Ahead(a.reservedUntil, now)
  }

  // The preference order.

  function FutureReset(reset: Option<int>, now: int): int {
    if reset.Some? && reset.value * 1000 > now then reset.value else NEVER
  }

  /** Earlier weekly reset, then earlier short reset, then the preferred account, then the older one. */
  predicate RankLess(a: Account, b: Account, preferred: nat, now: int) {
    var aw, bw := FutureReset(a.weeklyReset, now), FutureReset(b.weeklyReset, now);
    var sa, sb := FutureReset(a.shortReset, now), FutureReset(b.shortReset, now);
    if aw != bw then aw < bw
    else if sa != sb then sa < sb
    else if (a.public != preferred) != (b.public != preferred) then a.public == preferred
    else if a.created != b.created then a.created < b.created
    else a.id < b.id
  }

  lemma RankTransitive(a: Account, b: Account, c: Account, preferred: nat, now: int)
    requires RankLess(a, b, preferred, now) && RankLess(b, c, preferred, now)
    ensures RankLess(a, c, preferred, now)
  {
    hide FutureReset;
  }

  /** Of two different accounts exactly one is preferred. */
  lemma RankTotal(a: Account, b: Account, preferred: nat, now: int)
    ensures !(RankLess(a, b, preferred, now) && RankLess(b, a, preferred, now))
    ensures a.id != b.id ==> RankLess(a, b, preferred, now) || RankLess(b, a, preferred, now)
  {
    hide FutureReset;
  }

  predicate DistinctIds(accounts: seq<Account>) {
    forall i, j | 0 <= i < j < |accounts| :: accounts[i].id != accounts[j].id
  }

  /** The account is preferred to every other of the list. */
  predicate Best(accounts: seq<Account>, best: Account, preferred: nat, now: int) {
    best in accounts && forall a | a in accounts && a != best :: RankLess(best, a, preferred, now)
  }

  /** The choice does not depend on the order of the list. */
  lemma BestUnique(xs: seq<Account>, ys: seq<Account>, a: Account, b: Account, preferred: nat, now: int)
    requires (forall x :: x in xs <==> x in ys) && Best(xs, a, preferred, now) && Best(ys, b, preferred, now)
    ensures a == b
  {
    RankTotal(a, b, preferred, now);
  }

  method First(accounts: seq<Account>, preferred: nat, now: int) returns (best: Account)
    requires accounts != [] && DistinctIds(accounts)
    ensures Best(accounts, best, preferred, now)
  {
    hide RankLess;
    best := accounts[0];
    for i := 1 to |accounts|
      invariant best in accounts[..i]
      invariant forall j | 0 <= j < i && accounts[j] != best :: RankLess(best, accounts[j], preferred, now)
    {
      var former := best;
      RankTotal(best, accounts[i], preferred, now);
      if RankLess(accounts[i], best, preferred, now) {
        forall j | 0 <= j < i && accounts[j] != former ensures RankLess(accounts[i], accounts[j], preferred, now) {
          RankTransitive(accounts[i], former, accounts[j], preferred, now);
        }
        best := accounts[i];
      }
    }
  }

  // When to retry.

  /** The latest reset, still ahead, of an exhausted window; 0 if there is none. */
  function AccountReset(a: Account, now: int): int {
    var short := if Full(a.shortUsed) && a.shortReset.Some? && a.shortReset.value * 1000 > now
                 then a.shortReset.value * 1000 else 0;
    var weekly := if Full(a.weeklyUsed) && a.weeklyReset.Some? && a.weeklyReset.value * 1000 > now
                  then a.weeklyReset.value * 1000 else 0;
    var later := if short > 0 then short else 0;
    if weekly > later then weekly else later
  }

  /** The broker will look at the account by itself within the grace. */
  predicate Watched(a: Account, now: int) {
    a.blockedUntil.Some? || (Exhausted(a) && AccountReset(a, now) == 0 && (a.shortReset.Some? || a.weeklyReset.Some?))
  }

  /** The moments at which something about the account is known to change. */
  predicate Moment(a: Account, now: nat, t: int) {
    || (now < t < NEVER && (t == AccountReset(a, now) || a.excludedUntil == Some(t) || a.blockedUntil == Some(t)))
    || (Watched(a, now) && t == now + GRACE_MS)
  }

  predicate AnyMoment(accounts: seq<Account>, now: nat, t: int) {
    exists i | 0 <= i < |accounts| :: Moment(accounts[i], now, t)
  }

  datatype Choice = Use(account: Account) | Wait(until: int) | Unknown

  function Earlier(result: Option<int>, candidate: int): Option<int> {
    if result.None? || candidate < result.value then Some(candidate) else result
  }

  /** The least moment of one account. */
  method RetryOf(a: Account, now: nat) returns (retry: Option<int>)
    ensures retry.Some? ==> Moment(a, now, retry.value)
    ensures forall t | Moment(a, now, t) :: retry.Some? && retry.value <= t
  {
    retry := None;
    var candidates := [AccountReset(a, now), if a.excludedUntil.Some? then a.excludedUntil.value else 0,
                       if a.blockedUntil.Some? then a.blockedUntil.value else 0];
    for c := 0 to 3
      invariant retry.Some? ==> Moment(a, now, retry.value)
      invariant forall d | 0 <= d < c && now < candidates[d] < NEVER :: retry.Some? && retry.value <= candidates[d]
    {
      if now < candidates[c] < NEVER {
        assert Moment(a, now, candidates[c]);
        retry := Earlier(retry, candidates[c]);
      }
    }
    if Watched(a, now) {
      retry := Earlier(retry, now + GRACE_MS);
    }
    assert now < AccountReset(a, now) < NEVER ==> retry.Some? && retry.value <= candidates[0];
    assert Ahead(a.excludedUntil, now) && a.excludedUntil.value < NEVER ==> retry.Some? && retry.value <= candidates[1];
    assert Ahead(a.blockedUntil, now) && a.blockedUntil.value < NEVER ==> retry.Some? && retry.value <= candidates[2];
  }

  /** The least moment of any account. */
  method NextRetry(accounts: seq<Account>, now: nat) returns (retry: Option<int>)
    ensures retry.Some? ==> AnyMoment(accounts, now, retry.value)
    ensures forall t | AnyMoment(accounts, now, t) :: retry.Some? && retry.value <= t
  {
    hide Moment;
    retry := None;
    for i := 0 to |accounts|
      invariant retry.Some? ==> AnyMoment(accounts, now, retry.value)
      invariant forall k, t | 0 <= k < i && Moment(accounts[k], now, t) :: retry.Some? && retry.value <= t
    {
      var own := RetryOf(accounts[i], now);
      if own.Some? {
        retry := Earlier(retry, own.value);
      }
    }
  }

  /** Some account is about to enter the rotation. */
  predicate AnyReleasing(accounts: seq<Account>, now: int, pulse: bool) {
    exists i | 0 <= i < |accounts| :: Available(accounts[i], now) && pulse && accounts[i].cycle == Releasing
  }

  method Classify(accounts: seq<Account>, now: nat, pulse: bool)
    returns (usable: seq<Account>, held: seq<Account>, releasing: bool)
    requires DistinctIds(accounts)
    ensures DistinctIds(usable) && (forall a :: a in usable <==> a in accounts && Usable(a, now, pulse))
    ensures forall a :: a in held <==> a in accounts && Reserve(a, now, pulse)
    ensures releasing <==> AnyReleasing(accounts, now, pulse)
  {
    usable, held, releasing := [], [], false;
    for i := 0 to |accounts|
      invariant DistinctIds(usable) && forall a :: a in usable <==> a in accounts[..i] && Usable(a, now, pulse)
      invariant forall a :: a in held <==> a in accounts[..i] && Reserve(a, now, pulse)
      invariant releasing <==> exists k | 0 <= k < i ::
                  Available(accounts[k], now) && pulse && accounts[k].cycle == Releasing
    {
      var account := accounts[i];
      assert accounts[..i + 1] == accounts[..i] + [account];
      if Exhausted(account) || Ahead(account.excludedUntil, now) {
        continue;
      }
      if pulse {
        match account.cycle {
          case Held =>
            if !Ahead(account.reservedUntil, now) {
              held := held + [account];
            }
            continue;
          case Releasing =>
            releasing := true;
            continue;
          case InCycle =>
        }
      }
      forall k | 0 <= k < |usable| ensures usable[k].id != account.id { assert usable[k] in accounts[..i]; }
      usable := usable + [account];
    }
    assert accounts[..|accounts|] == accounts;
  }

  /** The broker looks at a blocked account by itself when the grace is over. */
  lemma BlockedMoment(accounts: seq<Account>, a: Account, now: nat)
    requires a in accounts && a.blockedUntil.Some?
    ensures AnyMoment(accounts, now, now + GRACE_MS)
  {
    var i :| 0 <= i < |accounts| && accounts[i] == a;
    assert Moment(accounts[i], now, now + GRACE_MS);
  }

  predicate AnyBlocked(accounts: seq<Account>) { exists i | 0 <= i < |accounts| :: accounts[i].blockedUntil.Some? }

  /** Never a blocked, exhausted or excluded account; the preferred usable one; a held one only if none is usable;
      else the right time to ask again, which with a blocked account comes no later than the grace. */
  ghost predicate Right(accounts: seq<Account>, preferred: nat, now: nat, pulse: bool, padding: nat, choice: Choice) {
    && (choice.Use? ==>
         choice.account in accounts && Available(choice.account, now) && choice.account.blockedUntil.None?)
    && (choice.Use? <==> exists a | a in accounts :: Usable(a, now, pulse) || Reserve(a, now, pulse))
    && (choice.Use? && Usable(choice.account, now, pulse) ==>
         forall a | a in accounts && Usable(a, now, pulse) && a != choice.account ::
           RankLess(choice.account, a, preferred, now))
    && (choice.Use? && !Usable(choice.account, now, pulse) ==> forall a | a in accounts :: !Usable(a, now, pulse))
    && (choice.Wait? ==>
         if AnyReleasing(accounts, now, pulse) then choice.until == now + RELEASE_WAIT_MS
         else
           && AnyMoment(accounts, now, choice.until - padding * 1000)
           && forall t | AnyMoment(accounts, now, t) :: choice.until - padding * 1000 <= t)
    && (choice.Unknown? ==> forall t :: !AnyMoment(accounts, now, t))
    && (AnyBlocked(accounts) && !AnyReleasing(accounts, now, pulse) ==>
         choice.Use? || (choice.Wait? && choice.until <= now + GRACE_MS + padding * 1000))
  }

  /** `pick` stands for the random choice among the held accounts. */
  method Choose(accounts: seq<Account>, preferred: nat, now: nat, pulse: bool, padding: nat, pick: nat)
    returns (choice: Choice)
    requires DistinctIds(accounts)
    ensures Right(accounts, preferred, now, pulse, padding, choice)
  {
    hide RankLess, Exhausted, AnyMoment;
    var usable, held, releasing := Classify(accounts, now, pulse);
    if usable == [] && held != [] {
      assert held[pick % |held|] in held;
      BlockedExhausted(held[pick % |held|]);
      return Use(held[pick % |held|]);
    }
    if usable != [] {
      var best := First(usable, preferred, now);
      BlockedExhausted(best);
      return Use(best);
    }
    if releasing {
      return Wait(now + RELEASE_WAIT_MS);
    }
    var retry := NextRetry(accounts, now);
    forall i | 0 <= i < |accounts| && accounts[i].blockedUntil.Some? ensures AnyMoment(accounts, now, now + GRACE_MS) {
      BlockedMoment(accounts, accounts[i], now);
    }
    return if retry.Some? then Wait(retry.value + padding * 1000) else Unknown;
  }

  lemma BlockedExhausted(a: Account)
    ensures !Exhausted(a) ==> a.blockedUntil.None?
  {
  }

  // A whole routing request: first what the client reports about its last account, then the choice.

  const EXCLUDED_MS := 300000
  const RATE_LIMITED_MS := 60000

  datatype Failure = NoFailure | QuotaFailure | AuthFailure | RateLimit | OtherFailure

  datatype Request = Request(failed: Option<nat>, kind: Failure, preferred: nat)

  /** `renewed`: the failed account's credential could be renewed; `revoked`: it turned out to be invalid, which takes
      the account out of the pool; `leased`: the chosen account's credential can be handed out. */
  datatype Calls = Calls(renewed: bool, revoked: bool, leased: bool)

  datatype Answer =
    Leased(account: Account) | LeaseFailed(account: Account) | Later(until: int) | ResetUnknown | FailedInvalid

  predicate DistinctPublics(accounts: seq<Account>) {
    forall i, j | 0 <= i < j < |accounts| :: accounts[i].public != accounts[j].public
  }

  predicate Named(accounts: seq<Account>, public: nat) {
    exists i | 0 <= i < |accounts| :: accounts[i].public == public
  }

  /** After an authentication failure the same account is tried once more with a renewed credential. */
  predicate Renewable(a: Account, request: Request, pulse: bool) {
    && request.failed == Some(a.public) && request.kind == AuthFailure
    && a.blockedUntil.None? && (pulse ==> a.cycle == InCycle)
  }

  /** When a block made now is expected to end, as `Q.Broker.BlockQuota` stores it. */
  function NextReset(a: Account, now: int): int {
    Q.RetryAt(Q.Usage(Q.Window(a.shortUsed, a.shortReset), Q.Window(a.weeklyUsed, a.weeklyReset), None), now)
  }

  /** A quota failure blocks the account for every client, any other excludes it for this one. */
  function Penalized(a: Account, kind: Failure, now: int): Account {
    if kind == QuotaFailure then
      if a.blockedUntil.Some? && a.blockedAt > now then a
      else a.(blockedUntil := Some(NextReset(a, now)), blockedAt := now)
    else
      var reset := AccountReset(a, now);
      a.(excludedUntil := Some(if reset != 0 then reset
                               else now + if kind == RateLimit then RATE_LIMITED_MS else EXCLUDED_MS))
  }

  /** The accounts after the reported failure was taken into account. */
  function AfterFailure(accounts: seq<Account>, request: Request, now: int, pulse: bool, revoked: bool): seq<Account> {
    if accounts == [] then []
    else
      var last := accounts[|accounts| - 1];
      var front := AfterFailure(accounts[..|accounts| - 1], request, now, pulse, revoked);
      if request.failed != Some(last.public) || request.kind == NoFailure then front + [last]
      else if revoked && Renewable(last, request, pulse) then front
      else front + [Penalized(last, request.kind, now)]
  }

  lemma {:induction false} AfterFailureOk(accounts: seq<Account>, request: Request, now: int, pulse: bool,
                                          revoked: bool)
    requires DistinctIds(accounts) && now >= 0
    ensures var after := AfterFailure(accounts, request, now, pulse, revoked);
            && DistinctIds(after)
            && (forall a | a in after :: exists b | b in accounts :: a.id == b.id && a.public == b.public)
            && (forall a | a in after && request.failed == Some(a.public) && request.kind != NoFailure ::
                 !Available(a, now))
            && (forall a | a in after && (request.failed != Some(a.public) || request.kind == NoFailure) ::
                 a in accounts)
  {
    if accounts != [] {
      hide AccountReset, NextReset, Renewable;
      var front, last := accounts[..|accounts| - 1], accounts[|accounts| - 1];
      AfterFailureOk(front, request, now, pulse, revoked);
      AheadOfReset(last, now);
      assert last in accounts;
      forall a | a in AfterFailure(front, request, now, pulse, revoked)
        ensures a.id != last.id && exists b | b in accounts :: a.id == b.id && a.public == b.public
      {
        var b :| b in front && a.id == b.id && a.public == b.public;
        assert b in accounts;
      }
    }
  }

  lemma AheadOfReset(a: Account, now: int)
    ensures AccountReset(a, now) != 0 ==> AccountReset(a, now) > now
  {
  }

  function MarkRouted(accounts: seq<Account>, id: nat, pulse: bool): (r: seq<Account>)
    ensures |r| == |accounts|
    ensures forall i | 0 <= i < |accounts| ::
              r[i] == if accounts[i].id == id && pulse && accounts[i].cycle == Held then accounts[i].(cycle := InCycle)
                      else accounts[i]
  {
    seq(|accounts|, i requires 0 <= i < |accounts| =>
      if accounts[i].id == id && pulse && accounts[i].cycle == Held
      then accounts[i].(cycle := InCycle) else accounts[i])
  }

  class Router {
    /** The accounts in the pool of one client, oldest first. */
    var accounts: seq<Account>

    constructor (accounts: seq<Account>)
      ensures this.accounts == accounts
    {
      this.accounts := accounts;
    }

    /** Take the failure into account; the renewed account if its credential could be renewed. */
    method Report(request: Request, now: nat, pulse: bool, calls: Calls) returns (renewed: Option<Account>)
      requires DistinctPublics(accounts)
      modifies this
      ensures renewed.Some? <==> calls.renewed && exists a | a in old(accounts) :: Renewable(a, request, pulse)
      ensures renewed.Some? ==>
                renewed.value in old(accounts) && Renewable(renewed.value, request, pulse) && accounts == old(accounts)
      ensures renewed.None? ==> accounts == AfterFailure(old(accounts), request, now, pulse, calls.revoked)
    {
      var after := [];
      for i := 0 to |accounts|
        invariant accounts == old(accounts)
        invariant after == AfterFailure(accounts[..i], request, now, pulse, calls.revoked)
        invariant calls.renewed ==> forall k | 0 <= k < i :: !Renewable(accounts[k], request, pulse)
      {
        hide AccountReset, NextReset, Renewable;
        var a := accounts[i];
        assert accounts[..i + 1][..i] == accounts[..i];
        if request.failed != Some(a.public) || request.kind == NoFailure {
          RenewableIsFailed(a, request, pulse);
          after := after + [a];
          continue;
        }
        if Renewable(a, request, pulse) {
          if calls.renewed {
            return Some(a);
          }
          if calls.revoked {
            continue;
          }
        }
        after := after + [Penalized(a, request.kind, now)];
      }
      assert accounts[..|accounts|] == accounts;
      accounts := after;
      return None;
    }

    method Route(request: Request, now: nat, pulse: bool, padding: nat, pick: nat, calls: Calls)
      returns (answer: Answer)
      requires DistinctIds(accounts) && DistinctPublics(accounts)
      modifies this
      ensures answer == FailedInvalid <==> request.failed.Some? && !Named(old(accounts), request.failed.value)
      ensures answer == FailedInvalid ==> accounts == old(accounts)
      // The account that failed is chosen again only after an authentication failure, with a renewed credential.
      ensures answer.Leased? && request.failed == Some(answer.account.public) && request.kind != NoFailure ==>
                && Renewable(answer.account, request, pulse) && calls.renewed
                && answer.account in old(accounts) && accounts == old(accounts)
      // Every other answer is the right one for what is left after the failure.
      ensures answer != FailedInvalid &&
                !(calls.renewed && exists a | a in old(accounts) :: Renewable(a, request, pulse)) ==>
                var left := AfterFailure(old(accounts), request, now, pulse, calls.revoked);
                match answer
                case Leased(a) =>
                  calls.leased && Right(left, request.preferred, now, pulse, padding, Use(a)) &&
                  accounts == MarkRouted(left, a.id, pulse)
                case LeaseFailed(a) =>
                  !calls.leased && Right(left, request.preferred, now, pulse, padding, Use(a)) && accounts == left
                case Later(until) =>
                  Right(left, request.preferred, now, pulse, padding, Wait(until)) && accounts == left
                case ResetUnknown => Right(left, request.preferred, now, pulse, padding, Unknown) && accounts == left
                case FailedInvalid => false
    {
      hide Right, Renewable, AfterFailure, Available;
      if request.failed.Some? && !Named(accounts, request.failed.value) {
        return FailedInvalid;
      }
      var renewed := Report(request, now, pulse, calls);
      if renewed.Some? {
        return Leased(renewed.value);
      }
      AfterFailureOk(old(accounts), request, now, pulse, calls.revoked);
      var choice := Choose(accounts, request.preferred, now, pulse, padding, pick);
      match choice {
        case Use(a) =>
          RightIsAvailable(accounts, request.preferred, now, pulse, padding, a);
          if !calls.leased {
            return LeaseFailed(a);
          }
          accounts := MarkRouted(accounts, a.id, pulse);
          return Leased(a);
        case Wait(until) => return Later(until);
        case Unknown => return ResetUnknown;
      }
    }
  }

  lemma RenewableIsFailed(a: Account, request: Request, pulse: bool)
    ensures Renewable(a, request, pulse) ==> request.failed == Some(a.public) && request.kind == AuthFailure
  {
  }

  lemma RightIsAvailable(accounts: seq<Account>, preferred: nat, now: nat, pulse: bool, padding: nat, a: Account)
    requires Right(accounts, preferred, now, pulse, padding, Use(a))
    ensures a in accounts && Available(a, now)
  {
  }
}
