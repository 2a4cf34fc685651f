/** The proxy's retry loop (Serve in internal/gateway/engine.go) against any routing authority and any upstream. */
module Gateway {
  import opened Base

  type AccountId = nat

  datatype Kind = NoFailure | Auth | Quota

  /** What the authority answers to one routing request. */
  datatype Route = RouteError | Wait(seconds: int) | NoLease | Lease(account: AccountId, reserve: bool)

  /** What upstream answers to one attempt; `quotaBody` says that the error envelope names a quota. */
  datatype Reply = NoReply | Reply(status: int, quotaBody: bool)

  datatype Attempt = Attempt(account: AccountId, reply: Reply)

  /** The route request of the next round: which account failed last, and how. */
  datatype RouteInput = RouteInput(failed: Option<AccountId>, kind: Kind)

  datatype Outcome =
    | BrokerUnavailable | PoolExhausted(seconds: int) | RoutingFailed | UpstreamUnavailable
    | RedirectRejected | CacheUnavailable | Delivered(account: AccountId, reply: Reply)

  predicate Success(status: int) { 200 <= status < 300 }

  predicate Redirect(status: int) { 300 <= status < 400 }

  function FailureKind(reply: Reply): Kind
    requires reply.Reply?
  {
    if Success(reply.status) then NoFailure
    else if reply.status == 429 || reply.quotaBody then Quota
    else if reply.status == 401 || reply.status == 403 then Auth
    else NoFailure
  }

  /** Some earlier attempt used the account. */
  predicate Tried(log: seq<Attempt>, account: AccountId) {
    exists i | 0 <= i < |log| :: log[i].account == account
  }

  predicate FailedWith(x: Attempt, kind: Kind) {
    x.reply.Reply? && !Redirect(x.reply.status) && FailureKind(x.reply) == kind
  }

  /** Attempt n repeats an account only right after that account's first attempt failed for authentication;
      every attempt before it failed for authentication or quota. */
  predicate Justified(log: seq<Attempt>, n: nat)
    requires n < |log|
  {
    && (n > 0 ==> FailedWith(log[n - 1], Auth) || FailedWith(log[n - 1], Quota))
    && (Tried(log[..n], log[n].account) ==>
         n > 0 && log[n - 1].account == log[n].account && FailedWith(log[n - 1], Auth) &&
           !Tried(log[..n - 1], log[n].account))
  }

  predicate AllJustified(log: seq<Attempt>) { forall n | 0 <= n < |log| :: Justified(log, n) }

  /** What the loop knows after some attempts: which accounts were tried once, which twice. */
  ghost predicate Counted(log: seq<Attempt>, counts: map<AccountId, nat>, twice: set<AccountId>,
                          accounts: set<AccountId>)
  {
    && twice <= counts.Keys <= accounts && |log| == |counts.Keys| + |twice|
    && (forall a | a in counts :: counts[a] == if a in twice then 2 else 1)
    && (forall a :: a in counts <==> Tried(log, a))
  }

  lemma TriedAppend(log: seq<Attempt>, x: Attempt, a: AccountId)
    ensures Tried(log + [x], a) <==> Tried(log, a) || x.account == a
  {
    if i :| 0 <= i < |log| && log[i].account == a { assert (log + [x])[i].account == a; }
    assert (log + [x])[|log|] == x;
  }

  lemma CountedFirst(log: seq<Attempt>, counts: map<AccountId, nat>, twice: set<AccountId>, accounts: set<AccountId>,
                     x: Attempt)
    requires Counted(log, counts, twice, accounts) && x.account in accounts && x.account !in counts
    ensures Counted(log + [x], counts[x.account := 1], twice, accounts)
  {
    hide Tried;
    forall a ensures Tried(log + [x], a) <==> Tried(log, a) || x.account == a { TriedAppend(log, x, a); }
    assert counts[x.account := 1].Keys == counts.Keys + {x.account};
  }

  lemma CountedSecond(log: seq<Attempt>, counts: map<AccountId, nat>, twice: set<AccountId>, accounts: set<AccountId>,
                      x: Attempt)
    requires Counted(log, counts, twice, accounts) && x.account in counts && x.account !in twice
    ensures Counted(log + [x], counts[x.account := 2], twice + {x.account}, accounts)
  {
    hide Tried;
    forall a ensures Tried(log + [x], a) <==> Tried(log, a) || x.account == a { TriedAppend(log, x, a); }
    assert counts[x.account := 2].Keys == counts.Keys;
  }

  lemma WithinBound(log: seq<Attempt>, counts: map<AccountId, nat>, twice: set<AccountId>, accounts: set<AccountId>)
    requires Counted(log, counts, twice, accounts)
    ensures |log| <= 2 * |accounts|
  {
    Subset(counts.Keys, accounts);
    Subset(twice, accounts);
  }

  lemma {:induction false} Subset(a: set<AccountId>, b: set<AccountId>)
    requires a <= b
    ensures |a| <= |b|
    decreases |a|
  {
    if a != {} {
      var x :| x in a;
      Subset(a - {x}, b - {x});
    }
  }

  lemma JustifiedAppend(log: seq<Attempt>, x: Attempt)
    requires AllJustified(log)
    requires log != [] ==> FailedWith(log[|log| - 1], Auth) || FailedWith(log[|log| - 1], Quota)
    requires Tried(log, x.account) ==>
               log != [] && log[|log| - 1].account == x.account && FailedWith(log[|log| - 1], Auth) &&
               !Tried(log[..|log| - 1], x.account)
    ensures AllJustified(log + [x])
  {
    hide FailedWith, Tried;
    var more := log + [x];
    forall n | 0 <= n < |more| ensures Justified(more, n) {
      if n < |log| {
        assert Justified(log, n);
        assert more[..n] == log[..n];
        if n > 0 { assert more[..n - 1] == log[..n - 1]; }
      } else {
        assert more[..n] == log;
        if n > 0 { assert more[..n - 1] == log[..n - 1]; }
      }
    }
  }

  /** The request was refused before another attempt. */
  predicate ByRouting(outcome: Outcome) {
    outcome.BrokerUnavailable? || outcome.PoolExhausted? || outcome.RoutingFailed?
  }

  /** Failures after which the authority is asked again. */
  predicate Retried(x: Attempt) { FailedWith(x, Auth) || FailedWith(x, Quota) }

  /** How the last attempt ends a request: `second` says that its account had been tried before. */
  predicate Final(outcome: Outcome, x: Attempt, second: bool) {
    match outcome
    case UpstreamUnavailable => x.reply.NoReply?
    case RedirectRejected => x.reply.Reply? && Redirect(x.reply.status)
    case CacheUnavailable => x.reply.Reply? && Success(x.reply.status)
    case Delivered(account, reply) =>
      account == x.account && reply == x.reply && (FailedWith(x, NoFailure) || (FailedWith(x, Auth) && second))
    case _ => false
  }

  /** What becomes of one answer: an outcome, or the failure to ask the authority about. */
  method Settle(x: Attempt, reserve: bool, saved: bool, second: bool) returns (outcome: Outcome, kind: Kind)
    ensures kind == NoFailure ==> Final(outcome, x, second) && !ByRouting(outcome)
    ensures outcome == CacheUnavailable <==> x.reply.Reply? && Success(x.reply.status) && reserve && !saved
    ensures kind != NoFailure ==> FailedWith(x, kind) && (kind == Auth ==> !second)
  {
    if x.reply.NoReply? {
      return UpstreamUnavailable, NoFailure;
    }
    if Redirect(x.reply.status) {
      return RedirectRejected, NoFailure;
    }
    if reserve && Success(x.reply.status) && !saved {
      return CacheUnavailable, NoFailure;
    }
    kind := FailureKind(x.reply);
    outcome := Delivered(x.account, x.reply);
    if kind == Auth && second {
      kind := NoFailure;
    }
  }

  datatype Progress = Progress(
    counts: map<AccountId, nat>, previous: Option<AccountId>, input: RouteInput, retries: nat, failovers: nat)

  /** What holds whenever the authority is asked. */
  ghost predicate Ready(log: seq<Attempt>, twice: set<AccountId>, p: Progress, accounts: set<AccountId>,
                        upstream: seq<Reply>)
  {
    && Counted(log, p.counts, twice, accounts) && AllJustified(log) && Answered(log, accounts, upstream)
    && if log == [] then p.previous.None? && p.retries == p.failovers == 0 && p.input.kind == NoFailure
       else
         && p.previous == p.input.failed == Some(log[|log| - 1].account) && |log| == 1 + p.retries + p.failovers
         && p.input.kind != NoFailure && FailedWith(log[|log| - 1], p.input.kind)
         && (p.input.kind == Auth ==> !Tried(log[..|log| - 1], log[|log| - 1].account))
  }

  function CountOf(counts: map<AccountId, nat>, account: AccountId): nat {
    if account in counts then counts[account] else 0
  }

  /** The lease is refused: its account was tried before, and not just now for the first time without authentication. */
  predicate Refused(p: Progress, account: AccountId) {
    var count := CountOf(p.counts, account);
    count > 0 && !(p.input.kind == Auth && p.input.failed == Some(account) && count == 1)
  }

  /** Counting one more attempt. */
  function Tries(p: Progress, account: AccountId): Progress {
    p.(counts := p.counts[account := CountOf(p.counts, account) + 1], previous := Some(account),
       failovers := if p.previous.Some? && p.previous.value != account then p.failovers + 1 else p.failovers,
       retries := if p.previous == Some(account) then p.retries + 1 else p.retries)
  }

  lemma Picked(log: seq<Attempt>, twice: set<AccountId>, p: Progress, accounts: set<AccountId>, upstream: seq<Reply>,
               account: AccountId)
    returns (twice': set<AccountId>)
    requires Ready(log, twice, p, accounts, upstream) && account in accounts && !Refused(p, account)
    ensures var log', p' := log + [Attempt(account, ReplyAt(upstream, |log|))], Tries(p, account);
            && Counted(log', p'.counts, twice', accounts) && AllJustified(log') && Answered(log', accounts, upstream)
            && |log'| <= 2 * |accounts| && |log'| == 1 + p'.retries + p'.failovers
            && (if CountOf(p.counts, account) == 0 then !Tried(log, account)
                 else CountOf(p.counts, account) == 1 && Tried(log, account))
  {
    var x := Attempt(account, ReplyAt(upstream, |log|));
    CountsMean(log, p.counts, twice, accounts, account);
    hide Counted, AllJustified, Tried, FailedWith, Answered;
    JustifiedAppend(log, x);
    AnsweredAppend(log, accounts, upstream, account);
    if account in p.counts {
      CountedSecond(log, p.counts, twice, accounts, x);
      twice' := twice + {account};
    } else {
      CountedFirst(log, p.counts, twice, accounts, x);
      twice' := twice;
    }
    WithinBound(log + [x], Tries(p, account).counts, twice', accounts);
  }

  /** `routes` and `upstream` answer the routing requests and the attempts in turn, with errors afterwards;
      `activated` says whether activating each lease's reserve can be saved. */
  method Serve(accounts: set<AccountId>, routes: seq<Route>, upstream: seq<Reply>, activated: seq<bool>)
    returns (outcome: Outcome, log: seq<Attempt>, retries: nat, failovers: nat)
    requires forall n | 0 <= n < |routes| :: routes[n].Lease? ==> routes[n].account in accounts
    ensures AllJustified(log) && |log| <= 2 * |accounts| && Answered(log, accounts, upstream)
    ensures if log == [] then retries == failovers == 0 else |log| == 1 + retries + failovers
    ensures if ByRouting(outcome) then log == [] || Retried(log[|log| - 1])
            else log != [] && Final(outcome, log[|log| - 1], Tried(log[..|log| - 1], log[|log| - 1].account))
  {
    hide Counted, AllJustified, Answered, Tried, FailedWith, Retried, Final, Ready, Refused;
    var p := Progress(map[], None, RouteInput(None, NoFailure), 0, 0);
    ghost var twice: set<AccountId> := {};
    log := [];
    ReadyAtFirst(accounts, upstream);
    while true
      invariant Ready(log, twice, p, accounts, upstream)
      decreases 2 * |accounts| - |log|
    {
      ReadyMeans(log, twice, p, accounts, upstream);
      var selected := if |log| < |routes| then routes[|log|] else RouteError;
      if selected.RouteError? || selected.NoLease? {
        return BrokerUnavailable, log, p.retries, p.failovers;
      }
      if selected.Wait? {
        return PoolExhausted(selected.seconds), log, p.retries, p.failovers;
      }
      if Refused(p, selected.account) {
        return RoutingFailed, log, p.retries, p.failovers;
      }
      var second := CountOf(p.counts, selected.account) > 0;
      var attempt := Attempt(selected.account, ReplyAt(upstream, |log|));
      twice := Picked(log, twice, p, accounts, upstream, selected.account);
      p := Tries(p, selected.account);
      ghost var before := log;
      log := log + [attempt];
      assert log[..|log| - 1] == before;
      var saved := |log| <= |activated| && activated[|log| - 1];
      var kind;
      outcome, kind := Settle(attempt, selected.reserve, saved, second);
      if kind == NoFailure {
        return outcome, log, p.retries, p.failovers;
      }
      p := p.(input := RouteInput(Some(selected.account), kind));
      ReadyAgain(log, twice, p, accounts, upstream);
    }
  }

  lemma ReadyAtFirst(accounts: set<AccountId>, upstream: seq<Reply>)
    ensures Ready([], {}, Progress(map[], None, RouteInput(None, NoFailure), 0, 0), accounts, upstream)
  {
    NothingYet(accounts, upstream);
  }

  lemma ReadyMeans(log: seq<Attempt>, twice: set<AccountId>, p: Progress, accounts: set<AccountId>,
                   upstream: seq<Reply>)
    requires Ready(log, twice, p, accounts, upstream)
    ensures AllJustified(log) && Answered(log, accounts, upstream) && |log| <= 2 * |accounts|
    ensures if log == [] then p.retries == p.failovers == 0
            else |log| == 1 + p.retries + p.failovers && Retried(log[|log| - 1])
  {
    WithinBound(log, p.counts, twice, accounts);
  }

  lemma ReadyAgain(log: seq<Attempt>, twice: set<AccountId>, p: Progress, accounts: set<AccountId>,
                   upstream: seq<Reply>)
    requires log != [] && Counted(log, p.counts, twice, accounts) && AllJustified(log) &&
               Answered(log, accounts, upstream)
    requires p.previous == p.input.failed == Some(log[|log| - 1].account) && |log| == 1 + p.retries + p.failovers
    requires p.input.kind != NoFailure && FailedWith(log[|log| - 1], p.input.kind)
    requires p.input.kind == Auth ==> !Tried(log[..|log| - 1], log[|log| - 1].account)
    ensures Ready(log, twice, p, accounts, upstream)
  {
  }

  function ReplyAt(upstream: seq<Reply>, n: nat): Reply { if n < |upstream| then upstream[n] else NoReply }

  /** The attempts went to known accounts and got what upstream answered, in order. */
  predicate Answered(log: seq<Attempt>, accounts: set<AccountId>, upstream: seq<Reply>) {
    forall n | 0 <= n < |log| :: log[n].reply == ReplyAt(upstream, n) && log[n].account in accounts
  }

  lemma AnsweredAppend(log: seq<Attempt>, accounts: set<AccountId>, upstream: seq<Reply>, account: AccountId)
    requires Answered(log, accounts, upstream) && account in accounts
    ensures Answered(log + [Attempt(account, ReplyAt(upstream, |log|))], accounts, upstream)
  {
  }

  lemma NothingYet(accounts: set<AccountId>, upstream: seq<Reply>)
    ensures Counted([], map[], {}, accounts) && AllJustified([]) && Answered([], accounts, upstream)
  {
  }

  lemma CountsMean(log: seq<Attempt>, counts: map<AccountId, nat>, twice: set<AccountId>, accounts: set<AccountId>,
                   a: AccountId)
    requires Counted(log, counts, twice, accounts)
    ensures Tried(log, a) <==> a in counts
    ensures a in counts ==> counts[a] == if a in twice then 2 else 1
    ensures a in twice ==> a in counts
  {
  }

  /** A request answered with success is never sent again. */
  lemma NotResent(log: seq<Attempt>, n: nat)
    requires AllJustified(log) && n + 1 < |log|
    ensures log[n].reply.Reply? && !Success(log[n].reply.status) && !Redirect(log[n].reply.status)
  {
    assert Justified(log, n + 1);
  }

  /** An account is tried again at most once, at once, and only after an authentication failure. */
  lemma TriedAgain(log: seq<Attempt>, i: nat, k: nat)
    requires AllJustified(log) && i < k < |log|
    ensures log[i].account == log[k].account ==> i == k - 1 && FailedWith(log[i], Auth)
  {
    assert Justified(log, k);
    assert log[..k][i] == log[i];
    if i < k - 1 { assert log[..k - 1][i] == log[i]; }
  }
}
