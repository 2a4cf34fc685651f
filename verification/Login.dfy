/** One sign-in attempt (internal/broker/login.go): its runner, a concurrent cancellation, and the
    credential it may install.  Each function below is one transaction or one step under the service mutex. */
module Login {
  import opened Base

  type BundleId = nat

  datatype Status =
    | Created | StartingRuntime | StartingLogin | WaitingForUser | VerifyingAccount | Checkpointing
    | CancelRequested | Completed | Cancelled | FailedRetryable | FailedActionRequired | RestartRequired

  predicate Terminal(s: Status) {
    s == Completed || s == Cancelled || s == FailedRetryable || s == FailedActionRequired || s == RestartRequired
  }

  /** The states from which a cancellation is accepted. */
  predicate Cancellable(s: Status) {
    s == Created || s == StartingRuntime || s == StartingLogin || s == WaitingForUser || s == VerifyingAccount
  }

  /** The attempt's row, the entry in the interactions map, and the account's credential bundles in state ACTIVE. */
  datatype Record = Record(status: Status, upstream: bool, interaction: bool, active: set<BundleId>)

  // Transactions.

  function WithStatus(r: Record, status: Status, expected: Option<Status>): Record {
    if expected.Some? && r.status != expected.value then r else r.(status := status)
  }

  predicate Offers(r: Record) { r.status == StartingLogin }

  /** The interaction is ready for the user. */
  function Offered(r: Record): Record { if Offers(r) then r.(status := WaitingForUser, upstream := true) else r }

  function Replaced(r: Record, bundle: BundleId): Record { r.(active := {bundle}) }

  predicate Promotes(r: Record) { r.status == VerifyingAccount }

  function Promoted(r: Record, bundle: BundleId): Record {
    if Promotes(r) then Replaced(r.(status := Checkpointing), bundle) else r
  }

  predicate Commits(r: Record) { r.status == Checkpointing }

  function Committed(r: Record): Record { if Commits(r) then r.(status := Completed) else r }

  function Failed(r: Record, failure: Status): Record { if Terminal(r.status) then r else r.(status := failure) }

  /** A cancellation needs the upstream sign-in's id and a cancellable state. */
  predicate Cancels(r: Record) { r.upstream && Cancellable(r.status) }

  function CancelAccepted(r: Record): Record { if Cancels(r) then r.(status := CancelRequested) else r }

  class Service {
    var status: Status
    var upstream: bool
    var interaction: bool
    var bundles: map<BundleId, bool>  // whether each bundle of the account is ACTIVE

    ghost function View(): Record
      reads this
    {
      Record(status, upstream, interaction, set b | b in bundles && bundles[b])
    }

    constructor (bundles: map<BundleId, bool>)
      ensures View() == Record(Created, false, false, set b | b in bundles && bundles[b])
    {
      status, upstream, interaction, this.bundles := Created, false, false, bundles;
    }

    method LoginState(state: Status, expected: Option<Status>) returns (ok: bool)
      modifies this`status
      ensures View() == WithStatus(old(View()), state, expected)
      ensures ok == (expected.None? || old(status) == expected.value)
    {
      ok := expected.None? || status == expected.value;
      if ok {
        status := state;
      }
    }

    method OfferInteraction() returns (ok: bool)
      modifies this`status, this`upstream
      ensures View() == Offered(old(View())) && ok == Offers(old(View()))
    {
      ok := status == StartingLogin;
      if ok {
        status, upstream := WaitingForUser, true;
      }
    }

    /** Retire every active bundle, then insert the new one. */
    method ReplaceActive(bundle: BundleId)
      modifies this`bundles
      ensures View() == Replaced(old(View()), bundle)
    {
      bundles := map b | b in bundles :: false;
      bundles := bundles[bundle := true];
    }

    method PromoteLogin(bundle: BundleId) returns (ok: bool)
      modifies this`status, this`bundles
      ensures View() == Promoted(old(View()), bundle) && ok == Promotes(old(View()))
    {
      ok := LoginState(Checkpointing, Some(VerifyingAccount));
      if ok {
        ReplaceActive(bundle);
      }
    }

    method CommitLogin() returns (ok: bool)
      modifies this`status
      ensures View() == Committed(old(View())) && ok == Commits(old(View()))
    {
      ok := LoginState(Completed, Some(Checkpointing));
    }

    method FailLogin(failure: Status)
      modifies this`status
      ensures View() == Failed(old(View()), failure)
    {
      if !Terminal(status) {
        status := failure;
      }
    }

    /** Only one cancellation gets hold of the interaction. */
    method TakeInteraction() returns (ok: bool)
      modifies this`interaction
      ensures View() == old(View()).(interaction := false) && ok == old(interaction)
    {
      ok := interaction;
      interaction := false;
    }

    method CancelLogin() returns (ok: bool)
      modifies this`status
      ensures View() == CancelAccepted(old(View())) && ok == Cancels(old(View()))
    {
      ok := upstream && Cancellable(status);
      if ok {
        status := CancelRequested;
      }
    }
  }

  // The runner and the canceller, interleaved step by step.

  datatype Runner =
    | Queued | RuntimeUp | LoginUp | Ready | Awaiting | Approved | Closing | Verifying | Capturing | Finishing
    | Failing(failure: Status) | Clearing(failure: Status) | Recording(failure: Status)
    | Ended

  datatype Canceller = Absent | Holding | Accepted | Refused | Answered

  /** `installed` and `accepted` remember that this attempt installed a credential and that its cancellation was
      accepted. */
  datatype World = World(record: Record, runner: Runner, canceller: Canceller, installed: bool, accepted: bool)

  datatype Step =
    | Run(ok: bool, failure: Status, bundle: BundleId)  // the runner's next step, going well or not
    | Take                                              // a cancellation takes the interaction
    | Request                                           // and asks for CANCEL_REQUESTED
    | Answer(cancelled: bool)                           // the runtime has cancelled the sign-in, or could not
    | Checkpoint(bundle: BundleId)                      // a managed runtime replaces the active credential
    | Restart                                           // the process dies and starts again

  predicate Failure(s: Status) { s == FailedRetryable || s == FailedActionRequired || s == RestartRequired }

  function NextRun(w: World, ok: bool, failure: Status, bundle: BundleId): World {
    var r, failing := w.record, w.(runner := Failing(failure));
    match w.runner
    case Queued => if !ok then failing else w.(record := WithStatus(r, StartingRuntime, None), runner := RuntimeUp)
    case RuntimeUp => if !ok then failing else w.(record := WithStatus(r, StartingLogin, None), runner := LoginUp)
    case LoginUp => if !ok then failing else w.(record := r.(interaction := true), runner := Ready)
    case Ready => if !ok || !Offers(r) then failing else w.(record := Offered(r), runner := Awaiting)
    case Awaiting => if !ok then failing else w.(runner := Approved)
    case Approved => w.(record := r.(interaction := false), runner := Closing)
    case Closing =>
      if !ok || r.status != WaitingForUser then failing
      else w.(record := WithStatus(r, VerifyingAccount, Some(WaitingForUser)), runner := Verifying)
    case Verifying => if !ok then failing else w.(runner := Capturing)
    case Capturing =>
      if !ok || !Promotes(r) then failing else w.(record := Promoted(r, bundle), runner := Finishing, installed := true)
    case Finishing => if !ok || !Commits(r) then failing else w.(record := Committed(r), runner := Ended)
    case Failing(f) => if r.status == Cancelled then w.(runner := Ended) else w.(runner := Clearing(f))
    case Clearing(f) => w.(record := r.(interaction := false), runner := Recording(f))
    case Recording(f) => w.(record := Failed(r, f), runner := Ended)
    case Ended => w
  }

  function Next(w: World, step: Step): World {
    match step
    case Run(ok, failure, bundle) => NextRun(w, ok, if Failure(failure) then failure else FailedRetryable, bundle)
    case Take =>
      if !w.record.interaction then w else w.(record := w.record.(interaction := false), canceller := Holding)
    case Request =>
      if w.canceller != Holding then w
      else if !Cancels(w.record) then w.(canceller := Refused)
      else w.(record := CancelAccepted(w.record), canceller := Accepted, accepted := true)
    case Answer(cancelled) =>
      if w.canceller != Accepted then w
      else w.(record := WithStatus(w.record, if cancelled then Cancelled else FailedRetryable, None),
              canceller := Answered)
    case Checkpoint(bundle) => w.(record := Replaced(w.record, bundle))
    case Restart =>
      w.(record := Failed(w.record, RestartRequired).(interaction := false), runner := Ended, canceller := Absent)
  }

  function Exec(active: set<BundleId>, steps: seq<Step>): World {
    if steps == [] then World(Record(Created, false, false, active), Queued, Absent, false, false)
    else Next(Exec(active, steps[..|steps| - 1]), steps[|steps| - 1])
  }

  predicate Early(x: Runner) { x == Queued || x == RuntimeUp || x == LoginUp }

  /** Where the row is for each place of the runner, unless a cancellation was accepted. */
  predicate Follows(w: World) {
    match w.runner
    case Queued => w.record.status == Created
    case RuntimeUp => w.record.status == StartingRuntime
    case LoginUp => w.record.status == StartingLogin
    case Ready => w.record.status == StartingLogin
    case Awaiting => w.record.status == WaitingForUser
    case Approved => w.record.status == WaitingForUser
    case Closing => w.record.status == WaitingForUser
    case Verifying => w.record.status == VerifyingAccount
    case Capturing => w.record.status == VerifyingAccount
    case Finishing => w.record.status == Checkpointing
    case Ended => Terminal(w.record.status)
    case _ => true
  }

  predicate Inv(w: World) {
    && (if w.accepted then
          w.record.status == CancelRequested || (Terminal(w.record.status) && w.record.status != Completed)
        else Follows(w) && w.record.status != CancelRequested && w.record.status != Cancelled)
    && (w.accepted ==> !w.installed && w.record.upstream && w.runner != Ready && w.runner != Finishing)
    && (w.installed ==>
         !Cancellable(w.record.status) &&
         (w.runner == Finishing || w.runner.Failing? || w.runner.Clearing? || w.runner.Recording? || w.runner == Ended))
    && (w.record.status == Completed || w.record.status == Checkpointing ==> w.installed)
    && (w.record.status == Completed ==> w.runner == Ended)
    && (Early(w.runner) || w.runner == Ready ==> !w.record.upstream && !w.accepted && !w.installed)
    && (Early(w.runner) ==> !w.record.interaction && w.canceller == Absent)
    && (w.canceller == Accepted || w.canceller == Answered ==> w.accepted)
    && (w.runner.Failing? || w.runner.Clearing? || w.runner.Recording? ==> Failure(w.runner.failure))
    && |w.record.active| <= 1
  }

  lemma StartInv(w: World, ok: bool, failure: Status, bundle: BundleId)
    requires Inv(w) && Failure(failure) &&
               (Early(w.runner) || w.runner == Ready || w.runner == Awaiting || w.runner == Approved)
    ensures Inv(NextRun(w, ok, failure, bundle))
  {
  }

  lemma FinishInv(w: World, ok: bool, failure: Status, bundle: BundleId)
    requires Inv(w) && Failure(failure)
    requires w.runner == Closing || w.runner == Verifying || w.runner == Capturing || w.runner == Finishing
    ensures Inv(NextRun(w, ok, failure, bundle))
  {
  }

  lemma FailInv(w: World, ok: bool, failure: Status, bundle: BundleId)
    requires Inv(w) && Failure(failure)
    requires w.runner.Failing? || w.runner.Clearing? || w.runner.Recording? || w.runner == Ended
    ensures Inv(NextRun(w, ok, failure, bundle))
  {
  }

  lemma CancelInv(w: World, step: Step)
    requires Inv(w) && (step.Take? || step.Request? || step.Answer?)
    ensures Inv(Next(w, step))
  {
  }

  lemma OtherInv(w: World, step: Step)
    requires Inv(w) && (step.Checkpoint? || step.Restart?)
    ensures Inv(Next(w, step))
  {
  }

  lemma StepInv(w: World, step: Step)
    requires Inv(w)
    ensures Inv(Next(w, step))
  {
    hide Inv, NextRun;
    match step
    case Run(ok, failure, bundle) =>
      var f := if Failure(failure) then failure else FailedRetryable;
      match w.runner {
        case Failing(_) => FailInv(w, ok, f, bundle);
        case Clearing(_) => FailInv(w, ok, f, bundle);
        case Recording(_) => FailInv(w, ok, f, bundle);
        case Ended => FailInv(w, ok, f, bundle);
        case Closing => FinishInv(w, ok, f, bundle);
        case Verifying => FinishInv(w, ok, f, bundle);
        case Capturing => FinishInv(w, ok, f, bundle);
        case Finishing => FinishInv(w, ok, f, bundle);
        case _ => StartInv(w, ok, f, bundle);
      }
    case Take => CancelInv(w, step);
    case Request => CancelInv(w, step);
    case Answer(_) => CancelInv(w, step);
    case Checkpoint(_) => OtherInv(w, step);
    case Restart => OtherInv(w, step);
  }

  lemma {:induction false} ExecInv(active: set<BundleId>, steps: seq<Step>)
    requires |active| <= 1
    ensures Inv(Exec(active, steps))
  {
    if steps != [] {
      ExecInv(active, steps[..|steps| - 1]);
      StepInv(Exec(active, steps[..|steps| - 1]), steps[|steps| - 1]);
    }
  }

  /** Cancellation and installation exclude each other in every interleaving, and no account ever has two
      active credentials. */
  lemma CancelledNeverInstalls(active: set<BundleId>, steps: seq<Step>)
    requires |active| <= 1
    ensures var w := Exec(active, steps); !(w.accepted && w.installed) && |w.record.active| <= 1
  {
    ExecInv(active, steps);
  }

  /** Once the credential is installed every request to cancel is refused; once a cancellation is accepted
      no step of the runner installs one. */
  lemma SecondIsRefused(active: set<BundleId>, steps: seq<Step>)
    requires |active| <= 1
    ensures var w := Exec(active, steps);
            && (w.installed ==> !Cancels(w.record) && !Next(w, Request).accepted)
            && (w.accepted ==>
                 !Promotes(w.record) && forall ok, failure, bundle :: !Next(w, Run(ok, failure, bundle)).installed)
  {
    hide Follows;
    ExecInv(active, steps);
  }

  /** COMPLETED is never left, and is only reached with the credential installed and no cancellation accepted. */
  lemma CompletedStays(active: set<BundleId>, steps: seq<Step>, step: Step)
    requires |active| <= 1 && Exec(active, steps).record.status == Completed
    ensures var w := Exec(active, steps);
            Next(w, step).record.status == Completed && w.installed && !w.accepted
  {
    ExecInv(active, steps);
  }

  /** The credential installed last is the active one: nothing about the attempt retires it without a successor. */
  lemma CredentialKept(w: World, step: Step)
    ensures w.record.active != {} ==> Next(w, step).record.active != {}
    ensures Next(w, step).installed && !w.installed && step.Run? ==> Next(w, step).record.active == {step.bundle}
  {
  }
}
