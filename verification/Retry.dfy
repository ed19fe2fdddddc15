/**
 The retry loop (sdk/couchbase-core/src/retry.rs, with the strategies of retrybesteffort.rs and
 retryfailfast.rs): an operation is run again as long as its error has a reason to retry and either the
 reason is always retried or the strategy agrees.
 */
module Retry {
  import opened Wrappers

  datatype Reason =
    | KvNotMyVbucket
    | KvInvalidVbucketMap
    | KvTemporaryFailure
    | KvCollectionOutdated
    | KvErrorMapRetryIndicated
    | KvLocked
    | KvSyncWriteInProgress
    | KvSyncWriteRecommitInProgress
    | ServiceNotAvailable
    | SocketClosedWhileInFlight
    | SocketNotAvailable
    | QueryPreparedStatementFailure
    | QueryIndexNotFound
    | SearchTooManyRequests
    | HttpSendRequestFailed
    | NotReady

  predicate AllowsNonIdempotentRetry(r: Reason) {
    !r.SocketClosedWhileInFlight?
  }

  predicate AlwaysRetry(r: Reason) {
    r.KvInvalidVbucketMap? || r.KvNotMyVbucket? || r.KvCollectionOutdated?
  }

  // ---------------------------------------------------------------- errors and their reasons

  datatype ServerError =
    | NotMyVbucket
    | TmpFail
    | UnknownCollectionID
    | UnknownCollectionName
    | Locked
    | SyncWriteInProgress
    | SyncWriteRecommitInProgress
    | UnknownStatus(status: nat)
    | OtherServerError

  datatype Error =
    | MemdxServer(e: ServerError)
    | MemdxResource(cause: ServerError)
    | MemdxClosedInFlight
    | MemdxOtherCancelled
    | MemdxDispatch
    | NoVbucketMap
    | ServiceMissing
    | QueryPreparedFailure
    | QueryNoIndex
    | SearchStatus(code: nat)
    | HttpSend  // a query, search, analytics or management request that could not be sent
    | OtherError

  type ErrorMap = nat -> bool  // the server's error map: is this unknown status to be retried?

  function ServerReason(errorMap: ErrorMap, e: ServerError): Option<Reason> {
    match e
    case NotMyVbucket => Some(KvNotMyVbucket)
    case TmpFail => Some(KvTemporaryFailure)
    case UnknownCollectionID => Some(KvCollectionOutdated)
    case UnknownCollectionName => Some(KvCollectionOutdated)
    case Locked => Some(KvLocked)
    case SyncWriteInProgress => Some(KvSyncWriteInProgress)
    case SyncWriteRecommitInProgress => Some(KvSyncWriteRecommitInProgress)
    case UnknownStatus(status) => if errorMap(status) then Some(KvErrorMapRetryIndicated) else None
    case OtherServerError => None
  }

  function ReasonOf(errorMap: ErrorMap, e: Error): Option<Reason> {
    match e
    case MemdxServer(se) => ServerReason(errorMap, se)
    case MemdxResource(cause) => ServerReason(errorMap, cause)
    case MemdxClosedInFlight => Some(SocketClosedWhileInFlight)
    case MemdxDispatch => Some(SocketNotAvailable)
    case NoVbucketMap => Some(KvInvalidVbucketMap)
    case ServiceMissing => Some(ServiceNotAvailable)
    case QueryPreparedFailure => Some(QueryPreparedStatementFailure)
    case QueryNoIndex => Some(QueryIndexNotFound)
    case SearchStatus(code) => if code == 429 then Some(SearchTooManyRequests) else None
    case HttpSend => Some(HttpSendRequestFailed)
    case MemdxOtherCancelled => None
    case OtherError => None
  }

  // ---------------------------------------------------------------- strategies

  /** `reasons` is a set: a reason retried twice is recorded once. */
  datatype Request = Request(idempotent: bool, attempts: nat, reasons: set<Reason>)

  /** The two strategies of the library, and any other one a caller may supply. */
  datatype Strategy = BestEffort(backoff: nat -> nat) | FailFast | Custom(decide: (Request, Reason) -> Option<nat>)

  function RetryAfter(strategy: Strategy, request: Request, reason: Reason): Option<nat> {
    match strategy
    case BestEffort(backoff) =>
      if request.idempotent || AllowsNonIdempotentRetry(reason) then Some(backoff(request.attempts)) else None
    case FailFast => None
    case Custom(decide) => decide(request, reason)
  }

  /** Milliseconds. */
  function ControlledBackoff(attempts: nat): nat {
    match attempts
    case 0 => 1
    case 1 => 10
    case 2 => 50
    case 3 => 100
    case 4 => 500
    case _ => 1000
  }

  function AddAttempt(request: Request, reason: Reason): Request {
    request.(attempts := request.attempts + 1, reasons := request.reasons + {reason})
  }

  /** maybe_retry: how long to wait before the next run, None for no further run. */
  function MaybeRetry(strategy: Strategy, request: Request, reason: Reason): Option<nat> {
    if AlwaysRetry(reason) then Some(ControlledBackoff(request.attempts + 1)) else RetryAfter(strategy, request, reason)
  }

  /** The schedule starts at one millisecond and never falls; no retry uses its first entry. */
  lemma ControlledRises(attempts: nat)
    ensures ControlledBackoff(0) == 1 && ControlledBackoff(attempts) <= ControlledBackoff(attempts + 1) <= 1000
  {}

  // ---------------------------------------------------------------- the loop

  datatype Outcome = Success | Failure(error: Error)

  /** How the loop ended; the error carries the retry information if anything was retried. */
  datatype Final = Returned | Failed(error: Error, info: Option<Request>) | StillRunning

  /** The request after the first i errors were retried. */
  function RequestAfter(errorMap: ErrorMap, idempotent: bool, outcomes: seq<Outcome>, i: nat): Request
    requires i <= |outcomes| && RetryableUpTo(errorMap, outcomes, i)
  {
    if i == 0 then Request(idempotent, 0, {})
    else
      AddAttempt(RequestAfter(errorMap, idempotent, outcomes, i - 1), ReasonOf(errorMap, outcomes[i - 1].error).value)
  }

  predicate RetryableUpTo(errorMap: ErrorMap, outcomes: seq<Outcome>, i: nat)
    requires i <= |outcomes|
  {
    forall j :: 0 <= j < i ==> outcomes[j].Failure? && ReasonOf(errorMap, outcomes[j].error).Some?
  }

  /** The wait decided after run i. */
  function Decision(strategy: Strategy, errorMap: ErrorMap, idempotent: bool, outcomes: seq<Outcome>, i: nat)
    : Option<nat>
    requires i < |outcomes| && RetryableUpTo(errorMap, outcomes, i)
  {
    if outcomes[i].Success? then None
    else
      match ReasonOf(errorMap, outcomes[i].error)
      case None => None
      case Some(reason) => MaybeRetry(strategy, RequestAfter(errorMap, idempotent, outcomes, i), reason)
  }

  /**
   orchestrate_retries over the outcomes its successive runs would have.  `runs` counts the runs made and
   `waits` the sleeps between them.
   */
  method Orchestrate(strategy: Strategy, errorMap: ErrorMap, idempotent: bool, outcomes: seq<Outcome>)
    returns (final: Final, runs: nat, waits: seq<nat>, request: Request)
    // every run but the last one failed with a reason that was retried, after the wait that was decided
    ensures |waits| <= runs <= |outcomes| && RetryableUpTo(errorMap, outcomes, |waits|)
    ensures forall i :: 0 <= i < |waits| ==> Decision(strategy, errorMap, idempotent, outcomes, i) == Some(waits[i])
    // the request records one attempt per wait (and, by RecordedIsRetried, exactly the reasons retried)
    ensures request.attempts == |waits| && request == RequestAfter(errorMap, idempotent, outcomes, |waits|)
    // the loop ends at the first run that succeeds or is not to be retried, one run after the last retry
    ensures final.StillRunning? <==> runs == |waits|
    ensures final.StillRunning? ==> runs == |outcomes|
    ensures !final.StillRunning? ==>
              runs == |waits| + 1 && Decision(strategy, errorMap, idempotent, outcomes, runs - 1).None?
    ensures final.Returned? <==> runs > |waits| && outcomes[runs - 1].Success?
    // the error is the last one, with the retry information exactly when something was retried
    ensures final.Failed? ==> outcomes[runs - 1] == Failure(final.error)
    ensures final.Failed? ==> final.info == if |waits| > 0 then Some(request) else None
  {
    request := Request(idempotent, 0, {});
    runs, waits := 0, [];
    while runs < |outcomes|
      invariant 0 <= runs <= |outcomes| && runs == |waits| && RetryableUpTo(errorMap, outcomes, runs)
      invariant request.attempts == runs && request == RequestAfter(errorMap, idempotent, outcomes, runs)
      invariant forall i :: 0 <= i < runs ==> Decision(strategy, errorMap, idempotent, outcomes, i) == Some(waits[i])
    {
      var outcome := outcomes[runs];
      runs := runs + 1;
      if outcome.Success? {
        return Returned, runs, waits, request;
      }
      var reason := ReasonOf(errorMap, outcome.error);
      var wait := if reason.Some? then MaybeRetry(strategy, request, reason.value) else None;
      if wait.None? {
        final := Failed(outcome.error, if request.attempts > 0 then Some(request) else None);
        return;
      }
      request := AddAttempt(request, reason.value);
      waits := waits + [wait.value];
    }
    final := StillRunning;
  }

  lemma {:induction false} RecordedIsRetried(errorMap: ErrorMap, idempotent: bool, outcomes: seq<Outcome>, n: nat)
    requires n <= |outcomes| && RetryableUpTo(errorMap, outcomes, n)
    ensures var r := RequestAfter(errorMap, idempotent, outcomes, n);
            && r.idempotent == idempotent && r.attempts == n
            && r.reasons == set i | 0 <= i < n :: ReasonOf(errorMap, outcomes[i].error).value
  {
    if n > 0 {
      RecordedIsRetried(errorMap, idempotent, outcomes, n - 1);
      assert (set i | 0 <= i < n :: ReasonOf(errorMap, outcomes[i].error).value) ==
             (set i | 0 <= i < n - 1 :: ReasonOf(errorMap, outcomes[i].error).value)
             + {ReasonOf(errorMap, outcomes[n - 1].error).value};
    }
  }

  /** Under both strategies a non-idempotent request is not run again after its connection closed in flight. */
  lemma NoRerunAfterClosedInFlight(
    strategy: Strategy, errorMap: ErrorMap, outcomes: seq<Outcome>, i: nat)
    requires !strategy.Custom?
    requires i < |outcomes| && RetryableUpTo(errorMap, outcomes, i) && outcomes[i] == Failure(MemdxClosedInFlight)
    ensures Decision(strategy, errorMap, false, outcomes, i) == None
  {
    RecordedIsRetried(errorMap, false, outcomes, i);
  }

  // ---------------------------------------------------------------- which errors, and how long

  /** The error is this server error, by itself or with a resource. */
  predicate FromServer(e: Error, cause: ServerError) {
    e == MemdxServer(cause) || e == MemdxResource(cause)
  }

  /** The errors that have a given reason. */
  ghost predicate HasReason(errorMap: ErrorMap, e: Error, reason: Reason) {
    match reason
    case KvNotMyVbucket => FromServer(e, NotMyVbucket)
    case KvTemporaryFailure => FromServer(e, TmpFail)
    case KvCollectionOutdated => FromServer(e, UnknownCollectionID) || FromServer(e, UnknownCollectionName)
    case KvLocked => FromServer(e, Locked)
    case KvSyncWriteInProgress => FromServer(e, SyncWriteInProgress)
    case KvSyncWriteRecommitInProgress => FromServer(e, SyncWriteRecommitInProgress)
    case KvErrorMapRetryIndicated => exists status :: FromServer(e, UnknownStatus(status)) && errorMap(status)
    case KvInvalidVbucketMap => e == NoVbucketMap
    case ServiceNotAvailable => e == ServiceMissing
    case SocketClosedWhileInFlight => e == MemdxClosedInFlight
    case SocketNotAvailable => e == MemdxDispatch
    case QueryPreparedStatementFailure => e == QueryPreparedFailure
    case QueryIndexNotFound => e == QueryNoIndex
    case SearchTooManyRequests => e == SearchStatus(429)
    case HttpSendRequestFailed => e == HttpSend
    case NotReady => false
  }

  /** The classification of errors, reason by reason. */
  lemma ReasonsExactly(errorMap: ErrorMap, e: Error, reason: Reason)
    ensures ReasonOf(errorMap, e) == Some(reason) <==> HasReason(errorMap, e, reason)
  {
    if e.MemdxServer? && e.e.UnknownStatus? {
      assert FromServer(e, UnknownStatus(e.e.status));
    }
    if e.MemdxResource? && e.cause.UnknownStatus? {
      assert FromServer(e, UnknownStatus(e.cause.status));
    }
  }

  /** The errors that have no reason to be retried. */
  ghost predicate Hopeless(errorMap: ErrorMap, e: Error) {
    || e == MemdxOtherCancelled || e == OtherError || FromServer(e, OtherServerError)
    || (e.SearchStatus? && e.code != 429)
    || exists status :: FromServer(e, UnknownStatus(status)) && !errorMap(status)
  }

  lemma ReasonIffNotHopeless(errorMap: ErrorMap, e: Error)
    ensures ReasonOf(errorMap, e).Some? <==> !Hopeless(errorMap, e)
  {
    if e.MemdxServer? && e.e.UnknownStatus? {
      assert FromServer(e, UnknownStatus(e.e.status));
    }
    if e.MemdxResource? && e.cause.UnknownStatus? {
      assert FromServer(e, UnknownStatus(e.cause.status));
    }
  }

  /** The errors that are retried under every strategy: the client's view of the cluster is outdated. */
  ghost predicate Outdated(e: Error) {
    || e == NoVbucketMap || FromServer(e, NotMyVbucket)
    || FromServer(e, UnknownCollectionID) || FromServer(e, UnknownCollectionName)
  }

  /** They wait 10, 50, 100 and 500 milliseconds, and one second from the fifth retry on, whatever the strategy. */
  lemma OutdatedWaits(strategy: Strategy, errorMap: ErrorMap, idempotent: bool, outcomes: seq<Outcome>, i: nat)
    requires i < |outcomes| && RetryableUpTo(errorMap, outcomes, i) && outcomes[i].Failure?
    requires Outdated(outcomes[i].error)
    ensures Decision(strategy, errorMap, idempotent, outcomes, i) ==
            Some(if i == 0 then 10 else if i == 1 then 50 else if i == 2 then 100 else if i == 3 then 500 else 1000)
  {
    RecordedIsRetried(errorMap, idempotent, outcomes, i);
  }

  /** All others wait as the strategy says: best effort by the number of retries so far, a custom one as it decides. */
  lemma StrategyWaits(strategy: Strategy, errorMap: ErrorMap, idempotent: bool, outcomes: seq<Outcome>, i: nat)
    requires i < |outcomes| && RetryableUpTo(errorMap, outcomes, i) && outcomes[i].Failure?
    requires !Outdated(outcomes[i].error) && !Hopeless(errorMap, outcomes[i].error)
    ensures var d := Decision(strategy, errorMap, idempotent, outcomes, i);
            && (strategy.FailFast? ==> d == None)
            && (strategy.BestEffort? && (idempotent || outcomes[i].error != MemdxClosedInFlight) ==>
                  d == Some(strategy.backoff(i)))
            && (strategy.Custom? ==>
                  d == strategy.decide(
                         RequestAfter(errorMap, idempotent, outcomes, i), ReasonOf(errorMap, outcomes[i].error).value))
  {
    ReasonIffNotHopeless(errorMap, outcomes[i].error);
    RecordedIsRetried(errorMap, idempotent, outcomes, i);
  }

  /** Best effort retries exactly the errors with a reason, save closed-in-flight ones of non-idempotent requests. */
  lemma BestEffortRetriesIff(backoff: nat -> nat, errorMap: ErrorMap, idempotent: bool, outcomes: seq<Outcome>, i: nat)
    requires i < |outcomes| && RetryableUpTo(errorMap, outcomes, i) && outcomes[i].Failure?
    ensures Decision(BestEffort(backoff), errorMap, idempotent, outcomes, i).Some? <==>
            !Hopeless(errorMap, outcomes[i].error) && (idempotent || outcomes[i].error != MemdxClosedInFlight)
  {
    ReasonIffNotHopeless(errorMap, outcomes[i].error);
    RecordedIsRetried(errorMap, idempotent, outcomes, i);
  }

  /** Fail fast still retries the errors that are always retried, and nothing else. */
  lemma FailFastRetriesIff(errorMap: ErrorMap, idempotent: bool, outcomes: seq<Outcome>, i: nat)
    requires i < |outcomes| && RetryableUpTo(errorMap, outcomes, i) && outcomes[i].Failure?
    ensures Decision(FailFast, errorMap, idempotent, outcomes, i).Some? <==> Outdated(outcomes[i].error)
  {}
}
