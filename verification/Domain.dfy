/** Values shared by every part of the model. */
module Wrappers {
  datatype Option<+T> = None | Some(value: T) {
    function GetOr(default: T): T {
      if Some? then value else default
    }
  }
}

/** Lists of identifiers. */
module Identifiers {
  predicate IsDistinct(ids: seq<nat>) {
    forall i, j :: 0 <= i < j < |ids| ==> ids[i] != ids[j]
  }

  function MembersOf(ids: seq<nat>): set<nat> {
    set id | id in ids
  }
}

/** The notification lifecycle: its states and the table of legal moves. */
module Lifecycle {
  datatype Status = Scheduled | Queued | Processing | Sent | Delivered | Retrying | Failed | Cancelled

  function Successors(from: Status): set<Status> {
    match from
    case Scheduled => {Queued, Cancelled}
    case Queued => {Processing, Cancelled}
    case Processing => {Sent, Retrying, Failed}
    case Sent => {Delivered, Failed}
    case Retrying => {Processing, Cancelled, Failed}
    case Delivered => {}
    case Failed => {}
    case Cancelled => {}
  }

  predicate CanTransition(from: Status, to: Status) {
    to in Successors(from)
  }

  predicate IsTerminal(status: Status) {
    status in {Delivered, Failed, Cancelled}
  }

  predicate IsCancellable(status: Status) {
    CanTransition(status, Cancelled)
  }
}

/** Why a send failed, and what the platform concludes from it. */
module Failures {
  import opened Wrappers

  datatype FailureCode =
    | ProviderUnreachable | ProviderConnectionLost | ProviderTimeout | ProviderAborted
    | ProviderRateLimited | ProviderServerError | ProviderUnauthorized | ProviderInvalidRequest
    | ProviderUnknownError | ProviderResponseUnreadable | SessionMissing | SessionNotReady
    | RecipientNotOnWhatsApp | RecipientCheckFailed | ProviderAcknowledgementError
    | ProviderOutcomeUnknown | UnknownOutcomeFailClosed | MaximumAttemptsExhausted
    | DeliveryWindowExpired | ConnectionUnavailable | ConnectionPaused | ConnectionRestricted
    | NewChatQuotaExceeded

  datatype ProviderFailure = ProviderFailure(
    code: FailureCode,
    retryAfterSeconds: Option<nat>,
    providerStatusCode: Option<int>)

  /** The table that classifies a failure as worth another try or final. */
  predicate IsRetryable(code: FailureCode) {
    match code
    case ProviderUnauthorized => false
    case ProviderInvalidRequest => false
    case SessionMissing => false
    case RecipientNotOnWhatsApp => false
    case ProviderAcknowledgementError => false
    case UnknownOutcomeFailClosed => false
    case MaximumAttemptsExhausted => false
    case DeliveryWindowExpired => false
    case ConnectionUnavailable => false
    case ConnectionRestricted => false
    case NewChatQuotaExceeded => false
    case _ => true
  }

  /** Failures after which the provider may or may not have taken the message. */
  predicate HasUnknownOutcome(code: FailureCode) {
    code in {ProviderConnectionLost, ProviderTimeout, ProviderAborted, ProviderOutcomeUnknown,
             ProviderResponseUnreadable}
  }

  /** The provider has forgotten the session; its own record is not what is missing. */
  predicate IsSessionLostByProvider(failure: ProviderFailure) {
    failure.code == SessionMissing && failure.providerStatusCode.Some?
  }
}

/** The backoff curve: exponential, capped, with equal jitter. Delays are in seconds. */
module Retry {
  const BASE_DELAY_SECONDS := 60
  const BACKOFF_FACTOR := 3
  const MAXIMUM_DELAY_SECONDS := 3600
  const SESSION_NOT_READY_MINIMUM_DELAY_SECONDS := 300

  function Power(base: nat, exponent: nat): nat {
    if exponent == 0 then 1 else base * Power(base, exponent - 1)
  }

  function CappedDelay(attempt: nat): nat
    requires attempt >= 1
  {
    var exponential := BASE_DELAY_SECONDS * Power(BACKOFF_FACTOR, attempt - 1);
    if exponential < MAXIMUM_DELAY_SECONDS then exponential else MAXIMUM_DELAY_SECONDS
  }

  /** The random draw a caller may make: from 0 to this, both included. */
  function JitterBound(attempt: nat): nat
    requires attempt >= 1
  {
    CappedDelay(attempt) - CappedDelay(attempt) / 2
  }

  function RetryDelay(attempt: nat, draw: nat): nat
    requires attempt >= 1
  {
    CappedDelay(attempt) / 2 + draw
  }

  function Max(x: int, y: int): int {
    if x < y then y else x
  }

  /** When the next try is due, in milliseconds, given a floor in seconds. */
  function NextAttemptAt(attempt: nat, draw: nat, now: int, floor: nat): int
    requires attempt >= 1
  {
    now + 1000 * Max(RetryDelay(attempt, draw), floor)
  }

  lemma {:induction false} CappedDelayClosedForm(attempt: nat)
    requires attempt >= 1
    ensures attempt == 1 ==> CappedDelay(attempt) == 60
    ensures attempt == 2 ==> CappedDelay(attempt) == 180
    ensures attempt == 3 ==> CappedDelay(attempt) == 540
    ensures attempt == 4 ==> CappedDelay(attempt) == 1620
    ensures attempt >= 5 ==> CappedDelay(attempt) == 3600
  {
    assert Power(3, 1) == 3;
    assert Power(3, 2) == 9;
    assert Power(3, 3) == 27;
    assert Power(3, 4) == 81;
    if attempt >= 5 {
      PowerGrows(4, attempt - 1);
    }
  }

  lemma {:induction false} PowerGrows(small: nat, large: nat)
    requires small <= large
    ensures Power(3, small) <= Power(3, large)
  {
    if small < large {
      PowerGrows(small, large - 1);
    }
  }

  /** Every retry waits at least half the capped curve, and at least the floor; never more than both allow. */
  lemma RetryDelayBounds(attempt: nat, draw: nat, now: int, floor: nat)
    requires attempt >= 1 && draw <= JitterBound(attempt)
    ensures now + 1000 * Max(CappedDelay(attempt) / 2, floor) <= NextAttemptAt(attempt, draw, now, floor)
    ensures NextAttemptAt(attempt, draw, now, floor) <= now + 1000 * Max(CappedDelay(attempt), floor)
    ensures 30 <= CappedDelay(attempt) / 2
    ensures RetryDelay(attempt, 0) == CappedDelay(attempt) / 2
    ensures RetryDelay(attempt, JitterBound(attempt)) == CappedDelay(attempt)
  {
    CappedDelayClosedForm(attempt);
  }
}
