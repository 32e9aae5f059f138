/**
 * The rows the delivery protocol reads and writes, and each database statement
 * on them as a function: the guard in its where clause, then the columns it sets.
 * Instants are milliseconds; a missing result means the statement matched no row.
 */
module Rows {
  import opened Wrappers
  import opened Lifecycle
  import opened Failures

  type Token = nat

  datatype Notification = Notification(
    status: Status,
    createdAt: int,
    scheduledAt: Option<int>,
    maximumAttempts: nat,
    attemptCount: nat,
    nextAttemptAt: Option<int>,
    claimToken: Option<Token>,
    claimedAt: Option<int>,
    recipientChat: Option<string>,
    providerMessageId: Option<string>,
    acknowledgement: int,
    sentAt: Option<int>,
    deliveredAt: Option<int>,
    readAt: Option<int>,
    failedAt: Option<int>,
    cancelledAt: Option<int>,
    failureCode: Option<FailureCode>)
  {
    /** Since when the notification has been free to go out. */
    function DueSince(): int {
      scheduledAt.GetOr(createdAt)
    }
  }

  datatype AttemptOutcome = AttemptSucceeded | AttemptFailed | AttemptUnknown

  datatype Attempt = Attempt(
    outcome: Option<AttemptOutcome>,
    providerMessageId: Option<string>,
    failureCode: Option<FailureCode>)

  /** The send-attempt ledger of one notification, keyed by its unique attempt number. */
  type Ledger = map<nat, Attempt>

  function NewNotification(createdAt: int, scheduledAt: Option<int>, maximumAttempts: nat): Notification {
    Notification(if scheduledAt.Some? then Scheduled else Queued, createdAt, scheduledAt, maximumAttempts,
                 0, None, None, None, None, None, 0, None, None, None, None, None, None)
  }

  // ----- statements on the notification row -----

  function PromoteScheduled(row: Notification, now: int): Option<Notification> {
    if row.status == Scheduled && row.scheduledAt.Some? && row.scheduledAt.value <= now
    then Some(row.(status := Queued))
    else None
  }

  predicate IsClaimable(row: Notification, now: int) {
    || row.status == Queued
    || (row.status == Retrying && row.nextAttemptAt.Some? && row.nextAttemptAt.value <= now)
  }

  /** Waiting, but for an instant still to come. */
  predicate IsEarly(row: Notification, now: int) {
    || (row.status == Scheduled && row.scheduledAt.Some? && row.scheduledAt.value > now)
    || (row.status == Retrying && row.nextAttemptAt.Some? && row.nextAttemptAt.value > now)
  }

  function ClaimForDispatch(row: Notification, token: Token, now: int): Option<Notification> {
    if IsClaimable(row, now)
    then Some(row.(status := Processing, claimToken := Some(token), claimedAt := Some(now)))
    else None
  }

  /** The new attempt count is the number of the attempt that begins. */
  function BeginAttempt(row: Notification, token: Token, chat: string): Option<Notification> {
    if row.status == Processing && row.claimToken == Some(token)
    then Some(row.(attemptCount := row.attemptCount + 1, recipientChat := Some(chat)))
    else None
  }

  /** The column sets the callers of a status transition write. */
  datatype Changes =
    | ToSent(providerMessageId: string, chat: string, at: int)
    | ToRetry(nextAttemptAt: int, code: FailureCode)
    | ToDeferred(nextAttemptAt: int)
    | ToFailed(code: FailureCode, at: int)
    | ToCancelled(at: int)
    | ToAcknowledged(next: Status, merged: int, marksDelivered: bool, marksRead: bool, at: int)

  function NextStatus(changes: Changes): Status {
    match changes
    case ToSent(_, _, _) => Sent
    case ToRetry(_, _) => Retrying
    case ToDeferred(_) => Retrying
    case ToFailed(_, _) => Failed
    case ToCancelled(_) => Cancelled
    case ToAcknowledged(next, _, _, _, _) => next
  }

  function Write(row: Notification, changes: Changes): Notification {
    match changes
    case ToSent(id, chat, at) =>
      row.(status := Sent, providerMessageId := Some(id), recipientChat := Some(chat), sentAt := Some(at),
           claimToken := None, claimedAt := None, nextAttemptAt := None)
    case ToRetry(next, code) =>
      row.(status := Retrying, nextAttemptAt := Some(next), failureCode := Some(code),
           claimToken := None, claimedAt := None)
    case ToDeferred(next) =>
      row.(status := Retrying, nextAttemptAt := Some(next), claimToken := None, claimedAt := None)
    case ToFailed(code, at) =>
      row.(status := Failed, failedAt := Some(at), failureCode := Some(code),
           claimToken := None, claimedAt := None, nextAttemptAt := None)
    case ToCancelled(at) =>
      row.(status := Cancelled, cancelledAt := Some(at))
    case ToAcknowledged(next, merged, marksDelivered, marksRead, at) =>
      row.(status := next, acknowledgement := merged,
           deliveredAt := if marksDelivered then Some(at) else row.deliveredAt,
           readAt := if marksRead then Some(at) else row.readAt,
           failedAt := if merged == -1 then Some(at) else row.failedAt,
           failureCode := if merged == -1 then Some(ProviderAcknowledgementError) else row.failureCode)
  }

  /** Guarded by the status alone: not by the claim token, not by any other column. */
  function ApplyTransition(row: Notification, expected: Status, changes: Changes): Option<Notification> {
    if row.status == expected then Some(Write(row, changes)) else None
  }

  /** One row's part of cancelling everything that waits. */
  function CancelWaitingRow(row: Notification, now: int): Option<Notification> {
    if row.status in {Queued, Retrying}
    then Some(row.(status := Cancelled, cancelledAt := Some(now), nextAttemptAt := None))
    else None
  }

  // ----- statements on the ledger -----

  /** The insert; a number already in the ledger violates its unique index. */
  function Begin(ledger: Ledger, number: nat): Option<Ledger> {
    if number in ledger then None else Some(ledger[number := Attempt(None, None, None)])
  }

  /** Overwrites the outcome whatever it was; a number not in the ledger changes nothing. */
  function Resolve(ledger: Ledger, number: nat, resolved: Attempt): Ledger {
    if number in ledger then ledger[number := resolved] else ledger
  }

  predicate IsUnresolved(ledger: Ledger, number: nat) {
    number in ledger && ledger[number].outcome.None?
  }

  predicate HasUnresolved(ledger: Ledger) {
    exists number | number in ledger :: ledger[number].outcome.None?
  }
}
