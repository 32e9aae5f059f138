/**
 * What a dispatch leaves behind, case by case, told in the columns of the row: which cases
 * fail the notification and with which code, which put it back and until when, and which
 * send it. Every claim ends in one of these cases.
 */
module DispatchOutcomes {
  import opened Wrappers
  import opened Lifecycle
  import opened Failures
  import opened FailureKinds
  import opened Retry
  import opened Rows
  import opened Delivery
  import opened DispatchService

  // ----- the three ways a dispatch ends without sending -----

  /** Finished, with this code, and nothing of the claim or the next try left. */
  predicate IsFailed(before: Notification, result: Result, code: FailureCode, now: int) {
    && result.outcome == ReportFailed
    && result.row == before.(status := Failed, failedAt := Some(now), failureCode := Some(code),
                             claimToken := None, claimedAt := None, nextAttemptAt := None)
  }

  /** Put back with this code, for a wait by the curve of attempt `n` or the floor, whichever is longer. */
  predicate IsRetried(before: Notification, result: Result, code: FailureCode, n: nat, floor: nat, now: int)
    requires n >= 1
  {
    && result.outcome == ReportRetry
    && result.row.nextAttemptAt.Some?
    && result.row.nextAttemptAt.value >= now + 1000 * Max(CappedDelay(n) / 2, floor)
    && result.row.nextAttemptAt.value <= now + 1000 * Max(CappedDelay(n), floor)
    && result.row == before.(status := Retrying, nextAttemptAt := result.row.nextAttemptAt, failureCode := Some(code),
                             claimToken := None, claimedAt := None)
  }

  /** Put back quietly until an instant, its last failure untouched. */
  predicate IsDeferred(before: Notification, result: Result, until: int) {
    && result.outcome == ReportDeferred
    && result.row == before.(status := Retrying, nextAttemptAt := Some(until), claimToken := None, claimedAt := None)
  }

  /** Since when it was free to go out. */
  function FreeSince(row: Notification): int {
    match row.scheduledAt
    case Some(at) => at
    case None => row.createdAt
  }

  /** The attempts made so far, one at least. */
  function Tried(row: Notification): nat {
    if row.attemptCount == 0 then 1 else row.attemptCount
  }

  /**
   * Waits for its connection: as long as it may, failing once it has waited longer. The first
   * time is a retry; the others, known by the code already there, are quiet.
   */
  predicate AwaitsConnection(cfg: Config, before: Notification, result: Result, now: int) {
    if now > FreeSince(before) + cfg.connectionWaitMs then IsFailed(before, result, ConnectionUnavailable, now)
    else if before.failureCode == Some(SessionNotReady) then IsDeferred(before, result, now + 300_000)
    else IsRetried(before, result, SessionNotReady, Tried(before), 300, now)
  }

  ghost predicate DrawsFairly(script: Script) {
    forall bound: nat :: script.draw(bound) <= bound
  }

  lemma RetryIsRetried(before: Notification, snapshot: Notification, ledger: Ledger, calls: seq<Call>,
                       code: FailureCode, retryAfter: Option<nat>, minimum: nat, attempt: Option<nat>, script: Script,
                       now: int)
    requires before.status == Processing && DrawsFairly(script)
    ensures var n := attempt.GetOr(snapshot.attemptCount);
            IsRetried(before, Finish(before, ledger, calls,
                        RetryWith(snapshot, code, retryAfter, minimum, attempt, DrawFor(script, snapshot, attempt),
                                  now)),
                      code, if n == 0 then 1 else n,
                      match retryAfter case Some(asked) => Max(minimum, asked) case None => minimum, now)
  {
    var n := attempt.GetOr(snapshot.attemptCount);
    RetryDelayBounds(if n == 0 then 1 else n, DrawFor(script, snapshot, attempt), now,
                     Max(minimum, retryAfter.GetOr(0)));
  }

  lemma WaitAwaits(cfg: Config, before: Notification, snapshot: Notification, ledger: Ledger, calls: seq<Call>,
                   script: Script, now: int)
    requires before.status == Processing && DrawsFairly(script) && snapshot.failureCode == before.failureCode
    requires FreeSince(snapshot) == FreeSince(before)
    ensures var result := Finish(before, ledger, calls,
                                 WaitForConnection(cfg, snapshot, now, DrawFor(script, snapshot, None), now));
            if now <= FreeSince(before) + cfg.connectionWaitMs && before.failureCode != Some(SessionNotReady)
            then IsRetried(before, result, SessionNotReady, Tried(snapshot), 300, now)
            else AwaitsConnection(cfg, before, result, now)
  {
    RetryIsRetried(before, snapshot, ledger, calls, SessionNotReady, None, 300, None, script, now);
  }

  // ----- before the provider is asked -----

  /** Past its window, whatever else: no call, and the ledger is not looked at. */
  lemma LateIsFailed(cfg: Config, claimed: Notification, ledger: Ledger, calls: seq<Call>, script: Script, now: int)
    requires claimed.status == Processing && now > FreeSince(claimed) + cfg.windowMs
    ensures var result := AfterClaim(cfg, claimed, ledger, calls, script, now);
            IsFailed(claimed, result, DeliveryWindowExpired, now) && result.ledger == ledger && result.calls == calls
  {
  }

  /** What follows an outcome nobody knows: the tenant's policy first, then the budget. */
  predicate FollowsUnknown(before: Notification, result: Result, number: nat, policy: Policy, now: int) {
    if policy == FailClosed then IsFailed(before, result, UnknownOutcomeFailClosed, now)
    else if number >= before.maximumAttempts then IsFailed(before, result, MaximumAttemptsExhausted, now)
    else IsRetried(before, result, ProviderOutcomeUnknown, if number == 0 then 1 else number, 0, now)
  }

  /** An attempt an earlier dispatch left open is settled as UNKNOWN, and nothing new is sent. */
  lemma OpenAttemptIsUnknown(cfg: Config, claimed: Notification, ledger: Ledger, calls: seq<Call>, number: nat,
                             script: Script, now: int)
    requires claimed.status == Processing && DrawsFairly(script) && now <= FreeSince(claimed) + cfg.windowMs
    requires number in ledger && ledger[number].outcome.None?
    requires forall other :: other in ledger && other < number ==> ledger[other].outcome.Some?
    ensures var result := AfterClaim(cfg, claimed, ledger, calls, script, now);
            && FollowsUnknown(claimed, result, number, script.policy, now)
            && result.ledger == ledger[number := Attempt(Some(AttemptUnknown), None, Some(ProviderOutcomeUnknown))]
            && result.calls == calls
  {
    FirstUnresolvedExists(ledger);
    assert IsFirstUnresolved(ledger, number) && IsFirstUnresolved(ledger, FirstUnresolved(ledger));
    assert FirstUnresolved(ledger) == number;
    var resolved := Attempt(Some(AttemptUnknown), None, Some(ProviderOutcomeUnknown));
    UnknownIsFollowed(claimed, claimed, ledger[number := resolved], calls, number, script, now);
  }

  /** In its window, with every earlier attempt resolved. */
  predicate IsFree(cfg: Config, claimed: Notification, ledger: Ledger, now: int) {
    && claimed.status == Processing && now <= FreeSince(claimed) + cfg.windowMs
    && forall number | number in ledger :: ledger[number].outcome.Some?
  }

  /** Without a session the notification fails; on one that cannot send it waits. */
  lemma WithoutConnection(cfg: Config, claimed: Notification, ledger: Ledger, calls: seq<Call>, script: Script,
                          now: int)
    requires IsFree(cfg, claimed, ledger, now) && DrawsFairly(script)
    requires script.session.None? || !script.session.value.canSend
    ensures var result := AfterClaim(cfg, claimed, ledger, calls, script, now);
            && result.ledger == ledger && result.calls == calls
            && if script.session.None? then IsFailed(claimed, result, SessionMissing, now)
               else AwaitsConnection(cfg, claimed, result, now)
  {
    WaitAwaits(cfg, claimed, claimed, ledger, calls, script, now);
  }

  /**
   * On a paused session it waits for the pause to end and a draw of seconds more, if that is
   * within what a disconnection may take, and fails at once otherwise.
   */
  lemma WhilePaused(cfg: Config, claimed: Notification, ledger: Ledger, calls: seq<Call>, script: Script, until: int,
                    now: int)
    requires IsFree(cfg, claimed, ledger, now) && DrawsFairly(script)
    requires script.session.Some? && script.session.value.canSend && script.session.value.pausedUntil == Some(until)
    requires until > now
    ensures var result := AfterClaim(cfg, claimed, ledger, calls, script, now);
            var resumeAt := until + script.spreadSeconds * 1000;
            && result.ledger == ledger && result.calls == calls
            && if until > FreeSince(claimed) + cfg.connectionWaitMs
               then IsFailed(claimed, result, ConnectionRestricted, now)
               else if claimed.failureCode == Some(ConnectionPaused) then IsDeferred(claimed, result, resumeAt)
               else
                 var seconds := (resumeAt - now + 999) / 1000;
                 && seconds > 0 && now + 1000 * seconds >= resumeAt
                 && IsRetried(claimed, result, ConnectionPaused, Tried(claimed), seconds, now)
  {
    var seconds := (until + script.spreadSeconds * 1000 - now + 999) / 1000;
    RetryIsRetried(claimed, claimed, ledger, calls, ConnectionPaused, None, seconds, None, script, now);
  }

  predicate IsOpen(script: Script, now: int) {
    && script.session.Some? && script.session.value.canSend
    && (script.session.value.pausedUntil.None? || script.session.value.pausedUntil.value <= now)
  }

  /** With the slot taken it waits for the slot, to the whole millisecond. */
  lemma WhilePaced(cfg: Config, claimed: Notification, ledger: Ledger, calls: seq<Call>, script: Script, now: int)
    requires IsFree(cfg, claimed, ledger, now) && IsOpen(script, now)
    requires script.session.value.nextSendAllowedAtMicros > now * 1000
    ensures var result := AfterClaim(cfg, claimed, ledger, calls, script, now);
            && result.ledger == ledger && result.calls == calls
            && exists until :: IsDeferred(claimed, result, until)
                 && until * 1000 <= script.session.value.nextSendAllowedAtMicros < (until + 1) * 1000
  {
    var until := script.session.value.nextSendAllowedAtMicros / 1000;
    assert IsDeferred(claimed, AfterClaim(cfg, claimed, ledger, calls, script, now), until);
  }

  predicate HasSlot(script: Script, now: int) {
    IsOpen(script, now) && script.session.value.nextSendAllowedAtMicros <= now * 1000
  }

  lemma UnresolvedHolds(cfg: Config, claimed: Notification, ledger: Ledger, calls: seq<Call>, script: Script,
                        failure: ProviderFailure, now: int)
    requires IsFree(cfg, claimed, ledger, now) && HasSlot(script, now) && script.recipient == Unresolvable(failure)
    ensures AfterClaim(cfg, claimed, ledger, calls, script, now)
            == Finish(claimed, ledger, calls, Respond(cfg, claimed, RecipientUnresolved(failure, now),
                                                      DrawFor(script, claimed, None), now))
  {
  }

  lemma LostRecipientAwaits(cfg: Config, claimed: Notification, ledger: Ledger, calls: seq<Call>, script: Script,
                            failure: ProviderFailure, now: int)
    requires claimed.status == Processing && DrawsFairly(script) && LostSession(failure)
    ensures AwaitsConnection(cfg, claimed, Finish(claimed, ledger, calls,
              Respond(cfg, claimed, RecipientUnresolved(failure, now), DrawFor(script, claimed, None), now)), now)
  {
    WaitAwaits(cfg, claimed, claimed, ledger, calls, script, now);
  }

  lemma RetriedRecipient(cfg: Config, claimed: Notification, ledger: Ledger, calls: seq<Call>, script: Script,
                         failure: ProviderFailure, now: int)
    requires claimed.status == Processing && DrawsFairly(script) && failure.code in RETRIED + AMBIGUOUS
    ensures IsRetried(claimed, Finish(claimed, ledger, calls,
                        Respond(cfg, claimed, RecipientUnresolved(failure, now), DrawFor(script, claimed, None), now)),
                      failure.code, Tried(claimed),
                      if failure.retryAfterSeconds.Some? && failure.retryAfterSeconds.value > 300
                      then failure.retryAfterSeconds.value else 300, now)
  {
    CodesAreOfOneKind(failure.code);
    RetryIsRetried(claimed, claimed, ledger, calls, failure.code, failure.retryAfterSeconds, 300, None, script, now);
  }

  /**
   * A recipient that cannot be looked up, by the code: a lost session waits for its connection,
   * a final code fails, any other is tried again in five minutes or more. No attempt is spent.
   */
  lemma WithoutRecipient(cfg: Config, claimed: Notification, ledger: Ledger, calls: seq<Call>, script: Script,
                         failure: ProviderFailure, now: int)
    requires IsFree(cfg, claimed, ledger, now) && DrawsFairly(script) && HasSlot(script, now)
    requires script.recipient == Unresolvable(failure)
    ensures var result := AfterClaim(cfg, claimed, ledger, calls, script, now);
            && result.ledger == ledger && result.calls == calls
            && (LostSession(failure) ==> AwaitsConnection(cfg, claimed, result, now))
            && (!LostSession(failure) && failure.code in FINAL ==> IsFailed(claimed, result, failure.code, now))
            && (failure.code in RETRIED + AMBIGUOUS ==>
                  IsRetried(claimed, result, failure.code, Tried(claimed),
                            if failure.retryAfterSeconds.Some? && failure.retryAfterSeconds.value > 300
                            then failure.retryAfterSeconds.value else 300, now))
  {
    UnresolvedHolds(cfg, claimed, ledger, calls, script, failure, now);
    if LostSession(failure) {
      LostRecipientAwaits(cfg, claimed, ledger, calls, script, failure, now);
    } else if failure.code in FINAL {
      CodesAreOfOneKind(failure.code);
    } else {
      RetriedRecipient(cfg, claimed, ledger, calls, script, failure, now);
    }
  }

  /** A number that is not on WhatsApp fails; a worker asked to stop puts the notification back as it was. */
  lemma WithoutSending(cfg: Config, claimed: Notification, ledger: Ledger, calls: seq<Call>, script: Script, now: int)
    requires IsFree(cfg, claimed, ledger, now) && HasSlot(script, now)
    requires script.recipient.Unregistered? || (script.recipient.Chat? && script.aborted)
    ensures var result := AfterClaim(cfg, claimed, ledger, calls, script, now);
            && result.ledger == ledger && result.calls == calls
            && if script.recipient.Unregistered? then IsFailed(claimed, result, RecipientNotOnWhatsApp, now)
               else IsDeferred(claimed, result, now)
  {
  }

  // ----- from the attempt on -----

  /** Nothing holds the notification back. */
  predicate IsReady(cfg: Config, claimed: Notification, ledger: Ledger, script: Script, now: int) {
    IsFree(cfg, claimed, ledger, now) && HasSlot(script, now) && script.recipient.Chat? && !script.aborted
  }

  /** The row with one more attempt counted on it. */
  function Counted(claimed: Notification, script: Script): Notification
    requires script.recipient.Chat?
  {
    claimed.(attemptCount := claimed.attemptCount + 1, recipientChat := Some(script.recipient.chat))
  }

  /** With the budget used up the attempt is counted, and the notification fails without a call. */
  lemma UsedUpIsFailed(cfg: Config, claimed: Notification, ledger: Ledger, calls: seq<Call>, script: Script, now: int)
    requires IsReady(cfg, claimed, ledger, script, now) && claimed.attemptCount >= claimed.maximumAttempts
    ensures var result := AfterClaim(cfg, claimed, ledger, calls, script, now);
            && IsFailed(Counted(claimed, script), result, MaximumAttemptsExhausted, now) && result.calls == calls
            && result.ledger == ledger[claimed.attemptCount + 1 := Attempt(None, None, None)]
  {
  }

  /** Ready, with an attempt left: the provider is called, once, under the next number. */
  predicate IsCalled(cfg: Config, claimed: Notification, ledger: Ledger, script: Script, now: int) {
    IsReady(cfg, claimed, ledger, script, now) && claimed.attemptCount < claimed.maximumAttempts
  }

  lemma CalledIsAnswered(cfg: Config, claimed: Notification, ledger: Ledger, calls: seq<Call>, script: Script, now: int)
    requires IsCalled(cfg, claimed, ledger, script, now)
    ensures var n := claimed.attemptCount + 1;
            AfterClaim(cfg, claimed, ledger, calls, script, now)
            == AfterCall(cfg, Counted(claimed, script), ledger[n := Attempt(None, None, None)], calls, claimed, n,
                         script.recipient.chat, script, now)
  {
  }

  lemma ResolvedAtOnce(ledger: Ledger, n: nat, resolved: Attempt)
    ensures Resolve(ledger[n := Attempt(None, None, None)], n, resolved) == ledger[n := resolved]
  {
  }

  lemma AcceptedIsSent(cfg: Config, claimed: Notification, ledger: Ledger, calls: seq<Call>, script: Script, id: string,
                       now: int)
    requires IsCalled(cfg, claimed, ledger, script, now) && script.answer == Accepted(id)
    ensures var result := AfterClaim(cfg, claimed, ledger, calls, script, now);
            var n := claimed.attemptCount + 1;
            && result.outcome == ReportSent
            && result.row == Counted(claimed, script).(status := Sent, providerMessageId := Some(id),
                               sentAt := Some(now), claimToken := None, claimedAt := None, nextAttemptAt := None)
            && result.ledger == ledger[n := Attempt(Some(AttemptSucceeded), Some(id), None)]
            && result.calls == calls + [Call(n, script.accepted, script.answer)]
  {
  }

  lemma UnknownIsFollowed(before: Notification, snapshot: Notification, ledger: Ledger, calls: seq<Call>, n: nat,
                          script: Script, now: int)
    requires before.status == Processing && DrawsFairly(script) && snapshot.maximumAttempts == before.maximumAttempts
    ensures FollowsUnknown(before, Finish(before, ledger, calls,
                             DecideUnknown(snapshot, n, script.policy, DrawFor(script, snapshot, Some(n)), now)),
                           n, script.policy, now)
  {
    RetryIsRetried(before, snapshot, ledger, calls, ProviderOutcomeUnknown, None, 0, Some(n), script, now);
  }

  lemma AmbiguousIsUnknown(cfg: Config, claimed: Notification, ledger: Ledger, calls: seq<Call>, script: Script,
                           failure: ProviderFailure, now: int)
    requires IsCalled(cfg, claimed, ledger, script, now) && DrawsFairly(script)
    requires script.answer == Rejected(failure) && failure.code in AMBIGUOUS
    ensures var result := AfterClaim(cfg, claimed, ledger, calls, script, now);
            var n := claimed.attemptCount + 1;
            && FollowsUnknown(Counted(claimed, script), result, n, script.policy, now)
            && result.ledger == ledger[n := Attempt(Some(AttemptUnknown), None, Some(failure.code))]
            && result.calls == calls + [Call(n, script.accepted, script.answer)]
  {
    var n := claimed.attemptCount + 1;
    var resolved := Attempt(Some(AttemptUnknown), None, Some(failure.code));
    var called := calls + [Call(n, script.accepted, script.answer)];
    CodesAreOfOneKind(failure.code);
    CalledIsAnswered(cfg, claimed, ledger, calls, script, now);
    ResolvedAtOnce(ledger, n, resolved);
    UnknownIsFollowed(Counted(claimed, script), claimed, ledger[n := resolved], called, n, script, now);
  }

  /** What follows a definite refusal of attempt `n`. */
  predicate FollowsRefusal(cfg: Config, before: Notification, result: Result, n: nat, failure: ProviderFailure,
                           now: int)
    requires n >= 1
  {
    var asked := if failure.retryAfterSeconds.Some? then failure.retryAfterSeconds.value else 0;
    if LostSession(failure) then
      if now > FreeSince(before) + cfg.connectionWaitMs then IsFailed(before, result, ConnectionUnavailable, now)
      else if before.failureCode == Some(SessionNotReady) then IsDeferred(before, result, now + 300_000)
      else IsRetried(before, result, SessionNotReady, if n == 1 then 1 else n - 1, 300, now)
    else if failure.code in FINAL then IsFailed(before, result, failure.code, now)
    else if n >= before.maximumAttempts then IsFailed(before, result, MaximumAttemptsExhausted, now)
    else IsRetried(before, result, failure.code, n,
                   if failure.code == SessionNotReady && asked < 300 then 300 else asked, now)
  }

  /**
   * A definite refusal is recorded as FAILED, and then: a session the provider lost is waited
   * for, a final code fails the notification, a used-up budget fails it, and what is left is
   * tried again under its own code.
   */
  lemma RefusedIsFollowed(cfg: Config, claimed: Notification, ledger: Ledger, calls: seq<Call>, script: Script,
                          failure: ProviderFailure, now: int)
    requires IsCalled(cfg, claimed, ledger, script, now) && DrawsFairly(script)
    requires script.answer == Rejected(failure) && failure.code in RETRIED + FINAL
    ensures var result := AfterClaim(cfg, claimed, ledger, calls, script, now);
            var n := claimed.attemptCount + 1;
            && FollowsRefusal(cfg, Counted(claimed, script), result, n, failure, now)
            && result.ledger == ledger[n := Attempt(Some(AttemptFailed), None, Some(failure.code))]
            && result.calls == calls + [Call(n, script.accepted, script.answer)]
  {
    var n := claimed.attemptCount + 1;
    var resolved := Attempt(Some(AttemptFailed), None, Some(failure.code));
    var called := calls + [Call(n, script.accepted, script.answer)];
    CodesAreOfOneKind(failure.code);
    CalledIsAnswered(cfg, claimed, ledger, calls, script, now);
    ResolvedAtOnce(ledger, n, resolved);
    if LostSession(failure) {
      LostIsFollowed(cfg, Counted(claimed, script), claimed, ledger[n := resolved], called, n, failure, script, now);
    } else {
      KeptIsFollowed(cfg, Counted(claimed, script), claimed, ledger[n := resolved], called, n, failure, script, now);
    }
  }

  lemma LostIsFollowed(cfg: Config, before: Notification, snapshot: Notification, ledger: Ledger, calls: seq<Call>,
                       n: nat, failure: ProviderFailure, script: Script, now: int)
    requires before.status == Processing && DrawsFairly(script) && LostSession(failure)
    requires snapshot.failureCode == before.failureCode && FreeSince(snapshot) == FreeSince(before)
    requires n == before.attemptCount == snapshot.attemptCount + 1
    ensures FollowsRefusal(cfg, before, Finish(before, ledger, calls,
              DecideRefusal(cfg, snapshot, n, failure, now, DrawFor(script, snapshot, None), now)), n, failure, now)
  {
    WaitAwaits(cfg, before, snapshot, ledger, calls, script, now);
  }

  lemma KeptIsFollowed(cfg: Config, before: Notification, snapshot: Notification, ledger: Ledger, calls: seq<Call>,
                       n: nat, failure: ProviderFailure, script: Script, now: int)
    requires before.status == Processing && DrawsFairly(script) && !LostSession(failure)
    requires failure.code in RETRIED + FINAL && snapshot.maximumAttempts == before.maximumAttempts && n >= 1
    ensures FollowsRefusal(cfg, before, Finish(before, ledger, calls,
              DecideRefusal(cfg, snapshot, n, failure, now, DrawFor(script, snapshot, Some(n)), now)), n, failure, now)
  {
    CodesAreOfOneKind(failure.code);
    RetryIsRetried(before, snapshot, ledger, calls, failure.code, failure.retryAfterSeconds,
                   if failure.code == SessionNotReady then 300 else 0, Some(n), script, now);
  }

  // ----- the claim itself -----

  /** A due notification is claimed, at the reading its dispatch began with. */
  lemma DueIsClaimed(cfg: Config, row: Notification, ledger: Ledger, calls: seq<Call>, script: Script, now: int)
    requires || row.status == Queued
             || (row.status == Retrying && row.nextAttemptAt.Some? && row.nextAttemptAt.value <= now)
             || (row.status == Scheduled && row.scheduledAt.Some? && row.scheduledAt.value <= now)
    ensures DispatchOnce(cfg, row, ledger, calls, script, now)
            == AfterClaim(cfg, row.(status := Processing, claimToken := Some(script.token), claimedAt := Some(now)),
                          ledger, calls, script, now)
  {
  }

  /** Any other is left as it is: deferred if it waits for an instant to come, and not claimable if not. */
  lemma EarlyJobChangesNothing(cfg: Config, row: Notification, ledger: Ledger, calls: seq<Call>, script: Script,
                               now: int)
    requires row.status != Queued
    requires row.status == Retrying && row.nextAttemptAt.Some? ==> row.nextAttemptAt.value > now
    requires row.status == Scheduled && row.scheduledAt.Some? ==> row.scheduledAt.value > now
    ensures DispatchOnce(cfg, row, ledger, calls, script, now)
            == Result(row, ledger, calls,
                      if (row.status == Scheduled && row.scheduledAt.Some?)
                         || (row.status == Retrying && row.nextAttemptAt.Some?)
                      then ReportDeferred else ReportNotClaimable)
  {
  }
}
