# Notification delivery: a verified model

The platform sends WhatsApp messages on behalf of tenant applications. This project models its hard
core in Dafny and proves what it promises, for every input, every run and every interleaving the
model allows.

**The delivery protocol.** Many workers dispatch one notification from a Postgres row. A worker
claims the row by compare-and-swap, counts an attempt and opens a ledger row in one transaction,
calls the provider (which offers no idempotency key), and commits the outcome. A reaper returns
abandoned claims, cancellations race, acknowledgement callbacks move the row on later. `Rows` holds
each database statement with exactly the guard of its where clause; `Delivery` makes every statement,
transaction and provider call one atomic step of one worker, together with ticks of the clock,
crashes, reaps, cancellations and callbacks. Whatever a step cannot know (the time read, the random
draw, the provider's answer, the tenant's policy) is part of its label, so a run is a sequence of
labels and a theorem about all sequences is a theorem about all runs.

* `DeliverySafety` holds for any number of workers, stale ones (reaped but still running) included:
  the ledger's numbering, why an attempt may begin, the budget of sends, the transition table.
* `FailStop` assumes that a reaped worker takes no further step. `lostWindows` counts crashes and reaps
  between the UNKNOWN write and the FAILED commit, which are two commits in the source; copies never
  exceed one plus that count, and one when there are none. A run in which only crashed workers are reaped
  is such a run, whatever the workers would have done (`FailStop.FailStopAgrees`).
* `DeliveryWitnesses` gives the runs that show these hypotheses cannot be dropped: fail-stop, the lost
  windows, and those of `Budget` and `Progress`.
* `Budget` is about `attemptCount` against `maximumAttempts`: which steps let it pass, and exactly from
  which states it can.
* `Progress` is about time: a retry's distance, and how often a notification is claimed. `Jobs` adds the
  dispatch job: a notification that waits is never left without one.
* `DispatchService` is the dispatcher in the order of its statements, with arbitrary foreign steps
  between them, by workers that may be stale. Each call is shown to be a run of the transition system, so
  the results of `DeliverySafety` apply to it, and those of `FailStop` where its run reaps only the
  crashed. With nothing in between it leaves exactly what `DispatchOnce`, a function of the rows, says;
  `DispatchOutcomes` tells that case by case in the columns of the row.
* `Fleet` is all notifications at once, their rows moved by the statements of `Repositories`, with one
  clock and one stock of claim tokens. Seen from any one of them it is a run of the protocol.
* `Connections` joins a fleet to the session of one connection, so that a dispatch really reads the
  session, finds it open and reserves its slot between its claim and its attempt. Either side is still a
  run of its own; together they say which pauses and which pacing hold of the calls themselves.

**Around it.** `Repositories` is the notification table of all applications and the cancelling of all
that waits; `Maintenance` the repair pass over it; `AcknowledgementRuns` the callbacks; `Sessions` the sending
pauses and the pacing of one connection; `Creation` and `CreationRuns` idempotent creation; `Paging`
the keyset list; `Templates`, `TemplateImage` and `TemplateRender` the template language.

Instants are integers in milliseconds; where Postgres' microseconds matter (pacing slots, list
cursors) they are microseconds, and the cut to milliseconds is written out. Claim tokens are never
drawn twice. A definite failure means the provider did not accept; an ambiguous one may go either way.

## What the code does that its comments do not say

* The attempt count can pass `maximumAttempts`; the sends cannot (`DeliverySafety.SendsWithinBudget`). Two
  kinds of steps let it, by putting a notification whose attempts are used up back to waiting: the reap of
  its claim, after a dispatch that died before failing it (`DeliveryWitnesses.AttemptCountPassesMaximum`),
  and a refusal because the provider lost the session, which is answered by waiting before the budget is
  looked at (`DeliveryWitnesses.LostSessionPassesMaximum`). With fail-stop workers there is no third
  (`Budget.ReopensExactlyWhen`); a stale worker can add others, by recording the last outcome late or by
  putting back what another holds. Each is worth one attempt at most (`Budget.CountStaysWithin`), and only
  within the delivery window (`Budget.CountPassesExactlyWhen`).
* A dispatch can leave a ledger row unresolved on a notification that has failed: one that finds its
  attempts used up leaves the row it has just opened, and one past the delivery window fails the
  notification without looking at the ledger (`DispatchService.ClaimConcludes`).
* A crash between the UNKNOWN write and the FAILED commit lets a fail-closed tenant's message go out
  twice: `DeliveryWitnesses.CrashInWindowSendsTwice`.
* A reaped worker that goes on can have its success overwritten in the ledger:
  `DeliveryWitnesses.StaleWorkerHidesSuccess`. Two callbacks that overlap can lose the higher receipt:
  `DeliveryWitnesses.ConcurrentCallbacksLoseReceipt`.
* A pacing slot that opens within the very millisecond the notification was claimed at defers it to that
  millisecond, and it can be claimed again at the same instant. A deferral leaves the claim behind exactly
  when the slot opens a whole millisecond after it (`Progress.PacingDeferral`, `Progress.ConclusionIsLater`),
  and in runs that meet this at each deferral claim times strictly increase
  (`DeliveryWitnesses.SlotWithinMillisecondReclaims` is a run that does not).
* A list cursor cut to milliseconds passes over rows of its own millisecond. Pages join up to the sorted
  list for every page size exactly when no such row exists: `Paging.PagesJoinUpExactlyWhen`,
  `Paging.SameMillisecondIsLost`.
* An identical creation request is refused, not replayed, once its schedule is past or its session is
  gone, because those checks come before the key: `CreationRuns.LaterRequestsAgree`,
  `CreationRuns.LateRepeatIsRefused`.
* At most a batch of expired claims and at most a batch of due notifications are not enough for one repair
  pass: a returned claim is due at once and takes a place among the due of the same pass. One claim before
  200 younger notifications, with no job waiting, is never repaired (`Maintenance.OneClaimTooMany`). Every
  pass repairs everything exactly when the claims fit a batch and whatever is due, has no job and gets none
  with its release is among the oldest 200 of all (`Maintenance.PassRepairsExactlyWhen`).

## Model

| member | source | states |
|---|---|---|
| DeliverySafety.RunInv | packages/composition/src/notification/dispatch-notification.service.ts:931-1015 | the protocol's invariant, over row, ledger, calls, workers and callbacks, survives every run, stale workers included |
| DeliverySafety.LedgerNumbering | packages/database/src/repositories/notification-send-attempt.repository.ts:56-110 | in every run the ledger is numbered exactly 1 to attemptCount, and only row attemptCount can be unresolved |
| DeliverySafety.EarlierAttemptsExcused | packages/composition/src/notification/dispatch-notification.service.ts:573-603 | when attempt j+1 begins, rows 1 to j exist and each is FAILED after a definite refusal or UNKNOWN |
| DeliverySafety.SecondCopyFollowsUnknown | packages/composition/src/notification/dispatch-notification.service.ts:338-385 | of two copies WhatsApp accepted, the later was begun only after the earlier one's attempt stood as UNKNOWN |
| DeliverySafety.SentWasAccepted | packages/database/src/repositories/notification-send-attempt.repository.ts:74-90 | SENT or DELIVERED carries an identifier, and the provider accepted a send with exactly that identifier |
| DeliverySafety.SendsWithinBudget | packages/composition/src/notification/dispatch-notification.service.ts:288-318 | every provider call has its own attempt number in 1 to maximumAttempts, so there are at most that many calls |
| DeliverySafety.StepFollowsTable | packages/domain/src/notification/notification-status.ts:33-63 | every step is an edge of the transition table or a self-loop; none begins an attempt from a terminal status |
| DeliverySafety.LegalMoves | packages/domain/src/notification/notification-status.ts:33-75 | the table is these twelve moves; terminal is what has none, and cancellable is what waits |
| DeliverySafety.EveryStepFollowsTable | packages/database/src/repositories/notification.repository.ts:517-541 | the same at every point of every run, and claimToken and claimedAt are set exactly in PROCESSING |
| DeliverySafety.TerminalIsFinal | packages/domain/src/notification/notification-status.ts:44-52 | from a terminal status no run changes the status, counts an attempt or begins one |
| FailStop.RunStop | packages/composition/src/notification/notification-maintenance.service.ts:98-129 | when reaped workers stop, at most one worker is engaged, and at most one attempt succeeded, in every run |
| FailStop.IdentifierMatchesLedger | packages/composition/src/notification/dispatch-notification.service.ts:338-385 | fail-stop: the row has an identifier if and only if some ledger row is SUCCEEDED; there is never a second one, and it carries the row's identifier |
| FailStop.FailClosedSendsOnce | packages/composition/src/notification/dispatch-notification.service.ts:464-511 | fail-stop and FAIL_CLOSED: accepted copies never exceed 1 plus the crashes and reaps between the UNKNOWN and FAILED commits |
| FailStop.FailStopAgrees | packages/composition/src/notification/notification-maintenance.service.ts:98-129 | a run that reaps only workers no longer in their dispatch is a fail-stop run |
| FailStop.DeadReapsSendOnce | packages/composition/src/notification/dispatch-notification.service.ts:464-511 | so the bound on copies and the identifier's SUCCEEDED row hold in it |
| DeliveryWitnesses.CrashInWindowSendsTwice | packages/composition/src/notification/dispatch-notification.service.ts:478-490 | a fail-stop, fail-closed run with one crash in that window in which WhatsApp accepts two copies |
| DeliveryWitnesses.StaleWorkerHidesSuccess | packages/database/src/repositories/notification-send-attempt.repository.ts:74-90 | a run that ends SENT with an identifier while every ledger row says UNKNOWN |
| DeliveryWitnesses.AttemptCountPassesMaximum | packages/composition/src/notification/dispatch-notification.service.ts:302-313 | a run with attemptCount 2 above a maximum of 1, and one call |
| DeliveryWitnesses.SlotWithinMillisecondReclaims | packages/composition/src/notification/dispatch-notification.service.ts:634-655 | a run that claims the notification twice at the same instant |
| DeliveryWitnesses.ConcurrentCallbacksLoseReceipt | packages/composition/src/webhook/process-webhook.service.ts:129-176 | two overlapping callbacks after which READ is stored although PLAYED was received |
| DeliveryWitnesses.LostSessionPassesMaximum | packages/composition/src/notification/dispatch-notification.service.ts:418-426 | another, with no crash and no reap: the last attempt refused because the provider lost the session |
| DeliveryWitnesses.StaleWorkerSendsTwice | packages/composition/src/notification/dispatch-notification.service.ts:464-511 | without fail-stop, a fail-closed run that loses no window and in which WhatsApp accepts two copies |
| Budget.CountStaysWithin | packages/composition/src/notification/dispatch-notification.service.ts:288-318 | in every run, stale workers included, attemptCount is at most maximumAttempts plus the number of times a used-up notification was reopened; without a reopening it stays within the maximum |
| Budget.CountPassesExactlyWhen | packages/composition/src/notification/dispatch-notification.service.ts:288-318 | after any run the count can go past the maximum without a further reopening if and only if it is past already, or the attempts are used up and the notification is due, or on its way to an attempt, within the delivery window |
| Budget.ReopensExactlyWhen | packages/composition/src/notification/dispatch-notification.service.ts:397-453 | fail-stop: a step reopens if and only if the attempts are used up, the row is PROCESSING, and it is a reap or the wait for a session the provider lost |
| Retry.RetryDelayBounds | packages/domain/src/notification/retry-policy.ts:34-57 | for every attempt and draw the wait is between half the capped curve and the whole, and never below the floor |
| Retry.CappedDelayClosedForm | packages/domain/src/notification/retry-policy.ts:14-44 | the capped curve is 60, 180, 540, 1620 and then 3600 seconds for every later attempt |
| Progress.RetryKeepsItsDistance | packages/composition/src/notification/dispatch-notification.service.ts:781-819 | after any retry commits (a counted attempt, a lost connection, a pause or an unresolved recipient) no run whatever claims the notification before its least wait, and the wait never exceeds its most |
| Progress.RetryIsWithinBounds | packages/composition/src/notification/dispatch-notification.service.ts:781-819 | each reason's due time lies between half the curve and the whole, above its own floor |
| Progress.NoClaimBeforeDue | packages/database/src/repositories/notification.repository.ts:362-386 | a notification held back until an instant is claimed by no run that has not reached it |
| Progress.PacingDeferral | packages/composition/src/notification/dispatch-notification.service.ts:1003-1012 | a refused slot defers to strictly later than the claim exactly when it opens a whole millisecond after it, and never to earlier |
| Progress.ConclusionIsLater | packages/composition/src/notification/dispatch-notification.service.ts:634-819 | every way of putting the notification back leaves its claim behind, but a shutdown or a slot within the claim's millisecond, exactly |
| Progress.RunTimed | packages/composition/src/notification/dispatch-notification.service.ts:634-752 | in every run whose deferrals leave their claim's millisecond, claim times increase, a waiting row waits past its last claim, and claims past the window outnumber their reaps by one at most; crashes, and under fail-stop reaps read after the last claim, are allowed |
| Progress.ClaimTimesIncrease | packages/database/src/repositories/notification.repository.ts:362-386 | so from creation on claim times strictly increase in such runs |
| Progress.ClaimsAreBounded | packages/composition/src/notification/dispatch-notification.service.ts:240-251 | and their number is bounded by the milliseconds left of the delivery window at the first claim, one more, and the reaps of claims made past the window |
| Jobs.NeverStranded | packages/composition/src/notification/dispatch-notification.service.ts:895-929 | in every run without lost jobs a notification that waits has a job waiting or a worker on its way to it, and the job whenever nobody is at work |
| Jobs.RunKeepsJob | packages/composition/src/notification/dispatch-notification.service.ts:194-238 | the same invariant over any run, a worker whose claim came early sending the job anew |
| Jobs.JobComesExactlyWhen | packages/composition/src/notification/dispatch-notification.service.ts:194-238 | a job comes to wait only with a row going from PROCESSING to RETRYING, with the job of a worker that died, or from one that claimed too early |
| Fleet.StepIsAStatement | packages/database/src/repositories/notification.repository.ts:362-541 | each step of the protocol changes row and ledger exactly as one repository statement does |
| Fleet.FleetProjects | packages/composition/src/notification/dispatch-notification.service.ts:931-1015 | any run over many notifications, seen from one of them, is the protocol run of the steps it sees; the others' steps do not occur in it |
| Fleet.FleetKeepsInv | packages/composition/src/notification/dispatch-notification.service.ts:931-1015 | so the protocol's invariant holds of every notification in every run of the fleet |
| Fleet.FleetSendsWithinBudget | packages/composition/src/notification/dispatch-notification.service.ts:288-318 | each notification's calls stay within its own maximum, under distinct numbers, whatever happens to the others |
| Fleet.FleetSendsOnce | packages/composition/src/notification/dispatch-notification.service.ts:464-511 | with fail-stop workers and failing closed, each message is accepted once, plus the windows lost on it |
| Fleet.ClaimsAreDistinct | packages/database/src/repositories/notification.repository.ts:362-386 | no two notifications are ever held under the same claim token |
| DispatchService.Dispatcher.Dispatch | packages/composition/src/notification/dispatch-notification.service.ts:931-1015 | whatever others do in between, a dispatch is a run of the protocol and reports what the row says, and a message it reports sent went out on an open session to a known chat; undisturbed it equals the function of the rows |
| DispatchService.Dispatcher.ClaimNotification | packages/composition/src/notification/dispatch-notification.service.ts:158-192 | promotion, then the compare-and-swap; a claim returned is the row now held under this worker's token |
| DispatchService.Dispatcher.FindUnresolved | packages/composition/src/notification/dispatch-notification.service.ts:972-977 | finds the least unresolved attempt exactly when there is one |
| DispatchService.Dispatcher.FindObstacle | packages/composition/src/notification/dispatch-notification.service.ts:979-1012 | whatever others do meanwhile: no obstacle exactly when there is a session that can send, is not paused at the first reading and has its slot free at the second; otherwise which one comes back, in terms of the session |
| DispatchService.Dispatcher.GoAhead | packages/composition/src/notification/dispatch-notification.service.ts:979-1014 | undisturbed, a held or sent notification exactly as the obstacles in order decide |
| DispatchService.Dispatcher.Proceed | packages/composition/src/notification/dispatch-notification.service.ts:961-1014 | undisturbed, expiry first, then an open attempt, then the obstacles, then the send |
| DispatchService.Dispatcher.DeliverMessage | packages/composition/src/notification/dispatch-notification.service.ts:268-286 | an unresolved recipient or a shutdown holds the notification with no attempt spent |
| DispatchService.Dispatcher.BeginAttempt | packages/composition/src/notification/dispatch-notification.service.ts:573-603 | counts the attempt and opens its row, both or neither, exactly when the claim is still held at that statement, whatever others did before it |
| DispatchService.Dispatcher.SendMessage | packages/composition/src/notification/dispatch-notification.service.ts:288-336 | attempts beyond the maximum fail without a call; otherwise one call under its own number |
| DispatchService.Dispatcher.CallProvider | packages/composition/src/notification/dispatch-notification.service.ts:320-395 | one call, then the commit or the failure its answer asks for |
| DispatchService.Dispatcher.CommitSend | packages/composition/src/notification/dispatch-notification.service.ts:338-395 | SENT and SUCCEEDED together or neither; reported sent only if the row moved |
| DispatchService.Dispatcher.HandleSendFailure | packages/composition/src/notification/dispatch-notification.service.ts:397-453 | whatever others do meanwhile: an ambiguous failure ends by policy and budget, a final code fails the notification under it, the others are retried under theirs while attempts are left and fail it after; the attempt is recorded first |
| DispatchService.Dispatcher.ResolveUnknownOutcome | packages/composition/src/notification/dispatch-notification.service.ts:464-511 | the attempt becomes UNKNOWN whatever it was; failing closed fails the notification, and otherwise it is retried while attempts are left and failed after |
| DispatchService.SendsExactlyWhen | packages/composition/src/notification/dispatch-notification.service.ts:931-1015 | an undisturbed dispatch calls the provider once if and only if the row is due and in its window with every attempt resolved and one left, the session can send, is not paused and has its slot free, and the recipient is known and no stop was asked for |
| DispatchService.SentExactlyWhenAnswered | packages/composition/src/notification/dispatch-notification.service.ts:320-395 | it reports sent if and only if it called and got an identifier, which the row and one SUCCEEDED ledger row then carry |
| DispatchService.ClaimConcludes | packages/composition/src/notification/dispatch-notification.service.ts:961-1014 | after a claim the row is SENT, RETRYING or FAILED as reported, and the claim is given up; an attempt is left open if and only if the dispatch began one over the maximum, or the window had passed with one open already |
| DispatchOutcomes.DueIsClaimed | packages/composition/src/notification/dispatch-notification.service.ts:158-192 | an undisturbed dispatch of a due row claims it at its first reading and goes on from the claim |
| DispatchOutcomes.EarlyJobChangesNothing | packages/composition/src/notification/dispatch-notification.service.ts:194-215 | a job for any other row changes nothing, and is deferred exactly when the row waits for an instant still to come |
| DispatchOutcomes.LateIsFailed | packages/composition/src/notification/dispatch-notification.service.ts:961-971 | past the delivery window the row fails with DeliveryWindowExpired, with no call and the ledger as it was |
| DispatchOutcomes.OpenAttemptIsUnknown | packages/composition/src/notification/dispatch-notification.service.ts:464-511 | the least open attempt becomes UNKNOWN with no call, and the row fails, by policy or budget, or waits for its retry |
| DispatchOutcomes.WithoutConnection | packages/composition/src/notification/dispatch-notification.service.ts:671-700 | without a session the row fails; on one that cannot send it waits five minutes at a time, the first time as a retry, and fails after the longest wait |
| DispatchOutcomes.WhilePaused | packages/composition/src/notification/dispatch-notification.service.ts:715-757 | on a paused session the row waits for the end and its draw of seconds, or fails at once if that end is too far, and is not sent |
| DispatchOutcomes.WhilePaced | packages/composition/src/notification/dispatch-notification.service.ts:1009-1012 | with the slot taken the row waits, quietly, for the whole millisecond the slot opens in |
| DispatchOutcomes.WithoutRecipient | packages/composition/src/notification/dispatch-notification.service.ts:521-572 | a recipient that cannot be looked up: a lost session is waited for, the listed final codes fail the row, the listed others are retried in five minutes or more, and no attempt is spent |
| DispatchOutcomes.WithoutSending | packages/composition/src/notification/dispatch-notification.service.ts:268-286 | a number not on WhatsApp fails the row, and a shutdown puts it back as it was |
| DispatchOutcomes.UsedUpIsFailed | packages/composition/src/notification/dispatch-notification.service.ts:302-313 | with the attempts used up the next is counted, and the row fails without a call |
| DispatchOutcomes.AcceptedIsSent | packages/composition/src/notification/dispatch-notification.service.ts:320-395 | an identifier answered to the call makes the row SENT and its attempt SUCCEEDED, both carrying it |
| DispatchOutcomes.AmbiguousIsUnknown | packages/composition/src/notification/dispatch-notification.service.ts:397-408 | the listed ambiguous codes make the attempt UNKNOWN, and the policy and the budget decide the row |
| DispatchOutcomes.RefusedIsFollowed | packages/composition/src/notification/dispatch-notification.service.ts:410-453 | the listed definite codes make the attempt FAILED; then a lost session is waited for, a final code fails the row under it, used-up attempts fail it, and the rest are retried under theirs, no sooner than the provider asked |
| FailureKinds.CodesAreOfOneKind | packages/domain/src/notification/provider-failure.ts:62-119 | each code is ambiguous, retried or final, as listed; the classification and the unknown outcomes agree with the lists |
| Delivery.FirstUnresolved | packages/database/src/repositories/notification-send-attempt.repository.ts:92-110 | the one unresolved attempt with no unresolved attempt below it |
| Repositories.NotificationRepository.ClaimForDispatch | packages/database/src/repositories/notification.repository.ts:362-386 | succeeds exactly on a claimable row of that application, which is then held under the token with its count kept; no other row changes |
| Repositories.NotificationRepository.PromoteScheduled | packages/database/src/repositories/notification.repository.ts:442-461 | succeeds exactly on a due SCHEDULED row of that application, changing its status alone; nothing else changes in the table |
| Repositories.NotificationRepository.ApplyTransition | packages/database/src/repositories/notification.repository.ts:517-541 | succeeds exactly on that status, whoever holds the claim; the status becomes the one asked for, count and ledger stay, leaving PROCESSING gives the claim up, and no other row changes |
| Repositories.NotificationRepository.BeginAttempt | packages/database/src/repositories/notification.repository.ts:401-433 | succeeds exactly under the claim and a free number; the count and the new ledger row come together or nothing changes |
| Repositories.NotificationRepository.ResolveAttempt | packages/database/src/repositories/notification-send-attempt.repository.ts:74-90 | unconditional on the outcome stored; an absent attempt changes nothing |
| Repositories.NotificationRepository.RecordSend | packages/composition/src/notification/dispatch-notification.service.ts:338-385 | SENT with its identifier and the resolved attempt together, exactly from PROCESSING, or nothing |
| Repositories.NotificationRepository.AppendEvents | packages/database/src/repositories/notification.repository.ts:149-158 | any number of events, written in batches, arrive complete and in order |
| Repositories.NotificationRepository.CancelWaiting | packages/database/src/repositories/notification.repository.ts:171-202 | exactly the unlocked QUEUED and RETRYING rows in scope are cancelled, each returned once with the status it had |
| Repositories.NotificationRepository.CancelEverythingWaiting | packages/composition/src/notification/notification-query.service.ts:240-283 | the count is the number cancelled, and the timeline gains one event for each with its former status |
| Repositories.NotificationRepository.Cancel | packages/composition/src/notification/notification-query.service.ts:185-229 | succeeds exactly when the status read was cancellable and still holds; otherwise nothing changes |
| Repositories.BulkIsOneByOne | packages/composition/src/notification/notification-query.service.ts:231-239 | cancelling in bulk equals cancelling one after another, except that it also clears nextAttemptAt |
| Repositories.OnlyWaitingIsCancelled | packages/database/src/repositories/notification.repository.ts:171-202 | of one row, the bulk statement touches it exactly when it is QUEUED or RETRYING |
| Maintenance.OldestFirst | packages/database/src/repositories/notification.repository.ts:470-510 | the batch is as large as the limit allows, in order, and nothing left out is older than anything in it |
| Maintenance.ReapTakesTheOldest | packages/database/src/repositories/notification.repository.ts:470-482 | what is released was claimed before the cutoff, nothing older is passed over, and each row goes back to RETRYING, due at once, with nothing else changed |
| Maintenance.NotificationMaintenance.ReleaseClaim | packages/composition/src/notification/notification-maintenance.service.ts:98-129 | releases and enqueues exactly a row still PROCESSING, even when the scan that found it is out of date |
| Maintenance.NotificationMaintenance.ReleaseClaims | packages/composition/src/notification/notification-maintenance.service.ts:88-93 | the loop over a stale scan releases all still held, counts them exactly and gives each a job |
| Maintenance.NotificationMaintenance.ReapStuckClaims | packages/composition/src/notification/notification-maintenance.service.ts:80-96 | only claims made before the cutoff are released, the oldest first and at most 200; all other rows stay as they are, and if no more than 200 are older none is left |
| Maintenance.NotificationMaintenance.RequeueDueNotifications | packages/composition/src/notification/notification-maintenance.service.ts:139-155 | jobs go only to notifications that may be sent now, the oldest first and at most 200, to all of them if they are no more; only jobs the queue took are counted |
| Maintenance.NotificationMaintenance.RunOnce | packages/composition/src/notification/notification-maintenance.service.ts:177-185 | one pass is one reap and one requeue on what the reap left, each at its own reading, with what both promise of the rows |
| Maintenance.DueIsWhatDispatchCanClaim | packages/database/src/repositories/notification.repository.ts:493-510 | the repair scan selects a row if and only if a dispatch could promote and claim it now |
| Maintenance.DueAfterRelease | packages/composition/src/notification/notification-maintenance.service.ts:98-129 | a released claim is due in the same pass, and was not before |
| Maintenance.PassRepairsExactlyWhen | packages/composition/src/notification/notification-maintenance.service.ts:177-185 | every pass leaves no expired claim and a job for all that is due if and only if the claims fit a batch and what needs a job is among the oldest 200 |
| Maintenance.PassRepairsEverything | packages/composition/src/notification/notification-maintenance.service.ts:177-185 | and then it releases exactly the expired claims |
| Maintenance.JobsAreEnough | packages/composition/src/notification/notification-maintenance.service.ts:131-138 | that is so when every due row has its job, however many there are |
| Maintenance.RoomIsEnough | packages/composition/src/notification/notification-maintenance.service.ts:25-33 | and when expired and due rows fit one batch together |
| Maintenance.OneClaimTooMany | packages/composition/src/notification/notification-maintenance.service.ts:80-155 | one expired claim before 200 due notifications without jobs: no pass repairs it |
| Maintenance.OneClaimTooManyHappens | packages/composition/src/notification/notification-maintenance.service.ts:80-155 | such a table and a pass over it exist |
| Maintenance.RepairedStaysUntouched | packages/composition/src/notification/notification-maintenance.service.ts:131-138 | on a repaired world a pass changes nothing and counts zero and zero |
| Maintenance.SecondPassIsIdle | packages/composition/src/notification/notification-maintenance.service.ts:131-138 | after a pass under that condition a second one at the same readings reaps and enqueues nothing |
| Maintenance.OnlyTheYoungestWait | packages/database/src/repositories/notification.repository.ts:493-510 | under overload a due row without a job is no older than any of a full batch of rows that got one |
| Maintenance.BacklogDrains | packages/composition/src/notification/notification-maintenance.service.ts:25-33 | N expired claims are gone after k passes if and only if k is at least N/200 rounded up |
| AcknowledgementRuns.MergeIsJoin | packages/domain/src/notification/delivery-acknowledgement.ts:42-53 | merging is the least upper bound in PENDING, SERVER, DEVICE, READ, PLAYED, ERROR |
| AcknowledgementRuns.StoredIsJoin | packages/composition/src/webhook/process-webhook.service.ts:129-176 | after any sequence the stored value is one received, and none received is above it |
| AcknowledgementRuns.OrderIsIrrelevant | packages/composition/src/webhook/process-webhook.service.ts:129-176 | sequences with the same acknowledgements, in any order and number, store the same value |
| AcknowledgementRuns.FirstDecisionStands | packages/composition/src/webhook/process-webhook.service.ts:289-303 | the status is what the first ERROR or at-least-DEVICE acknowledgement decided, whatever follows |
| AcknowledgementRuns.ReceiptWrites | packages/composition/src/webhook/process-webhook.service.ts:191-235 | a receipt that ranks no higher changes nothing, and any other exactly these columns |
| AcknowledgementRuns.StampsAreOfTheFirst | packages/composition/src/webhook/process-webhook.service.ts:191-235 | after any sequence deliveredAt, readAt and failedAt are those of the first receipt that called for them, an ERROR ending the first two |
| AcknowledgementRuns.AppliedAtMostFive | packages/composition/src/webhook/process-webhook.service.ts:191-235 | at most five callbacks are ever applied |
| AcknowledgementRuns.ReprocessingChangesNothing | packages/composition/src/webhook/process-webhook.service.ts:257-287 | a callback handled again, after anything, changes no column |
| AcknowledgementRuns.SerialCallbackAbsorbs | packages/composition/src/webhook/process-webhook.service.ts:129-176 | in the protocol, a callback that reads and writes undisturbed does to the row what these results are about |
| AcknowledgementRuns.Inbox.Record | packages/database/src/repositories/webhook-delivery.repository.ts:51-64 | an event is recorded exactly on first sight |
| AcknowledgementRuns.Inbox.ClaimForProcessing | packages/database/src/repositories/webhook-delivery.repository.ts:82-92 | an event is claimed exactly while unprocessed, and the attempt counted |
| AcknowledgementRuns.Inbox.Process | packages/composition/src/webhook/process-webhook.service.ts:257-287 | applied exactly when it is ours, matches and ranks higher than what is stored; thrown back exactly within a minute of an unmatched arrival; attempts, outcome and mark, with a crash allowed before the mark; a marked event does nothing |
| Sessions.PauseEndsLater | packages/domain/src/provider/account-limits.ts:77-101 | a pause is called for exactly by an active timelock or a refusal, ends after now, and shortens none |
| Sessions.PauseLastsAsReported | packages/domain/src/provider/account-limits.ts:77-104 | the pause is the later of the one in force and the reported end, if that is to come, or else the fallback |
| Sessions.SessionRecord.RecordAccountLimits | packages/database/src/repositories/whatsapp-session.repository.ts:227-260 | the stored pause is the later of the reported and the former one, and nothing but it and the time of the report is written |
| Sessions.SessionRecord.EndSendingPause | packages/database/src/repositories/whatsapp-session.repository.ts:262-272 | from the observed end on the session is paused exactly when it was, so a pause recorded meanwhile stays; nothing but the observed pause is cleared |
| Sessions.SessionRecord.ReserveSendSlot | packages/database/src/repositories/whatsapp-session.repository.ts:283-318 | reserves exactly a free slot, and moves the next one the minimum and the drawn seconds past the database clock; otherwise nothing changes |
| SessionRuns.PausesAreKept | packages/composition/src/whatsapp/connection-state.service.ts:67-94 | under any interleaving of reports, refusals and settled pauses, the stored pause covers every recorded one not yet over |
| SessionRuns.ReservationsHeedPauses | packages/composition/src/notification/dispatch-notification.service.ts:993-1012 | every slot was reserved after a reading at which each pause then recorded was over |
| SessionRuns.TimelockIsWaitedFor | packages/composition/src/whatsapp/connection-state.service.ts:67-94 | once a timelock is reported with its end, under any interleaving the stored pause covers that end until it is over, and every later slot was found open at it or after, unless its dispatch had read the session before the report |
| SessionRuns.ReservationsArePaced | packages/database/src/repositories/whatsapp-session.repository.ts:283-318 | any two reservations, by any workers, are at least the minimum apart |
| SessionRuns.WindowHoldsFew | packages/database/src/repositories/whatsapp-session.repository.ts:283-318 | a window of L seconds holds at most L over the minimum, plus one, of them |
| Connections.WorldProjects | packages/composition/src/notification/dispatch-notification.service.ts:979-1014 | a run of a connection with its notifications is a run of the fleet and a run of the session, on one clock, so all results of both hold at once |
| Connections.EveryCallHasItsSlot | packages/composition/src/notification/dispatch-notification.service.ts:1003-1014 | the calls on a connection are exactly its notifications' calls, each under a reservation of its own made before it |
| Connections.CallsHeedPauses | packages/composition/src/notification/dispatch-notification.service.ts:410-417 | every pause recorded before a dispatch claimed is over when that dispatch calls the provider |
| Connections.CallsArePaced | packages/database/src/repositories/whatsapp-session.repository.ts:283-318 | the reservations of any two calls are at least the minimum apart |
| Connections.CallsAreFew | packages/database/src/repositories/whatsapp-session.repository.ts:283-318 | n calls take at least n - 1 times the minimum from the first reservation on, whatever crashes or is reaped |
| Connections.ClearGetsSlot | packages/composition/src/notification/dispatch-notification.service.ts:993-1012 | on an open session with its slot free, a dispatch clear to send gets the slot |
| Connections.SlotGetsCall | packages/composition/src/notification/dispatch-notification.service.ts:288-336 | and with its slot, its claim and an attempt left, it calls the provider under that slot |
| Creation.FoundById | packages/composition/src/notification/create-notification.service.ts:186-195 | a session asked for by identifier is found exactly when the application has it |
| Creation.FoundSending | packages/composition/src/notification/create-notification.service.ts:203-205 | the first session that can send, or that there is none |
| Creation.FoundConnecting | packages/composition/src/notification/create-notification.service.ts:203-205 | the last session being paired, or that there is none |
| Creation.SessionIsBest | packages/composition/src/notification/create-notification.service.ts:179-214 | without a wish a session is found whenever one exists; none is preferable to it, and among equals it is the oldest that can send, or else the newest |
| Creation.CreateNotification.ClaimIdempotencyKey | packages/composition/src/notification/create-notification.service.ts:225-270 | fresh exactly without a key or with one not stored, which is then stored with the digest of this request; reused exactly when what is stored differs in any field; replayed exactly when it is the same and completed |
| Creation.FingerprintTellsRequestsApart | packages/composition/src/notification/create-notification.service.ts:80-103 | two requests have one fingerprint if and only if they are equal in all but the key |
| Creation.CreateNotification.Create | packages/composition/src/notification/create-notification.service.ts:355-418 | outcome and whole new database of one request, refusals leaving rows and keys alone |
| Creation.CreateNotification.CreateBatch | packages/composition/src/notification/create-notification.service.ts:428-501 | the same for a batch, whose loop writes the drafts in request order |
| CreationRuns.FreshAnswerWrites | packages/composition/src/notification/create-notification.service.ts:277-340 | a fresh answer adds one row, one created event and one job per recipient, in request order, and nothing else |
| CreationRuns.FreshRowsSayTheRequest | packages/composition/src/notification/create-notification.service.ts:277-340 | column by column the row, event and job of each recipient are what the request says, untried, with five attempts unless it asks otherwise |
| CreationRuns.FreshRowsHaveASession | packages/composition/src/notification/create-notification.service.ts:179-214 | and the row is bound to a session of the application, the one asked for if one was |
| CreationRuns.RefusedExactlyWhen | packages/composition/src/notification/create-notification.service.ts:105-112 | not a phone number, then not in the future, then no such session or none at all: each refusal exactly when its check is the first to fail |
| CreationRuns.OtherwiseNothingIsWritten | packages/composition/src/notification/create-notification.service.ts:355-502 | a refusal or a replay writes nothing |
| CreationRuns.RunKeepsInv | packages/composition/src/notification/create-notification.service.ts:342-354 | in every sequence of requests each notification has exactly one created event and one job, and every record stands for rows of its own |
| CreationRuns.LaterRequestsAgree | packages/composition/src/notification/create-notification.service.ts:225-270 | after an answer under a key, an equal request gets the same identifiers, one that differs in anything is refused, each after the same prior checks, and neither writes |
| CreationRuns.OneRequestCreates | packages/database/src/repositories/idempotency-key.repository.ts:48-104 | the rows under a key are those of the one request that succeeded, one per recipient |
| CreationRuns.RefusedCreatesNothing | packages/composition/src/notification/create-notification.service.ts:342-354 | a key under which no request succeeded is not held and has made no row |
| CreationRuns.NoKeyInFlight | packages/database/src/repositories/idempotency-key.repository.ts:83-104 | no committed key is in flight, and no request ever meets one, or a record it cannot read |
| CreationRuns.LateRepeatIsRefused | packages/composition/src/notification/create-notification.service.ts:105-112 | an identical request after its scheduled time is refused although the first was answered |
| Paging.ListingIsSorted | packages/database/src/repositories/notification.repository.ts:325-331 | the listing is strictly descending and holds exactly the matching rows |
| Paging.SortedIsListing | packages/database/src/repositories/notification.repository.ts:325-331 | it is the only list that does |
| Paging.PageShowsWhatWasAsked | packages/database/src/repositories/notification.repository.ts:289-341 | a page holds at most its limit of the application's rows that meet every filter and come after the cursor, newest first |
| Paging.PageLeavesTheOldest | packages/database/src/repositories/notification.repository.ts:325-341 | what was asked for and is not shown comes after all that is |
| Paging.CursorExactlyWhenMoreIsLeft | packages/database/src/repositories/notification.repository.ts:325-341 | there is a cursor if and only if something asked for is not shown |
| Paging.CursorNamesTheLast | packages/composition/src/notification/notification-query.service.ts:165-174 | it names the last item, its stamp cut to the millisecond, of a full page |
| Paging.NothingListedTwice | packages/database/src/repositories/notification.repository.ts:280-341 | following cursors never returns a notification twice, under any inserts and status changes between pages |
| Paging.ConstantRowIsListed | packages/database/src/repositories/notification.repository.ts:289-341 | browsed to the end, a row that always matches is returned unless a page boundary passes it over |
| Paging.PassedOverExactly | packages/composition/src/notification/notification-query.service.ts:165-174 | which later rows a millisecond cursor admits, exactly |
| Paging.MatchingThroughoutIsListed | packages/composition/src/notification/notification-query.service.ts:141-175 | with whole-millisecond timestamps every continuously matching row is returned, though the table changes |
| Paging.WholeMillisecondsJoinUp | packages/database/src/repositories/notification.repository.ts:289-341 | on a fixed table of such timestamps paging ends, and the pages concatenate to the sorted list |
| Paging.PagesJoinUpExactlyWhen | packages/database/src/repositories/notification.repository.ts:289-341 | on any fixed table they do so for every page size if and only if no row can be passed over |
| Paging.SameMillisecondIsLost | packages/composition/src/notification/notification-query.service.ts:165-174 | two rows of one millisecond, pages of one: the older is never shown |
| Templates.ParseTemplate | packages/domain/src/template/parse-template.ts:53-121 | the index-driven loop computes the lexer's tokens grouped into nodes, or the first error and its offset |
| Templates.ReadPlaceholder | packages/domain/src/template/parse-template.ts:80-103 | the name and extent of a placeholder, or exactly the error and offset the lexer finds there |
| Templates.FindClose | packages/domain/src/template/parse-template.ts:80-87 | the first closing braces, or that there are none |
| TemplateImage.ScanIsCanonical | packages/domain/src/template/parse-template.ts:53-121 | whatever the scan produces has no empty or adjacent texts, valid names, and no text that would spoil the placeholder after it |
| TemplateImage.PrintThenParse | packages/domain/src/template/parse-template.ts:53-121 | the printer of brace runs is a right inverse of parsing on canonical lists, up to offsets |
| TemplateImage.ImageOfParse | packages/domain/src/template/parse-template.ts:53-121 | a node list is what some body parses to if and only if it is canonical |
| TemplateRender.ParseFindsExactlyTheSlots | packages/domain/src/template/parse-template.ts:67-121 | a body parses with these placeholders if and only if they are, in order and without omission, its unescaped ones |
| TemplateRender.ParseFailsExactlyAt | packages/domain/src/template/parse-template.ts:80-103 | a body fails with a code at an offset if and only if the first opening that is no placeholder is there: never closed, all space, or no variable name |
| Templates.TrimIsTheCore | packages/domain/src/template/parse-template.ts:89 | trimming takes away exactly the space at both ends |
| Templates.SpacesAre | packages/domain/src/template/parse-template.ts:89 | what is trimmed are the twenty-five white-space and line-end code points of ECMAScript |
| Templates.VariableNamesAre | packages/domain/src/template/parse-template.ts:37 | a name is a letter and up to 63 letters, digits and underscores |
| TemplateRender.SlotsAreOrdered | packages/domain/src/template/parse-template.ts:105-115 | the spans are in bounds, in order and disjoint |
| TemplateRender.RenderingRewritesTheBody | packages/domain/src/template/render-template.ts:185-192 | parsing then rendering is one left-to-right rewrite: gaps unescaped, spans replaced, no replacement looked at again |
| TemplateRender.NodesJoin | packages/domain/src/template/render-template.ts:185-192 | the nodes join in order, text as it is, a variable as what it resolved to or as nothing |
| TemplateRender.VariableNamesByFirstAppearance | packages/domain/src/template/parse-template.ts:112-114 | variableNames lists each used name once, by first appearance |
| TemplateRender.ResolveVariables | packages/domain/src/template/render-template.ts:128-166 | fails exactly when something required is unsupplied, naming all of it; else each declared name has its one value |
| TemplateRender.UnsuppliedAreListed | packages/domain/src/template/render-template.ts:128-166 | the missing, and the defaulted, are listed exactly and in the order of their declaration |
| TemplateRender.LastDeclarationDecides | packages/domain/src/template/render-template.ts:128-150 | a name resolves to its given text, or else to the default of its last declaration, or else to nothing |
| TemplateRender.OnlyDeclaredResolve | packages/domain/src/template/render-template.ts:128-150 | exactly the declared names resolve |
| TemplateRender.RenderTemplate | packages/domain/src/template/render-template.ts:174-208 | a body is returned exactly when every check and both bounds hold; otherwise the first failing check is named |

## Left out

- The rate limiter: its algorithm is in a SQL function that is not part of this model.
- HTTP controllers, guards, configuration, logging, the dashboard, the OpenAPI document: plumbing and user interface.
- The provider adapter: a call is accepted with an identifier, definitely refused, or ambiguous, by its label.
- Cryptography: a request fingerprint is as good as what it digests; a signed cursor is its payload.
- Postgres and pg-boss internals: transactions are atomic, and a key accepts a job exactly when none waits for it.
- Timelines of a dispatch: events are modelled for creation and cancelling, not for the dispatcher's own transitions.
- When a waiting job may start, how often one is redelivered and dead letters: `Jobs` says that there is one, and a crashed worker's comes back.
- The session's status in `Connections`: a dispatch may be told at any time that it is not connected.
- A process that dispatches one notification after another is one worker of `Fleet` for each.
- The unique index on session and provider message identifier: an abort on it is a crash before the commit.
- Foreign keys: a session or a notification that something refers to is not deleted, and idempotency keys do not expire.
- Concurrent creation under one key: the second insert waits for the first transaction, so requests are one after another.
- `claimAccountLimitsRefresh` and the provider queries of the connection state: they decide when a report comes, and reports come at any time.
- Progress.ClaimsAreBounded: like `ClaimTimesIncrease` it leaves out slots and shutdowns within the claim's own millisecond, reaps read no later than the last claim, and reaped workers that go on, where claims can repeat at one instant.
- Maintenance.PassRepairsExactlyWhen: nothing else acts during a pass; stale scans are covered by `ReleaseClaims`.
- DispatchService.Dispatcher.Dispatch: the worker is not stopped when its claim is reaped; typing, status refreshes and limit reports act on the session, and events and jobs are not part of this contract.
- DispatchService.Dispatcher.FindObstacle: the session is the row as the dispatch reads it; settling its pause and taking its slot are in `Sessions`, and tied to the call in `Connections`.
- JavaScript strings count UTF-16 units where the model counts characters, and the text of a number or boolean value is taken as given.
- Order of names inside the error details of rendering, other than the missing ones: they are sets here.
- Phone numbers, API keys, roles, typing durations, timeline grouping and pruning: easy members only.
