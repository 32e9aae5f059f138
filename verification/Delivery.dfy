/**
 * The delivery of one notification as a transition system.
 *
 * Every database statement or transaction, and every provider call, is one
 * atomic step of one worker; between two steps anything else may happen. What
 * the step cannot know (the time read, the random draw, the provider's answer,
 * the session's state, the tenant's policy) is part of its label, so a run is a
 * sequence of labels and "in every run" is a statement about all of them.
 * A label whose guard does not hold leaves the state as it is.
 */
module Delivery {
  import opened Wrappers
  import opened Lifecycle
  import opened Failures
  import opened Retry
  import opened Rows
  import opened Acknowledgements

  datatype Config = Config(
    windowMs: nat,            // the delivery window
    connectionWaitMs: nat,    // how long a notification waits for its connection
    failStop: bool)           // whether a worker whose claim is reaped takes no further step

  datatype Policy = RetryUnknown | FailClosed

  datatype Answer = Accepted(providerMessageId: string) | Rejected(failure: ProviderFailure)

  /** One request to the provider: what it answered, and whether WhatsApp took the message. */
  datatype Call = Call(attempt: nat, accepted: bool, answer: Answer)

  /** What keeps a claimed notification from being sent now. */
  datatype Obstacle =
    | NoSession
    | Disconnected(checkedAt: int)
    | Paused(until: int, checkedAt: int, measuredAt: int, spreadSeconds: nat)
    | SlotTaken(nextSendAllowedAtMicros: int, askedAt: int)
    | RecipientUnresolved(failure: ProviderFailure, checkedAt: int)
    | NotOnWhatsApp
    | Stopping

  /**
   * Where a worker stands. From `Claimed` on it holds the token it claimed with,
   * the row as the claim returned it and the last time it read.
   */
  datatype Worker =
    | Idle
    | Arrived(seen: int)
    | ReadyToClaim(seen: int)
    | Claimed(token: Token, snapshot: Notification, seen: int)
    | Interrupted(token: Token, snapshot: Notification, seen: int, attempt: nat)
    | Clear(token: Token, snapshot: Notification, seen: int)
    | Begun(token: Token, snapshot: Notification, seen: int, attempt: nat, chat: string)
    | Answered(token: Token, snapshot: Notification, seen: int, attempt: nat, chat: string, answer: Answer)
    | UnknownRecorded(token: Token, snapshot: Notification, seen: int, attempt: nat, policy: Policy)
    | RefusalRecorded(token: Token, snapshot: Notification, seen: int, attempt: nat, failure: ProviderFailure)
  {
    predicate Engaged() {
      !Idle? && !Arrived? && !ReadyToClaim?
    }
  }

  /** A callback that has read the row it is about to move. */
  datatype Callback = Callback(snapshot: Notification, incoming: int)

  datatype State = State(
    clock: int,
    row: Notification,
    ledger: Ledger,
    workers: map<nat, Worker>,
    callbacks: map<nat, Callback>,
    usedTokens: set<Token>,
    calls: seq<Call>,           // history: every provider call, in order
    beginnings: seq<Ledger>,    // history: the ledger just before each attempt began
    claimTimes: seq<int>,       // history: the time each successful claim carried
    lostWindows: nat)           // history: crashes and reaps between UNKNOWN and FAILED

  /** Up to the decision to go ahead. */
  datatype Preparation =
    | Arrive
    | Promote
    | Claim(token: Token)
    | CheckLedger(checkedAt: int)

  /** Around one provider call. */
  datatype Delivering =
    | Start(chat: string, now: int)
    | Send(answer: Answer, accepted: bool)
    | CommitSent(now: int)
    | RecordUnknown(policy: Policy)
    | RecordRefusal

  /** The ways a dispatch retries, defers or fails its notification. */
  datatype Conclusion =
    | Expire(checkedAt: int)
    | Hinder(obstacle: Obstacle, draw: nat)
    | Overrun
    | FinishUnknown(draw: nat)
    | FinishRefusal(checkedAt: int, draw: nat)

  /** What happens outside the dispatches. */
  datatype Event =
    | Tick(milliseconds: nat)
    | Crash(worker: nat)
    | Reap(now: int)
    | Cancel(expected: Status, now: int)
    | CancelWaiting(now: int)
    | ReadForCallback(callback: nat, incoming: int)
    | WriteCallback(callback: nat, now: int)

  datatype Action =
    | Prepare(worker: nat, preparation: Preparation)
    | Deliver(worker: nat, delivering: Delivering)
    | Conclude(worker: nat, conclusion: Conclusion, now: int)
    | Outside(event: Event)

  // ----- decisions -----

  /** Which attempt the backoff curve is read at. */
  function CurveAttempt(snapshot: Notification, attempt: Option<nat>): nat {
    var number := attempt.GetOr(snapshot.attemptCount);
    if number < 1 then 1 else number
  }

  function RetryWith(snapshot: Notification, code: FailureCode, retryAfter: Option<nat>, minimum: nat,
                     attempt: Option<nat>, draw: nat, now: int): Changes
  {
    var floor := Max(minimum, retryAfter.GetOr(0));
    ToRetry(NextAttemptAt(CurveAttempt(snapshot, attempt), draw, now, floor), code)
  }

  function WaitForConnection(cfg: Config, snapshot: Notification, checkedAt: int, draw: nat, now: int): Changes {
    if checkedAt - snapshot.DueSince() > cfg.connectionWaitMs then ToFailed(ConnectionUnavailable, now)
    else if snapshot.failureCode != Some(SessionNotReady) then
      RetryWith(snapshot, SessionNotReady, None, SESSION_NOT_READY_MINIMUM_DELAY_SECONDS, None, draw, now)
    else ToDeferred(now + SESSION_NOT_READY_MINIMUM_DELAY_SECONDS * 1000)
  }

  function CeilSeconds(milliseconds: int): int {
    (milliseconds + 999) / 1000
  }

  function WaitForPause(cfg: Config, snapshot: Notification, until: int, measuredAt: int, spreadSeconds: nat,
                        draw: nat, now: int): Changes
  {
    var resumeAt := until + spreadSeconds * 1000;
    if until > snapshot.DueSince() + cfg.connectionWaitMs then ToFailed(ConnectionRestricted, now)
    else if snapshot.failureCode != Some(ConnectionPaused) then
      RetryWith(snapshot, ConnectionPaused, None, Max(CeilSeconds(resumeAt - measuredAt), 0), None, draw, now)
    else ToDeferred(resumeAt)
  }

  /** A database instant is finer than the millisecond a program's date keeps. */
  function ToMilliseconds(micros: int): int {
    micros / 1000
  }

  function Respond(cfg: Config, snapshot: Notification, obstacle: Obstacle, draw: nat, now: int): Changes {
    match obstacle
    case NoSession => ToFailed(SessionMissing, now)
    case Disconnected(checkedAt) => WaitForConnection(cfg, snapshot, checkedAt, draw, now)
    case Paused(until, _, measuredAt, spread) => WaitForPause(cfg, snapshot, until, measuredAt, spread, draw, now)
    case SlotTaken(micros, _) => ToDeferred(ToMilliseconds(micros))
    case RecipientUnresolved(failure, checkedAt) =>
      if IsSessionLostByProvider(failure) then WaitForConnection(cfg, snapshot, checkedAt, draw, now)
      else if !IsRetryable(failure.code) then ToFailed(failure.code, now)
      else RetryWith(snapshot, failure.code, failure.retryAfterSeconds,
                     SESSION_NOT_READY_MINIMUM_DELAY_SECONDS, None, draw, now)
    case NotOnWhatsApp => ToFailed(RecipientNotOnWhatsApp, now)
    case Stopping => ToDeferred(now)
  }

  /** What the readings inside an obstacle have to satisfy for the dispatch to meet it. */
  predicate IsMet(obstacle: Obstacle, seen: int, now: int) {
    match obstacle
    case Disconnected(checkedAt) => seen <= checkedAt <= now
    case Paused(until, checkedAt, measuredAt, spread) =>
      seen <= checkedAt <= measuredAt <= now && checkedAt < until && spread <= 60
    case SlotTaken(micros, askedAt) => seen <= askedAt <= now && askedAt * 1000 < micros
    case RecipientUnresolved(_, checkedAt) => seen <= checkedAt <= now
    case _ => seen <= now
  }

  function DecideUnknown(snapshot: Notification, attempt: nat, policy: Policy, draw: nat, now: int): Changes {
    if policy == FailClosed then ToFailed(UnknownOutcomeFailClosed, now)
    else if attempt >= snapshot.maximumAttempts then ToFailed(MaximumAttemptsExhausted, now)
    else RetryWith(snapshot, ProviderOutcomeUnknown, None, 0, Some(attempt), draw, now)
  }

  function DecideRefusal(cfg: Config, snapshot: Notification, attempt: nat, failure: ProviderFailure,
                         checkedAt: int, draw: nat, now: int): Changes
  {
    if IsSessionLostByProvider(failure) then WaitForConnection(cfg, snapshot, checkedAt, draw, now)
    else if !IsRetryable(failure.code) then ToFailed(failure.code, now)
    else if attempt >= snapshot.maximumAttempts then ToFailed(MaximumAttemptsExhausted, now)
    else
      var minimum := if failure.code == SessionNotReady then SESSION_NOT_READY_MINIMUM_DELAY_SECONDS else 0;
      RetryWith(snapshot, failure.code, failure.retryAfterSeconds, minimum, Some(attempt), draw, now)
  }

  predicate DrawAllowed(snapshot: Notification, attempt: Option<nat>, draw: nat) {
    draw <= JitterBound(CurveAttempt(snapshot, attempt))
  }

  // ----- steps -----

  function At(s: State, w: nat): Worker {
    if w in s.workers then s.workers[w] else Idle
  }

  function Move(s: State, w: nat, to: Worker): State {
    s.(workers := s.workers[w := to])
  }

  /** A worker's transition out of PROCESSING, which ends its dispatch whether or not a row matched. */
  function Settle(s: State, w: nat, changes: Changes): State {
    Move(s, w, Idle).(row := ApplyTransition(s.row, Processing, changes).GetOr(s.row))
  }

  predicate IsFirstUnresolved(ledger: Ledger, number: nat) {
    IsUnresolved(ledger, number) && forall other | other in ledger && other < number :: ledger[other].outcome.Some?
  }

  function StepClaim(s: State, w: nat, token: Token): State {
    var pc := At(s, w);
    if !pc.ReadyToClaim? || token in s.usedTokens then s else
      var used := s.(usedTokens := s.usedTokens + {token});
      match ClaimForDispatch(s.row, token, pc.seen)
      case None => Move(used, w, Idle)
      case Some(claimed) =>
        Move(used, w, Claimed(token, claimed, pc.seen)).(row := claimed, claimTimes := s.claimTimes + [pc.seen])
  }

  function StepCheckLedger(cfg: Config, s: State, w: nat, checkedAt: int): State {
    var pc := At(s, w);
    if !pc.Claimed? || !(pc.seen <= checkedAt <= s.clock) || checkedAt - pc.snapshot.DueSince() > cfg.windowMs then s
    else if !HasUnresolved(s.ledger) then Move(s, w, Clear(pc.token, pc.snapshot, checkedAt))
    else
      var first := FirstUnresolved(s.ledger);
      Move(s, w, Interrupted(pc.token, pc.snapshot, checkedAt, first))
  }

  /** Dafny's choice here is unique: the least unresolved attempt number. */
  function FirstUnresolved(ledger: Ledger): (number: nat)
    requires HasUnresolved(ledger)
    ensures IsFirstUnresolved(ledger, number)
  {
    FirstUnresolvedExists(ledger);
    var number :| number in ledger && IsFirstUnresolved(ledger, number);
    number
  }

  lemma FirstUnresolvedExists(ledger: Ledger)
    requires HasUnresolved(ledger)
    ensures exists number | number in ledger :: IsFirstUnresolved(ledger, number)
    ensures forall n, m | IsFirstUnresolved(ledger, n) && IsFirstUnresolved(ledger, m) :: n == m
  {
    var number :| number in ledger && ledger[number].outcome.None?;
    LeastUnresolved(ledger, number);
  }

  lemma {:induction false} LeastUnresolved(ledger: Ledger, number: nat)
    requires IsUnresolved(ledger, number)
    ensures exists first | first in ledger :: IsFirstUnresolved(ledger, first)
  {
    if other :| other in ledger && other < number && ledger[other].outcome.None? {
      LeastUnresolved(ledger, other);
    } else {
      assert IsFirstUnresolved(ledger, number);
    }
  }

  /** One transaction: the attempt is counted, and its ledger row written, or neither is. */
  function StepStart(s: State, w: nat, chat: string, now: int): State {
    var pc := At(s, w);
    if !pc.Clear? || !(pc.seen <= now <= s.clock) then s
    else match BeginAttempt(s.row, pc.token, chat)
      case None => Move(s, w, Idle)
      case Some(row) =>
        match Begin(s.ledger, row.attemptCount)
        case None => Move(s, w, Idle)
        case Some(ledger) =>
          Move(s, w, Begun(pc.token, pc.snapshot, now, row.attemptCount, chat))
            .(row := row, ledger := ledger, beginnings := s.beginnings + [s.ledger])
  }

  /** The provider takes the message on success, refuses it on a definite failure, and may do either otherwise. */
  predicate IsPossible(answer: Answer, accepted: bool) {
    match answer
    case Accepted(_) => accepted
    case Rejected(failure) => !HasUnknownOutcome(failure.code) ==> !accepted
  }

  function StepSend(s: State, w: nat, answer: Answer, accepted: bool): State {
    var pc := At(s, w);
    if !pc.Begun? || pc.attempt > pc.snapshot.maximumAttempts || !IsPossible(answer, accepted) then s else
      Move(s, w, Answered(pc.token, pc.snapshot, pc.seen, pc.attempt, pc.chat, answer))
        .(calls := s.calls + [Call(pc.attempt, accepted, answer)])
  }

  /** One transaction: the row becomes SENT and its attempt SUCCEEDED, or neither does. */
  function StepCommitSent(s: State, w: nat, now: int): State {
    var pc := At(s, w);
    if !pc.Answered? || !pc.answer.Accepted? || !(pc.seen <= now <= s.clock) then s else
      var id := pc.answer.providerMessageId;
      match ApplyTransition(s.row, Processing, ToSent(id, pc.chat, now))
      case None => Move(s, w, Idle)
      case Some(row) =>
        var resolved := Attempt(Some(AttemptSucceeded), Some(id), None);
        Move(s, w, Idle).(row := row, ledger := Resolve(s.ledger, pc.attempt, resolved))
  }

  function UnknownCause(pc: Worker): FailureCode
    requires pc.Interrupted? || (pc.Answered? && pc.answer.Rejected?)
  {
    if pc.Interrupted? then ProviderOutcomeUnknown else pc.answer.failure.code
  }

  function StepRecordUnknown(s: State, w: nat, policy: Policy): State {
    var pc := At(s, w);
    if pc.Interrupted? || (pc.Answered? && pc.answer.Rejected? && HasUnknownOutcome(pc.answer.failure.code)) then
      var resolved := Attempt(Some(AttemptUnknown), None, Some(UnknownCause(pc)));
      Move(s, w, UnknownRecorded(pc.token, pc.snapshot, pc.seen, pc.attempt, policy))
        .(ledger := Resolve(s.ledger, pc.attempt, resolved))
    else s
  }

  function StepRecordRefusal(s: State, w: nat): State {
    var pc := At(s, w);
    if pc.Answered? && pc.answer.Rejected? && !HasUnknownOutcome(pc.answer.failure.code) then
      var resolved := Attempt(Some(AttemptFailed), None, Some(pc.answer.failure.code));
      Move(s, w, RefusalRecorded(pc.token, pc.snapshot, pc.seen, pc.attempt, pc.answer.failure))
        .(ledger := Resolve(s.ledger, pc.attempt, resolved))
    else s
  }

  function StepCrash(s: State, w: nat): State {
    Move(s, w, Idle).(lostWindows := s.lostWindows + if At(s, w).UnknownRecorded? then 1 else 0)
  }

  predicate Holds(pc: Worker, token: Option<Token>) {
    pc.Engaged() && token == Some(pc.token)
  }

  /** Fail-stop only: the worker whose claim is taken away stops where it stands. */
  function StopHolder(s: State, token: Option<Token>): State {
    var loses := exists w | w in s.workers :: Holds(s.workers[w], token) && s.workers[w].UnknownRecorded?;
    s.(workers := map w | w in s.workers :: if Holds(s.workers[w], token) then Idle else s.workers[w],
       lostWindows := s.lostWindows + if loses then 1 else 0)
  }

  /**
   * The scan for stuck claims and the release are separate statements, and the
   * release is guarded by the status alone: it can hit a claim younger than the
   * one the scan saw. So it may happen whenever the row is PROCESSING.
   */
  function StepReap(cfg: Config, s: State, now: int): State {
    if now > s.clock then s else
      match ApplyTransition(s.row, Processing, ToDeferred(now))
      case None => s
      case Some(row) => (if cfg.failStop then StopHolder(s, s.row.claimToken) else s).(row := row)
  }

  function StepCancel(s: State, expected: Status, now: int): State {
    if !IsCancellable(expected) then s
    else s.(row := ApplyTransition(s.row, expected, ToCancelled(now)).GetOr(s.row))
  }

  /** The callback finds the notification by its provider message identifier. */
  function StepReadForCallback(s: State, c: nat, incoming: int): State {
    if s.row.providerMessageId.None? || !IsAcknowledgement(incoming) then s
    else s.(callbacks := s.callbacks[c := Callback(s.row, incoming)])
  }

  function StepWriteCallback(s: State, c: nat, now: int): State {
    if c !in s.callbacks then s else
      var callback := s.callbacks[c];
      var done := s.(callbacks := s.callbacks - {c});
      match Acknowledge(callback.snapshot, callback.incoming, now)
      case None => done
      case Some(changes) => done.(row := ApplyTransition(s.row, callback.snapshot.status, changes).GetOr(s.row))
  }

  function StepArrive(s: State, w: nat): State {
    if At(s, w).Idle? then Move(s, w, Arrived(s.clock)) else s
  }

  function StepPromote(s: State, w: nat): State {
    var pc := At(s, w);
    if !pc.Arrived? then s
    else Move(s, w, ReadyToClaim(pc.seen)).(row := PromoteScheduled(s.row, pc.seen).GetOr(s.row))
  }

  function StepPrepare(cfg: Config, s: State, w: nat, preparation: Preparation): State {
    match preparation
    case Arrive => StepArrive(s, w)
    case Promote => StepPromote(s, w)
    case Claim(token) => StepClaim(s, w, token)
    case CheckLedger(checkedAt) => StepCheckLedger(cfg, s, w, checkedAt)
  }

  function StepDeliver(s: State, w: nat, delivering: Delivering): State {
    match delivering
    case Start(chat, now) => StepStart(s, w, chat, now)
    case Send(answer, accepted) => StepSend(s, w, answer, accepted)
    case CommitSent(now) => StepCommitSent(s, w, now)
    case RecordUnknown(policy) => StepRecordUnknown(s, w, policy)
    case RecordRefusal => StepRecordRefusal(s, w)
  }

  /** What a worker at `pc` concludes at `now`, when it stands where this conclusion is drawn. */
  function Concluding(cfg: Config, pc: Worker, conclusion: Conclusion, now: int): Option<Changes> {
    match conclusion
    case Expire(checkedAt) =>
      if pc.Claimed? && pc.seen <= checkedAt <= now && checkedAt - pc.snapshot.DueSince() > cfg.windowMs
      then Some(ToFailed(DeliveryWindowExpired, now)) else None
    case Hinder(obstacle, draw) =>
      if pc.Clear? && IsMet(obstacle, pc.seen, now) && DrawAllowed(pc.snapshot, None, draw)
      then Some(Respond(cfg, pc.snapshot, obstacle, draw, now)) else None
    case Overrun =>
      if pc.Begun? && pc.seen <= now && pc.attempt > pc.snapshot.maximumAttempts
      then Some(ToFailed(MaximumAttemptsExhausted, now)) else None
    case FinishUnknown(draw) =>
      if pc.UnknownRecorded? && pc.seen <= now && DrawAllowed(pc.snapshot, Some(pc.attempt), draw)
      then Some(DecideUnknown(pc.snapshot, pc.attempt, pc.policy, draw, now)) else None
    case FinishRefusal(checkedAt, draw) =>
      if pc.RefusalRecorded? && pc.seen <= checkedAt <= now
         && DrawAllowed(pc.snapshot, if IsSessionLostByProvider(pc.failure) then None else Some(pc.attempt), draw)
      then Some(DecideRefusal(cfg, pc.snapshot, pc.attempt, pc.failure, checkedAt, draw, now)) else None
  }

  function StepConclude(cfg: Config, s: State, w: nat, conclusion: Conclusion, now: int): State {
    if now > s.clock then s
    else match Concluding(cfg, At(s, w), conclusion, now)
      case None => s
      case Some(changes) => Settle(s, w, changes)
  }

  function StepOutside(cfg: Config, s: State, event: Event): State {
    match event
    case Tick(d) => s.(clock := s.clock + d)
    case Crash(w) => StepCrash(s, w)
    case Reap(now) => StepReap(cfg, s, now)
    case Cancel(expected, now) => StepCancel(s, expected, now)
    case CancelWaiting(now) => s.(row := CancelWaitingRow(s.row, now).GetOr(s.row))
    case ReadForCallback(c, incoming) => StepReadForCallback(s, c, incoming)
    case WriteCallback(c, now) => StepWriteCallback(s, c, now)
  }

  function Step(cfg: Config, s: State, a: Action): State {
    match a
    case Prepare(w, preparation) => StepPrepare(cfg, s, w, preparation)
    case Deliver(w, delivering) => StepDeliver(s, w, delivering)
    case Conclude(w, conclusion, now) => StepConclude(cfg, s, w, conclusion, now)
    case Outside(event) => StepOutside(cfg, s, event)
  }

  function Run(cfg: Config, s: State, actions: seq<Action>): State
    decreases |actions|
  {
    if actions == [] then s else Run(cfg, Step(cfg, s, actions[0]), actions[1..])
  }

  function Initial(row: Notification, clock: int): State {
    State(clock, row, map[], map[], map[], {}, [], [], [], 0)
  }

  /** A notification as creation writes it: never sent, never claimed. */
  predicate IsNew(row: Notification) {
    row.maximumAttempts >= 1 && row == NewNotification(row.createdAt, row.scheduledAt, row.maximumAttempts)
  }
}
