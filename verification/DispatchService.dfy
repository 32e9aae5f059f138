/**
 * The dispatcher itself: one call, from claim to conclusion, written in the order
 * of its statements, with anything the other workers, the reaper, cancellations
 * and callbacks may do in between. Each call is shown to be a run of the
 * transition system, so every result about runs is a result about it.
 */
module DispatchService {
  import opened Wrappers
  import opened Lifecycle
  import opened Failures
  import opened FailureKinds
  import opened Retry
  import opened Rows
  import opened Delivery
  import opened DeliverySafety
  import opened DeliveryWitnesses

  datatype Outcome = ReportSent | ReportRetry | ReportFailed | ReportDeferred | ReportNotClaimable

  datatype Session = Session(canSend: bool, pausedUntil: Option<int>, nextSendAllowedAtMicros: int)

  datatype Recipient = Chat(chat: string) | Unresolvable(failure: ProviderFailure) | Unregistered

  /** What the outside answers to this dispatch, and what `others` do before its i-th statement. */
  datatype Script = Script(
    token: Token,
    session: Option<Session>,
    spreadSeconds: nat,
    recipient: Recipient,
    aborted: bool,
    policy: Policy,
    answer: Answer,
    accepted: bool,
    draw: nat -> nat,       // a random draw from 0 to the bound, both included
    others: nat -> seq<Action>)

  predicate By(a: Action, w: nat) {
    match a
    case Prepare(worker, _) => worker == w
    case Deliver(worker, _) => worker == w
    case Conclude(worker, _, _) => worker == w
    case Outside(event) => event.Crash? && event.worker == w
  }

  /** Not this worker, and not its token: claim tokens are never drawn twice. */
  predicate IsForeign(a: Action, w: nat, token: Token) {
    && !By(a, w)
    && (a.Prepare? && a.preparation.Claim? ==> a.preparation.token != token)
  }

  lemma ForeignStep(cfg: Config, s: State, a: Action, w: nat, token: Token)
    requires !cfg.failStop && IsForeign(a, w, token)
    ensures var t := Step(cfg, s, a);
            && At(t, w) == At(s, w)
            && (token !in s.usedTokens ==> token !in t.usedTokens)
            && (ClockAhead(s, w) ==> ClockAhead(t, w)) && s.clock <= t.clock
  {
    match a
    case Prepare(v, preparation) => ForeignPreparation(cfg, s, v, preparation, w, token);
    case Deliver(v, delivering) => ForeignDelivering(s, v, delivering, w);
    case Conclude(_, _, _) =>
    case Outside(event) =>
  }

  lemma ForeignDelivering(s: State, v: nat, delivering: Delivering, w: nat)
    requires v != w
    ensures var t := StepDeliver(s, v, delivering);
            At(t, w) == At(s, w) && t.clock == s.clock && t.usedTokens == s.usedTokens
  {
  }

  lemma ForeignPreparation(cfg: Config, s: State, v: nat, preparation: Preparation, w: nat, token: Token)
    requires v != w && (preparation.Claim? ==> preparation.token != token)
    ensures var t := StepPrepare(cfg, s, v, preparation);
            && At(t, w) == At(s, w) && t.clock == s.clock
            && (token !in s.usedTokens ==> token !in t.usedTokens)
  {
  }

  /** Time only passes. */
  lemma ClockAdvances(cfg: Config, s: State, a: Action)
    ensures s.clock <= Step(cfg, s, a).clock
  {
  }

  predicate ClockAhead(s: State, w: nat) {
    At(s, w).Idle? || At(s, w).seen <= s.clock
  }

  // ----- one dispatch with nothing in between, told as a function of the rows -----

  function Report(changes: Changes): Outcome {
    match changes
    case ToRetry(_, _) => ReportRetry
    case ToDeferred(_) => ReportDeferred
    case _ => ReportFailed
  }

  function DrawFor(script: Script, notification: Notification, attempt: Option<nat>): nat {
    script.draw(JitterBound(CurveAttempt(notification, attempt)))
  }

  /** What a dispatch leaves behind, and what it reports. */
  datatype Result = Result(row: Notification, ledger: Ledger, calls: seq<Call>, outcome: Outcome)

  function Finish(row: Notification, ledger: Ledger, calls: seq<Call>, changes: Changes): Result {
    Result(ApplyTransition(row, Processing, changes).GetOr(row), ledger, calls, Report(changes))
  }

  /** The obstacles in the order they are met: the session's, then the recipient's, then a shutdown. */
  function SessionObstacle(script: Script, now: int): Option<Obstacle> {
    if script.session.None? then Some(NoSession)
    else if !script.session.value.canSend then Some(Disconnected(now))
    else
      var pausedUntil := script.session.value.pausedUntil;
      if pausedUntil.Some? && pausedUntil.value > now
        then Some(Paused(pausedUntil.value, now, now, script.spreadSeconds))
      else if script.session.value.nextSendAllowedAtMicros > now * 1000
      then Some(SlotTaken(script.session.value.nextSendAllowedAtMicros, now))
      else None
  }

  function RecipientObstacle(script: Script, now: int): Option<Obstacle> {
    match script.recipient
    case Unresolvable(failure) => Some(RecipientUnresolved(failure, now))
    case Unregistered => Some(NotOnWhatsApp)
    case Chat(_) => if script.aborted then Some(Stopping) else None
  }

  function Held(cfg: Config, row: Notification, ledger: Ledger, calls: seq<Call>, notification: Notification,
                obstacle: Obstacle, script: Script, now: int): Result
  {
    Finish(row, ledger, calls, Respond(cfg, notification, obstacle, DrawFor(script, notification, None), now))
  }

  function AfterUnknown(row: Notification, ledger: Ledger, calls: seq<Call>, notification: Notification, attempt: nat,
                        cause: FailureCode, script: Script, now: int): Result
  {
    Finish(row, Resolve(ledger, attempt, Attempt(Some(AttemptUnknown), None, Some(cause))), calls,
           DecideUnknown(notification, attempt, script.policy, DrawFor(script, notification, Some(attempt)), now))
  }

  function AfterRefusal(cfg: Config, row: Notification, ledger: Ledger, calls: seq<Call>, notification: Notification,
                        attempt: nat, failure: ProviderFailure, script: Script, now: int): Result
  {
    var draw := DrawFor(script, notification, if IsSessionLostByProvider(failure) then None else Some(attempt));
    Finish(row, Resolve(ledger, attempt, Attempt(Some(AttemptFailed), None, Some(failure.code))), calls,
           DecideRefusal(cfg, notification, attempt, failure, now, draw, now))
  }

  function AfterFailure(cfg: Config, row: Notification, ledger: Ledger, calls: seq<Call>, notification: Notification,
                        attempt: nat, failure: ProviderFailure, script: Script, now: int): Result
  {
    if HasUnknownOutcome(failure.code)
    then AfterUnknown(row, ledger, calls, notification, attempt, failure.code, script, now)
    else AfterRefusal(cfg, row, ledger, calls, notification, attempt, failure, script, now)
  }

  function AfterAcceptance(row: Notification, ledger: Ledger, calls: seq<Call>, attempt: nat, chat: string,
                           id: string, now: int): Result {
    if row.status != Processing then Result(row, ledger, calls, ReportNotClaimable)
    else Result(Write(row, ToSent(id, chat, now)),
                Resolve(ledger, attempt, Attempt(Some(AttemptSucceeded), Some(id), None)), calls, ReportSent)
  }

  function AfterCall(cfg: Config, row: Notification, ledger: Ledger, calls: seq<Call>, notification: Notification,
                     attempt: nat, chat: string, script: Script, now: int): Result
  {
    var called := calls + [Call(attempt, script.accepted, script.answer)];
    match script.answer
    case Accepted(id) => AfterAcceptance(row, ledger, called, attempt, chat, id, now)
    case Rejected(failure) => AfterFailure(cfg, row, ledger, called, notification, attempt, failure, script, now)
  }

  /** The attempt is counted and its ledger row written before the provider is called. */
  function AfterSending(cfg: Config, row: Notification, ledger: Ledger, calls: seq<Call>, notification: Notification,
                        chat: string, script: Script, now: int): Result
  {
    var attempt := row.attemptCount + 1;
    var counted := row.(attemptCount := attempt, recipientChat := Some(chat));
    var started := ledger[attempt := Attempt(None, None, None)];
    AfterBeginning(cfg, counted, started, calls, notification, attempt, chat, script, now)
  }

  function AfterBeginning(cfg: Config, row: Notification, ledger: Ledger, calls: seq<Call>, notification: Notification,
                          attempt: nat, chat: string, script: Script, now: int): Result
  {
    if attempt > notification.maximumAttempts then Finish(row, ledger, calls, ToFailed(MaximumAttemptsExhausted, now))
    else AfterCall(cfg, row, ledger, calls, notification, attempt, chat, script, now)
  }

  function AfterClear(cfg: Config, claimed: Notification, ledger: Ledger, calls: seq<Call>, script: Script,
                      now: int): Result {
    var obstacle := if SessionObstacle(script, now).Some? then SessionObstacle(script, now)
      else RecipientObstacle(script, now);
    if obstacle.Some? then Held(cfg, claimed, ledger, calls, claimed, obstacle.value, script, now)
    else AfterSending(cfg, claimed, ledger, calls, claimed, script.recipient.chat, script, now)
  }

  function AfterClaim(cfg: Config, claimed: Notification, ledger: Ledger, calls: seq<Call>, script: Script,
                      now: int): Result {
    if now - claimed.DueSince() > cfg.windowMs then Finish(claimed, ledger, calls, ToFailed(DeliveryWindowExpired, now))
    else if HasUnresolved(ledger) then
      AfterUnknown(claimed, ledger, calls, claimed, FirstUnresolved(ledger), ProviderOutcomeUnknown, script, now)
    else AfterClear(cfg, claimed, ledger, calls, script, now)
  }

  function DispatchOnce(cfg: Config, row: Notification, ledger: Ledger, calls: seq<Call>, script: Script,
                        now: int): Result {
    var promoted := PromoteScheduled(row, now).GetOr(row);
    match ClaimForDispatch(promoted, script.token, now)
    case None => Result(promoted, ledger, calls, if IsEarly(promoted, now) then ReportDeferred else ReportNotClaimable)
    case Some(claimed) => AfterClaim(cfg, claimed, ledger, calls, script, now)
  }

  /** By this instant the session can send, unpaused and with its slot free; the chat is known, no stop asked for. */
  predicate MayGoOut(script: Script, at: int) {
    && script.session.Some? && script.session.value.canSend
    && (script.session.value.pausedUntil.None? || script.session.value.pausedUntil.value <= at)
    && script.session.value.nextSendAllowedAtMicros <= at * 1000
    && script.recipient.Chat? && !script.aborted
  }

  /** What a definite refusal is reported as, and the code it leaves. */
  lemma RefusalIsReported(cfg: Config, notification: Notification, attempt: nat, failure: ProviderFailure,
                          checkedAt: int, draw: nat, now: int)
    ensures var changes := DecideRefusal(cfg, notification, attempt, failure, checkedAt, draw, now);
            && (failure.code in RETRIED && attempt < notification.maximumAttempts ==>
                  changes.ToRetry? && changes.code == failure.code)
            && (failure.code in RETRIED && attempt >= notification.maximumAttempts ==>
                  changes == ToFailed(MaximumAttemptsExhausted, now))
            && (failure.code in FINAL && !LostSession(failure) ==> changes == ToFailed(failure.code, now))
  {
    CodesAreOfOneKind(failure.code);
  }

  ghost predicate IsAlone(script: Script) {
    forall point :: script.others(point) == []
  }

  class Dispatcher {
    const cfg: Config
    const me: nat
    var world: State
    ghost const origin: State
    ghost var trace: seq<Action>

    constructor (cfg: Config, me: nat, world: State)
      ensures this.cfg == cfg && this.me == me && this.world == world && origin == world && trace == []
      ensures Valid()
    {
      this.cfg, this.me, this.world, this.origin, this.trace := cfg, me, world, world, [];
    }

    /** The shared state is what the run so far leads to. */
    ghost predicate Valid()
      reads this
    {
      world == Run(cfg, origin, trace)
    }

    /** The run was extended, by this worker or by the others it was told about. */
    twostate predicate Extended(script: Script)
      reads this
    {
      && old(trace) <= trace && old(world.clock) <= world.clock
      && forall i :: |old(trace)| <= i < |trace| ==> By(trace[i], me) || IsForeign(trace[i], me, script.token)
    }

    /** One atomic statement of this worker. */
    method Take(a: Action, ghost script: Script)
      requires Valid() && By(a, me)
      modifies this
      ensures Valid() && Extended(script) && world == Step(cfg, old(world), a) && trace == old(trace) + [a]
    {
      RunAppend(cfg, origin, trace, a);
      ClockAdvances(cfg, world, a);
      world := Step(cfg, world, a);
      trace := trace + [a];
    }

    /** Whatever the others do before this worker's next statement. */
    method Interfere(others: seq<Action>, ghost script: Script)
      requires Valid() && !cfg.failStop
      requires forall i :: 0 <= i < |others| ==> IsForeign(others[i], me, script.token)
      modifies this
      ensures Valid() && Extended(script) && At(world, me) == old(At(world, me)) && old(world.clock) <= world.clock
      ensures old(script.token !in world.usedTokens) ==> script.token !in world.usedTokens
      ensures old(ClockAhead(world, me)) ==> ClockAhead(world, me)
      ensures others == [] ==> world == old(world)
    {
      for i := 0 to |others|
        invariant Valid() && Extended(script) && At(world, me) == old(At(world, me)) && old(world.clock) <= world.clock
        invariant old(script.token !in world.usedTokens) ==> script.token !in world.usedTokens
        invariant old(ClockAhead(world, me)) ==> ClockAhead(world, me)
        invariant i == 0 ==> world == old(world)
      {
        ForeignStep(cfg, world, others[i], me, script.token);
        RunAppend(cfg, origin, trace, others[i]);
        world := Step(cfg, world, others[i]);
        trace := trace + [others[i]];
      }
    }

    ghost predicate IsFair(script: Script)
    {
      && !cfg.failStop
      && (forall point, i :: 0 <= i < |script.others(point)| ==> IsForeign(script.others(point)[i], me, script.token))
      && IsPossible(script.answer, script.accepted)
      && script.spreadSeconds <= 60
      && (forall bound :: script.draw(bound) <= bound)
    }

    /** The rows and the calls are as this result has them, and no time has passed. */
    twostate predicate Leaves(result: Result, outcome: Outcome)
      reads this
    {
      && world.row == result.row && world.ledger == result.ledger && world.calls == result.calls
      && outcome == result.outcome && world.clock == old(world.clock)
    }

    /**
     * The last statement of a dispatch that does not send. It is applied only if
     * the row is still PROCESSING, and the outcome is reported either way.
     */
    method Settle(conclusion: Conclusion, now: int, ghost expected: Changes, script: Script, point: nat)
      returns (applied: bool)
      requires Valid() && IsFair(script) && now <= world.clock
      requires Concluding(cfg, At(world, me), conclusion, now) == Some(expected)
      modifies this
      ensures Valid() && Extended(script) && At(world, me).Idle?
      ensures applied ==> world.row.status == NextStatus(expected)
      ensures applied && (expected.ToRetry? || expected.ToDeferred?) ==>
                world.row.nextAttemptAt == Some(expected.nextAttemptAt)
      ensures applied && (expected.ToRetry? || expected.ToFailed?) ==> world.row.failureCode == Some(expected.code)
      ensures IsAlone(script) ==>
                && Leaves(Finish(old(world.row), old(world.ledger), old(world.calls), expected), Report(expected))
                && applied == (old(world.row).status == Processing)
    {
      Interfere(script.others(point), script);
      applied := world.row.status == Processing;
      Take(Conclude(me, conclusion, now), script);
    }

    /** What the caller is told, against what the row says. */
    ghost predicate IsHonest(outcome: Outcome, applied: bool, script: Script)
      reads this
    {
      && (outcome == ReportSent ==>
            && applied && script.answer.Accepted? && script.accepted
            && world.row.status == Sent && world.row.providerMessageId == Some(script.answer.providerMessageId)
            && exists k | k in world.ledger ::
                 world.ledger[k] == Attempt(Some(AttemptSucceeded), world.row.providerMessageId, None))
      && (outcome == ReportFailed && applied ==> world.row.status == Failed)
      && (outcome == ReportRetry && applied ==> world.row.status == Retrying && world.row.nextAttemptAt.Some?)
      && (outcome == ReportDeferred && applied ==> world.row.status == Retrying && world.row.nextAttemptAt.Some?)
      && (outcome == ReportNotClaimable ==> !applied)
    }

    method ResolveUnknownOutcome(notification: Notification, attempt: nat, script: Script, point: nat)
      returns (outcome: Outcome, applied: bool)
      requires Valid() && IsFair(script) && ClockAhead(world, me)
      requires var pc := At(world, me);
               && (pc.Interrupted? || (pc.Answered? && pc.answer.Rejected?
                                       && HasUnknownOutcome(pc.answer.failure.code)))
               && pc.snapshot == notification && pc.attempt == attempt
      modifies this
      ensures Valid() && Extended(script) && At(world, me).Idle? && IsHonest(outcome, applied, script)
      ensures script.policy == FailClosed ==>
                outcome == ReportFailed && (applied ==> world.row.failureCode == Some(UnknownOutcomeFailClosed))
      ensures script.policy == RetryUnknown && attempt >= notification.maximumAttempts ==>
                outcome == ReportFailed && (applied ==> world.row.failureCode == Some(MaximumAttemptsExhausted))
      ensures script.policy == RetryUnknown && attempt < notification.maximumAttempts ==>
                outcome == ReportRetry && (applied ==> world.row.failureCode == Some(ProviderOutcomeUnknown))
      ensures outcome != ReportSent
      ensures IsAlone(script) ==>
                Leaves(AfterUnknown(old(world.row), old(world.ledger), old(world.calls), notification, attempt,
                                    UnknownCause(old(At(world, me))), script, old(world.clock)), outcome)
    {
      Interfere(script.others(point), script);
      Take(Deliver(me, RecordUnknown(script.policy)), script);
      Interfere(script.others(point + 1), script);
      var now := world.clock;
      var draw := DrawFor(script, notification, Some(attempt));
      var changes := DecideUnknown(notification, attempt, script.policy, draw, now);
      applied := Settle(FinishUnknown(draw), now, changes, script, point + 2);
      outcome := Report(changes);
    }

    method HandleSendFailure(notification: Notification, attempt: nat, failure: ProviderFailure, script: Script,
                             point: nat)
      returns (outcome: Outcome, applied: bool)
      requires Valid() && IsFair(script) && ClockAhead(world, me)
      requires var pc := At(world, me);
               && pc.Answered? && pc.answer == Rejected(failure) && pc.snapshot == notification && pc.attempt == attempt
      modifies this
      ensures Valid() && Extended(script) && At(world, me).Idle? && IsHonest(outcome, applied, script)
      ensures failure.code in RETRIED && attempt < notification.maximumAttempts ==>
                outcome == ReportRetry && (applied ==> world.row.failureCode == Some(failure.code))
      ensures failure.code in RETRIED && attempt >= notification.maximumAttempts ==>
                outcome == ReportFailed && (applied ==> world.row.failureCode == Some(MaximumAttemptsExhausted))
      ensures failure.code in FINAL && !LostSession(failure) ==>
                outcome == ReportFailed && (applied ==> world.row.failureCode == Some(failure.code))
      ensures failure.code in AMBIGUOUS && script.policy == FailClosed ==>
                outcome == ReportFailed && (applied ==> world.row.failureCode == Some(UnknownOutcomeFailClosed))
      ensures failure.code in AMBIGUOUS && script.policy == RetryUnknown && attempt >= notification.maximumAttempts ==>
                outcome == ReportFailed && (applied ==> world.row.failureCode == Some(MaximumAttemptsExhausted))
      ensures failure.code in AMBIGUOUS && script.policy == RetryUnknown && attempt < notification.maximumAttempts ==>
                outcome == ReportRetry && (applied ==> world.row.failureCode == Some(ProviderOutcomeUnknown))
      ensures IsAlone(script) ==>
                Leaves(AfterFailure(cfg, old(world.row), old(world.ledger), old(world.calls), notification, attempt,
                                    failure, script, old(world.clock)), outcome)
    {
      CodesAreOfOneKind(failure.code);
      if HasUnknownOutcome(failure.code) {
        outcome, applied := ResolveUnknownOutcome(notification, attempt, script, point);
        return;
      }
      outcome, applied := RecordRefusal(notification, attempt, failure, script, point);
    }

    /** A definite refusal: the attempt is FAILED, then the notification follows. */
    method RecordRefusal(notification: Notification, attempt: nat, failure: ProviderFailure, script: Script, point: nat)
      returns (outcome: Outcome, applied: bool)
      requires Valid() && IsFair(script) && ClockAhead(world, me) && !HasUnknownOutcome(failure.code)
      requires var pc := At(world, me);
               && pc.Answered? && pc.answer == Rejected(failure) && pc.snapshot == notification && pc.attempt == attempt
      modifies this
      ensures Valid() && Extended(script) && At(world, me).Idle? && IsHonest(outcome, applied, script)
      ensures failure.code in RETRIED && attempt < notification.maximumAttempts ==>
                outcome == ReportRetry && (applied ==> world.row.failureCode == Some(failure.code))
      ensures failure.code in RETRIED && attempt >= notification.maximumAttempts ==>
                outcome == ReportFailed && (applied ==> world.row.failureCode == Some(MaximumAttemptsExhausted))
      ensures failure.code in FINAL && !LostSession(failure) ==>
                outcome == ReportFailed && (applied ==> world.row.failureCode == Some(failure.code))
      ensures IsAlone(script) ==>
                Leaves(AfterRefusal(cfg, old(world.row), old(world.ledger), old(world.calls), notification, attempt,
                                    failure, script, old(world.clock)), outcome)
    {
      Interfere(script.others(point), script);
      Take(Deliver(me, Delivering.RecordRefusal), script);
      // The session is refreshed or a refusal recorded here; neither touches this notification.
      Interfere(script.others(point + 1), script);
      outcome, applied := FollowRefusal(notification, attempt, failure, script, point + 2);
    }

    method FollowRefusal(notification: Notification, attempt: nat, failure: ProviderFailure, script: Script, point: nat)
      returns (outcome: Outcome, applied: bool)
      requires Valid() && IsFair(script) && ClockAhead(world, me)
      requires var pc := At(world, me);
               && pc.RefusalRecorded? && pc.failure == failure && pc.snapshot == notification && pc.attempt == attempt
      modifies this
      ensures Valid() && Extended(script) && At(world, me).Idle? && IsHonest(outcome, applied, script)
      ensures failure.code in RETRIED && attempt < notification.maximumAttempts ==>
                outcome == ReportRetry && (applied ==> world.row.failureCode == Some(failure.code))
      ensures failure.code in RETRIED && attempt >= notification.maximumAttempts ==>
                outcome == ReportFailed && (applied ==> world.row.failureCode == Some(MaximumAttemptsExhausted))
      ensures failure.code in FINAL && !LostSession(failure) ==>
                outcome == ReportFailed && (applied ==> world.row.failureCode == Some(failure.code))
      ensures IsAlone(script) ==>
                Leaves(Finish(old(world.row), old(world.ledger), old(world.calls),
                              DecideRefusal(cfg, notification, attempt, failure, old(world.clock),
                                DrawFor(script, notification, if IsSessionLostByProvider(failure) then None
                                        else Some(attempt)),
                                old(world.clock))), outcome)
    {
      var checkedAt := world.clock;
      Interfere(script.others(point), script);
      var now := world.clock;
      var draw := DrawFor(script, notification, if IsSessionLostByProvider(failure) then None else Some(attempt));
      var changes := DecideRefusal(cfg, notification, attempt, failure, checkedAt, draw, now);
      RefusalIsReported(cfg, notification, attempt, failure, checkedAt, draw, now);
      applied := Settle(FinishRefusal(checkedAt, draw), now, changes, script, point + 1);
      outcome := Report(changes);
    }

    method Hold(notification: Notification, obstacle: Obstacle, script: Script, point: nat)
      returns (outcome: Outcome, applied: bool)
      requires Valid() && IsFair(script) && ClockAhead(world, me)
      requires At(world, me).Clear? && At(world, me).snapshot == notification
      requires IsMet(obstacle, At(world, me).seen, world.clock)
      modifies this
      ensures Valid() && Extended(script) && At(world, me).Idle? && IsHonest(outcome, applied, script)
      ensures outcome != ReportSent
      ensures IsAlone(script) ==>
                Leaves(Held(cfg, old(world.row), old(world.ledger), old(world.calls), notification, obstacle, script,
                            old(world.clock)), outcome)
    {
      var now := world.clock;
      var draw := DrawFor(script, notification, None);
      var changes := Respond(cfg, notification, obstacle, draw, now);
      applied := Settle(Hinder(obstacle, draw), now, changes, script, point);
      outcome := Report(changes);
    }

    method CommitSend(notification: Notification, id: string, script: Script, point: nat)
      returns (outcome: Outcome, applied: bool)
      requires Valid() && IsFair(script) && ClockAhead(world, me) && Inv(origin)
      requires At(world, me).Answered? && At(world, me).answer == Accepted(id) && script.answer == Accepted(id)
      modifies this
      ensures Valid() && Extended(script) && At(world, me).Idle? && IsHonest(outcome, applied, script)
      ensures IsAlone(script) ==>
                Leaves(AfterAcceptance(old(world.row), old(world.ledger), old(world.calls), old(At(world, me)).attempt,
                                       old(At(world, me)).chat, id, old(world.clock)), outcome)
    {
      var now := world.clock;
      Interfere(script.others(point), script);
      RunInv(cfg, origin, trace);
      ghost var pc := At(world, me);
      assert WorkerInv(world, pc);
      applied := world.row.status == Processing;
      Take(Deliver(me, CommitSent(now)), script);
      if applied {
        assert world.ledger[pc.attempt] == Attempt(Some(AttemptSucceeded), Some(id), None);
      }
      outcome := if applied then ReportSent else ReportNotClaimable;
    }

    /** Consumes an attempt and opens its ledger row, unless the claim has been lost. */
    method BeginAttempt(chat: string, script: Script, point: nat) returns (attempt: Option<nat>)
      requires Valid() && IsFair(script) && ClockAhead(world, me) && Inv(origin)
      requires At(world, me).Clear? && At(world, me).token == script.token
      modifies this
      ensures Valid() && Extended(script) && ClockAhead(world, me)
      ensures attempt.Some? <==> world.row.status == Processing && world.row.claimToken == Some(script.token)
      ensures attempt.None? ==> At(world, me).Idle?
      ensures attempt.Some? ==>
                && attempt.value == world.row.attemptCount && IsUnresolved(world.ledger, attempt.value)
                && At(world, me).Begun? && At(world, me).attempt == attempt.value
                && At(world, me).snapshot == old(At(world, me).snapshot)
      ensures IsAlone(script) ==>
                && world.calls == old(world.calls) && world.clock == old(world.clock)
                && (attempt.Some?
                    <==> old(world.row).status == Processing && old(world.row).claimToken == Some(script.token))
                && (attempt.None? ==> world.row == old(world.row) && world.ledger == old(world.ledger))
                && (attempt.Some? ==>
                      && attempt.value == old(world.row).attemptCount + 1 && At(world, me).chat == chat
                      && world.row == old(world.row).(attemptCount := attempt.value, recipientChat := Some(chat))
                      && world.ledger == old(world.ledger)[attempt.value := Attempt(None, None, None)])
    {
      var now := world.clock;
      Interfere(script.others(point), script);
      var row := Rows.BeginAttempt(world.row, script.token, chat);
      RunInv(cfg, origin, trace);
      Take(Deliver(me, Start(chat, now)), script);
      attempt := if row.Some? then Some(row.value.attemptCount) else None;
    }

    /** The one request to the provider, and what its answer calls for. */
    method CallProvider(notification: Notification, attempt: nat, script: Script, point: nat)
      returns (outcome: Outcome, applied: bool)
      requires Valid() && IsFair(script) && ClockAhead(world, me) && Inv(origin)
      requires At(world, me).Begun? && At(world, me).snapshot == notification && At(world, me).attempt == attempt
      requires attempt <= notification.maximumAttempts
      modifies this
      ensures Valid() && Extended(script) && At(world, me).Idle? && IsHonest(outcome, applied, script)
      ensures IsAlone(script) ==>
                Leaves(AfterCall(cfg, old(world.row), old(world.ledger), old(world.calls), notification, attempt,
                                 old(At(world, me)).chat, script, old(world.clock)), outcome)
    {
      Interfere(script.others(point), script);
      Take(Deliver(me, Send(script.answer, script.accepted)), script);
      Interfere(script.others(point + 1), script);
      match script.answer
      case Rejected(failure) =>
        outcome, applied := HandleSendFailure(notification, attempt, failure, script, point + 2);
      case Accepted(id) =>
        outcome, applied := CommitSend(notification, id, script, point + 2);
    }

    /** Begins an attempt and sends. */
    method SendMessage(notification: Notification, chat: string, script: Script, point: nat)
      returns (outcome: Outcome, applied: bool)
      requires Valid() && IsFair(script) && ClockAhead(world, me) && Inv(origin)
      requires At(world, me).Clear? && At(world, me).snapshot == notification && At(world, me).token == script.token
      modifies this
      ensures Valid() && Extended(script) && At(world, me).Idle? && IsHonest(outcome, applied, script)
      ensures IsAlone(script) ==>
                (old(world.row).status == Processing && old(world.row).claimToken == Some(script.token) ==>
                   Leaves(AfterSending(cfg, old(world.row), old(world.ledger), old(world.calls), notification, chat,
                                       script, old(world.clock)), outcome))
    {
      var attempt := BeginAttempt(chat, script, point);
      if attempt.None? {
        return ReportNotClaimable, false;
      }
      ghost var begun := AfterBeginning(cfg, world.row, world.ledger, world.calls, notification, attempt.value,
                                        At(world, me).chat, script, world.clock);
      assert IsAlone(script) ==>
               AfterSending(cfg, old(world.row), old(world.ledger), old(world.calls), notification, chat, script,
                            old(world.clock)) == begun;
      outcome, applied := SendBegun(notification, attempt.value, script, point + 1);
      assert IsAlone(script) ==> world.row == begun.row && world.ledger == begun.ledger;
    }

    /** An attempt beyond the maximum is begun, but not sent. */
    method SendBegun(notification: Notification, attempt: nat, script: Script, point: nat)
      returns (outcome: Outcome, applied: bool)
      requires Valid() && IsFair(script) && ClockAhead(world, me) && Inv(origin)
      requires At(world, me).Begun? && At(world, me).snapshot == notification && At(world, me).attempt == attempt
      modifies this
      ensures Valid() && Extended(script) && At(world, me).Idle? && IsHonest(outcome, applied, script)
      ensures IsAlone(script) ==>
                Leaves(AfterBeginning(cfg, old(world.row), old(world.ledger), old(world.calls), notification, attempt,
                                      old(At(world, me)).chat, script, old(world.clock)), outcome)
    {
      if attempt > notification.maximumAttempts {
        var now := world.clock;
        applied := Settle(Overrun, now, ToFailed(MaximumAttemptsExhausted, now), script, point);
        return ReportFailed, applied;
      }
      outcome, applied := CallProvider(notification, attempt, script, point);
    }

    /** Resolves the recipient, and gives way to a shutdown, before anything is sent. */
    method DeliverMessage(notification: Notification, script: Script, point: nat)
      returns (outcome: Outcome, applied: bool)
      requires Valid() && IsFair(script) && ClockAhead(world, me) && Inv(origin)
      requires At(world, me).Clear? && At(world, me).snapshot == notification && At(world, me).token == script.token
      modifies this
      ensures Valid() && Extended(script) && At(world, me).Idle? && IsHonest(outcome, applied, script)
      ensures outcome == ReportSent ==> script.recipient.Chat? && !script.aborted
      ensures IsAlone(script) ==>
                (old(world.row).status == Processing && old(world.row).claimToken == Some(script.token) ==>
                   Leaves(if RecipientObstacle(script, old(world.clock)).Some?
                          then Held(cfg, old(world.row), old(world.ledger), old(world.calls), notification,
                                    RecipientObstacle(script, old(world.clock)).value, script, old(world.clock))
                          else AfterSending(cfg, old(world.row), old(world.ledger), old(world.calls), notification,
                                            script.recipient.chat, script, old(world.clock)), outcome))
    {
      Interfere(script.others(point), script);
      match script.recipient
      case Unresolvable(failure) =>
        outcome, applied := Hold(notification, RecipientUnresolved(failure, world.clock), script, point + 1);
      case Unregistered =>
        outcome, applied := Hold(notification, NotOnWhatsApp, script, point + 1);
      case Chat(chat) =>
        if script.aborted {
          outcome, applied := Hold(notification, Stopping, script, point + 1);
        } else {
          outcome, applied := SendMessage(notification, chat, script, point + 1);
        }
    }

    /** Promotes the notification if it is due, then claims it by compare-and-swap. */
    method ClaimNotification(script: Script) returns (claimed: Option<Notification>, now: int)
      requires Valid() && IsFair(script) && At(world, me).Idle? && script.token !in world.usedTokens
      modifies this
      ensures Valid() && Extended(script) && ClockAhead(world, me)
      ensures claimed.None? ==> At(world, me).Idle?
      ensures claimed.Some? ==>
                && At(world, me).Claimed? && At(world, me).snapshot == claimed.value
                && At(world, me).token == script.token
                && world.row == claimed.value
                && claimed.value.status == Processing && claimed.value.claimToken == Some(script.token)
      ensures IsAlone(script) ==>
                && world.ledger == old(world.ledger) && world.calls == old(world.calls)
                  && world.clock == old(world.clock)
                && now == world.clock
                && var promoted := PromoteScheduled(old(world.row), now).GetOr(old(world.row));
                   claimed == ClaimForDispatch(promoted, script.token, now) && world.row == claimed.GetOr(promoted)
    {
      now := world.clock;
      Take(Prepare(me, Arrive), script);
      Interfere(script.others(0), script);
      Take(Prepare(me, Promote), script);
      Interfere(script.others(1), script);
      claimed := ClaimForDispatch(world.row, script.token, now);
      Take(Prepare(me, Claim(script.token)), script);
    }

    /** Looks for an attempt that nothing resolved. */
    method FindUnresolved(checkedAt: int, script: Script) returns (first: Option<nat>)
      requires Valid() && IsFair(script) && At(world, me).Claimed?
      requires At(world, me).seen <= checkedAt <= world.clock
      requires checkedAt - At(world, me).snapshot.DueSince() <= cfg.windowMs
      modifies this
      ensures Valid() && Extended(script) && ClockAhead(world, me)
      ensures var pc := At(world, me);
              && pc.Engaged() && pc.snapshot == old(At(world, me).snapshot) && pc.token == old(At(world, me).token)
              && (first.None? ==> pc.Clear? && !HasUnresolved(world.ledger))
              && (first.Some?
                  ==> pc.Interrupted? && pc.attempt == first.value && IsFirstUnresolved(world.ledger, first.value))
      ensures IsAlone(script) ==>
                && world.row == old(world.row) && world.ledger == old(world.ledger) && world.calls == old(world.calls)
                && world.clock == old(world.clock)
    {
      first := if HasUnresolved(world.ledger) then Some(Delivery.FirstUnresolved(world.ledger)) else None;
      Take(Prepare(me, CheckLedger(checkedAt)), script);
    }

    /** What the session's own state holds against sending now, in the order it is asked. */
    method FindObstacle(script: Script) returns (obstacle: Option<Obstacle>)
      requires Valid() && IsFair(script) && ClockAhead(world, me) && At(world, me).Clear?
      modifies this
      ensures Valid() && Extended(script) && ClockAhead(world, me) && At(world, me) == old(At(world, me))
      ensures obstacle.Some? ==> IsMet(obstacle.value, At(world, me).seen, world.clock)
      ensures obstacle.None? <==>
                && script.session.Some? && script.session.value.canSend
                && (script.session.value.pausedUntil.None?
                    || script.session.value.pausedUntil.value <= old(world.clock))
                && script.session.value.nextSendAllowedAtMicros <= world.clock * 1000
      ensures script.session.None? ==> obstacle == Some(NoSession)
      ensures script.session.Some? && !script.session.value.canSend ==>
                obstacle == Some(Disconnected(old(world.clock)))
      ensures script.session.Some? && script.session.value.canSend
              && script.session.value.pausedUntil.Some?
              && script.session.value.pausedUntil.value > old(world.clock) ==>
                obstacle == Some(Paused(script.session.value.pausedUntil.value, old(world.clock), world.clock,
                                        script.spreadSeconds))
      ensures obstacle.Some? && obstacle.value.SlotTaken? ==>
                obstacle == Some(SlotTaken(script.session.value.nextSendAllowedAtMicros, world.clock))
      ensures IsAlone(script) ==>
                world == old(world) && obstacle == SessionObstacle(script, world.clock)
    {
      obstacle := None;
      if script.session.None? {
        return Some(NoSession);
      }
      var session := script.session.value;
      if !session.canSend {
        return Some(Disconnected(world.clock));
      }
      var checkedAt := world.clock;
      if session.pausedUntil.Some? && session.pausedUntil.value > checkedAt {
        Interfere(script.others(4), script);
        return Some(Paused(session.pausedUntil.value, checkedAt, world.clock, script.spreadSeconds));
      }
      Interfere(script.others(4), script);
      if session.nextSendAllowedAtMicros > world.clock * 1000 {
        return Some(SlotTaken(session.nextSendAllowedAtMicros, world.clock));
      }
    }

    /** Nothing is left open: the connection is asked, then the recipient. */
    method GoAhead(notification: Notification, script: Script) returns (outcome: Outcome, applied: bool)
      requires Valid() && IsFair(script) && ClockAhead(world, me) && Inv(origin)
      requires At(world, me).Clear? && At(world, me).snapshot == notification && At(world, me).token == script.token
      modifies this
      ensures Valid() && Extended(script) && At(world, me).Idle? && IsHonest(outcome, applied, script)
      ensures outcome == ReportSent ==> MayGoOut(script, world.clock)
      ensures IsAlone(script) && old(world.row) == notification
              && notification.status == Processing && notification.claimToken == Some(script.token) ==>
                Leaves(AfterClear(cfg, notification, old(world.ledger), old(world.calls), script, old(world.clock)),
                       outcome)
    {
      var obstacle := FindObstacle(script);
      if obstacle.Some? {
        outcome, applied := Hold(notification, obstacle.value, script, 5);
      } else {
        outcome, applied := DeliverMessage(notification, script, 5);
      }
    }

    /** An attempt left open comes before anything new. */
    method ProceedInWindow(notification: Notification, checkedAt: int, script: Script)
      returns (outcome: Outcome, applied: bool)
      requires Valid() && IsFair(script) && ClockAhead(world, me) && Inv(origin)
      requires At(world, me).Claimed? && At(world, me).snapshot == notification && At(world, me).token == script.token
      requires At(world, me).seen <= checkedAt <= world.clock && checkedAt - notification.DueSince() <= cfg.windowMs
      modifies this
      ensures Valid() && Extended(script) && At(world, me).Idle? && IsHonest(outcome, applied, script)
      ensures outcome == ReportSent ==> MayGoOut(script, world.clock)
      ensures IsAlone(script) && old(world.row) == notification && old(world.clock) == checkedAt
              && notification.status == Processing && notification.claimToken == Some(script.token) ==>
                Leaves(AfterClaim(cfg, notification, old(world.ledger), old(world.calls), script, checkedAt), outcome)
    {
      var unresolved := FindUnresolved(checkedAt, script);
      if unresolved.Some? {
        outcome, applied := ResolveUnknownOutcome(notification, unresolved.value, script, 4);
      } else {
        outcome, applied := GoAhead(notification, script);
      }
    }

    /** From the claim on: the delivery window, what an earlier attempt left open, and the way to the provider. */
    method Proceed(notification: Notification, script: Script) returns (outcome: Outcome, applied: bool)
      requires Valid() && IsFair(script) && ClockAhead(world, me) && Inv(origin)
      requires At(world, me).Claimed? && At(world, me).snapshot == notification && At(world, me).token == script.token
      modifies this
      ensures Valid() && Extended(script) && At(world, me).Idle? && IsHonest(outcome, applied, script)
      ensures outcome == ReportSent ==> MayGoOut(script, world.clock)
      ensures IsAlone(script) && old(world.row) == notification
              && notification.status == Processing && notification.claimToken == Some(script.token) ==>
                Leaves(AfterClaim(cfg, notification, old(world.ledger), old(world.calls), script, old(world.clock)),
                       outcome)
    {
      var checkedAt := world.clock;
      if checkedAt - notification.DueSince() > cfg.windowMs {
        applied := Settle(Expire(checkedAt), checkedAt, ToFailed(DeliveryWindowExpired, checkedAt), script, 3);
        return ReportFailed, applied;
      }
      Interfere(script.others(3), script);
      outcome, applied := ProceedInWindow(notification, checkedAt, script);
    }

    /**
     * Delivers the notification once. Whatever happens in between, what was done
     * is a run of the transition system, and what is reported is what the row says.
     */
    method Dispatch(script: Script) returns (outcome: Outcome, applied: bool)
      requires Valid() && IsFair(script) && Inv(origin)
      requires At(world, me).Idle? && script.token !in world.usedTokens
      modifies this
      ensures Valid() && Extended(script) && At(world, me).Idle?
      ensures IsHonest(outcome, applied, script)
      ensures outcome == ReportSent ==> MayGoOut(script, world.clock)
      ensures IsAlone(script) ==>
                Leaves(DispatchOnce(cfg, old(world.row), old(world.ledger), old(world.calls), script,
                                    old(world.clock)), outcome)
    {
      var claimed, now := ClaimNotification(script);
      Interfere(script.others(2), script);
      if claimed.None? {
        var existing := world.row;
        return if IsEarly(existing, now) then ReportDeferred else ReportNotClaimable, false;
      }
      outcome, applied := Proceed(claimed.value, script);
    }
  }

  // ----- what the function of the rows says -----

  /**
   * The provider is called once, or not at all. It is called exactly for a notification that is
   * due, in its window, with nothing open and attempts left, to a known chat, on a session that
   * can send, is not paused and has its slot free, when nobody asked the worker to stop.
   */
  lemma SendsExactlyWhen(cfg: Config, row: Notification, ledger: Ledger, calls: seq<Call>, script: Script, now: int)
    ensures DispatchOnce(cfg, row, ledger, calls, script, now).calls ==
            if && (|| row.status == Queued
                   || (row.status == Retrying && row.nextAttemptAt.Some? && row.nextAttemptAt.value <= now)
                   || (row.status == Scheduled && row.scheduledAt.Some? && row.scheduledAt.value <= now))
               && now <= (if row.scheduledAt.Some? then row.scheduledAt.value else row.createdAt) + cfg.windowMs
               && (forall number | number in ledger :: ledger[number].outcome.Some?)
               && script.session.Some? && script.session.value.canSend
               && (script.session.value.pausedUntil.None? || script.session.value.pausedUntil.value <= now)
               && script.session.value.nextSendAllowedAtMicros <= now * 1000
               && script.recipient.Chat? && !script.aborted
               && row.attemptCount < row.maximumAttempts
            then calls + [Call(row.attemptCount + 1, script.accepted, script.answer)]
            else calls
  {
  }

  /** Sent, waiting or failed, as reported, the claim given up and no attempt open. */
  ghost predicate IsConcluded(result: Result) {
    && !HasUnresolved(result.ledger)
    && (result.outcome == ReportSent <==> result.row.status == Sent)
    && (result.outcome in {ReportRetry, ReportDeferred} <==> result.row.status == Retrying)
    && (result.outcome == ReportFailed <==> result.row.status == Failed)
    && result.outcome != ReportNotClaimable
    && result.row.claimToken.None? && result.row.claimedAt.None?
  }

  lemma FinishConcludes(row: Notification, ledger: Ledger, calls: seq<Call>, changes: Changes)
    requires row.status == Processing && !HasUnresolved(ledger)
    requires changes.ToRetry? || changes.ToDeferred? || changes.ToFailed?
    ensures IsConcluded(Finish(row, ledger, calls, changes))
  {
  }

  lemma ResolvingClosesTheLedger(ledger: Ledger, number: nat, resolved: Attempt)
    requires resolved.outcome.Some? && forall n :: IsUnresolved(ledger, n) ==> n == number
    ensures !HasUnresolved(Resolve(ledger, number, resolved))
  {
    var after := Resolve(ledger, number, resolved);
    forall n | n in after ensures after[n].outcome.Some? {
      assert n == number || !IsUnresolved(ledger, n);
    }
  }

  lemma CallConcludes(cfg: Config, row: Notification, ledger: Ledger, calls: seq<Call>, notification: Notification,
                      attempt: nat, chat: string, script: Script, now: int)
    requires row.status == Processing && forall n :: IsUnresolved(ledger, n) ==> n == attempt
    ensures IsConcluded(AfterCall(cfg, row, ledger, calls, notification, attempt, chat, script, now))
  {
    match script.answer
    case Accepted(id) =>
      ResolvingClosesTheLedger(ledger, attempt, Attempt(Some(AttemptSucceeded), Some(id), None));
    case Rejected(failure) =>
      FailureConcludes(cfg, row, ledger, calls + [Call(attempt, script.accepted, script.answer)], notification, attempt,
                       failure, script, now);
  }

  lemma FailureConcludes(cfg: Config, row: Notification, ledger: Ledger, calls: seq<Call>, notification: Notification,
                         attempt: nat, failure: ProviderFailure, script: Script, now: int)
    requires row.status == Processing && forall n :: IsUnresolved(ledger, n) ==> n == attempt
    ensures IsConcluded(AfterFailure(cfg, row, ledger, calls, notification, attempt, failure, script, now))
  {
    var unknown := Attempt(Some(AttemptUnknown), None, Some(failure.code));
    var refused := Attempt(Some(AttemptFailed), None, Some(failure.code));
    if HasUnknownOutcome(failure.code) {
      ResolvingClosesTheLedger(ledger, attempt, unknown);
      var draw := DrawFor(script, notification, Some(attempt));
      FinishConcludes(row, Resolve(ledger, attempt, unknown), calls,
                      DecideUnknown(notification, attempt, script.policy, draw, now));
    } else {
      ResolvingClosesTheLedger(ledger, attempt, refused);
      var draw := DrawFor(script, notification, if IsSessionLostByProvider(failure) then None else Some(attempt));
      FinishConcludes(row, Resolve(ledger, attempt, refused), calls,
                      DecideRefusal(cfg, notification, attempt, failure, now, draw, now));
    }
  }

  lemma HeldConcludes(cfg: Config, claimed: Notification, ledger: Ledger, calls: seq<Call>, obstacle: Obstacle,
                      script: Script, now: int)
    requires claimed.status == Processing && !HasUnresolved(ledger)
    ensures IsConcluded(Held(cfg, claimed, ledger, calls, claimed, obstacle, script, now))
  {
    FinishConcludes(claimed, ledger, calls, Respond(cfg, claimed, obstacle, DrawFor(script, claimed, None), now));
  }

  lemma OnlyBegunIsOpen(ledger: Ledger, begun: Ledger, attempt: nat)
    requires !HasUnresolved(ledger) && begun == ledger[attempt := Attempt(None, None, None)]
    ensures forall n :: IsUnresolved(begun, n) ==> n == attempt
  {
  }

  lemma SendingConcludes(cfg: Config, claimed: Notification, ledger: Ledger, calls: seq<Call>, chat: string,
                         script: Script, now: int)
    requires claimed.status == Processing && !HasUnresolved(ledger)
    ensures var result := AfterSending(cfg, claimed, ledger, calls, claimed, chat, script, now);
            if claimed.attemptCount < claimed.maximumAttempts then IsConcluded(result)
            else result.row.status == Failed && result.outcome == ReportFailed
                 && IsUnresolved(result.ledger, claimed.attemptCount + 1)
  {
    if claimed.attemptCount < claimed.maximumAttempts {
      var attempt := claimed.attemptCount + 1;
      OnlyBegunIsOpen(ledger, ledger[attempt := Attempt(None, None, None)], attempt);
      CallConcludes(cfg, claimed.(attemptCount := attempt, recipientChat := Some(chat)),
                    ledger[attempt := Attempt(None, None, None)], calls, claimed, attempt, chat, script, now);
    }
  }

  /** Whether a dispatch at this time would get as far as beginning an attempt. */
  predicate BeginsAttempt(cfg: Config, claimed: Notification, ledger: Ledger, script: Script, now: int) {
    && now - claimed.DueSince() <= cfg.windowMs && !HasUnresolved(ledger)
    && script.session.Some? && script.session.value.canSend
    && (script.session.value.pausedUntil.None? || script.session.value.pausedUntil.value <= now)
    && script.session.value.nextSendAllowedAtMicros <= now * 1000
    && script.recipient.Chat? && !script.aborted
  }

  /**
   * A dispatch that claims concludes. Two of them leave an attempt open, on a notification that
   * has failed: one whose attempts are used up, the attempt it has just begun; and one past the
   * delivery window, which does not look at the ledger, any that was open before.
   */
  lemma ClaimConcludes(cfg: Config, claimed: Notification, ledger: Ledger, calls: seq<Call>, script: Script, now: int)
    requires claimed.status == Processing
    requires forall n, m :: IsUnresolved(ledger, n) && IsUnresolved(ledger, m) ==> n == m
    ensures var result := AfterClaim(cfg, claimed, ledger, calls, script, now);
            if BeginsAttempt(cfg, claimed, ledger, script, now) && claimed.attemptCount >= claimed.maximumAttempts
            then result.row.status == Failed && result.outcome == ReportFailed
              && IsUnresolved(result.ledger, claimed.attemptCount + 1)
            else now - claimed.DueSince() <= cfg.windowMs ==> IsConcluded(result)
    ensures now - claimed.DueSince() > cfg.windowMs ==>
              AfterClaim(cfg, claimed, ledger, calls, script, now)
                == Finish(claimed, ledger, calls, ToFailed(DeliveryWindowExpired, now))
    ensures HasUnresolved(AfterClaim(cfg, claimed, ledger, calls, script, now).ledger)
            <==> (now - claimed.DueSince() > cfg.windowMs && HasUnresolved(ledger))
                 || (BeginsAttempt(cfg, claimed, ledger, script, now)
                     && claimed.attemptCount >= claimed.maximumAttempts)
  {
    if now - claimed.DueSince() > cfg.windowMs {
    } else if HasUnresolved(ledger) {
      UnknownConcludes(claimed, ledger, calls, FirstUnresolved(ledger), script, now);
    } else if SessionObstacle(script, now).Some? {
      HeldConcludes(cfg, claimed, ledger, calls, SessionObstacle(script, now).value, script, now);
    } else if RecipientObstacle(script, now).Some? {
      HeldConcludes(cfg, claimed, ledger, calls, RecipientObstacle(script, now).value, script, now);
    } else {
      SendingConcludes(cfg, claimed, ledger, calls, script.recipient.chat, script, now);
    }
  }

  lemma UnknownConcludes(claimed: Notification, ledger: Ledger, calls: seq<Call>, number: nat, script: Script, now: int)
    requires claimed.status == Processing && forall n :: IsUnresolved(ledger, n) ==> n == number
    ensures IsConcluded(AfterUnknown(claimed, ledger, calls, claimed, number, ProviderOutcomeUnknown, script, now))
  {
    var resolved := Attempt(Some(AttemptUnknown), None, Some(ProviderOutcomeUnknown));
    ResolvingClosesTheLedger(ledger, number, resolved);
    FinishConcludes(claimed, Resolve(ledger, number, resolved), calls,
                    DecideUnknown(claimed, number, script.policy, DrawFor(script, claimed, Some(number)), now));
  }

  /** SENT means: called, answered with an identifier, and that identifier in the row and in the ledger. */
  lemma SentExactlyWhenAnswered(cfg: Config, row: Notification, ledger: Ledger, calls: seq<Call>, script: Script,
                                now: int)
    ensures var result := DispatchOnce(cfg, row, ledger, calls, script, now);
            && (result.outcome == ReportSent <==> result.calls != calls && script.answer.Accepted?)
            && (result.outcome == ReportSent ==>
                  && result.row.providerMessageId == Some(script.answer.providerMessageId)
                  && result.ledger == ledger[row.attemptCount + 1 :=
                       Attempt(Some(AttemptSucceeded), Some(script.answer.providerMessageId), None)])
  {
  }
}
