/**
 * Time. A retry keeps its distance in every run; and a dispatch that does not
 * finish the notification moves it strictly past its claim, under an exact
 * condition, so that the delivery window bounds how often it is claimed.
 */
module Progress {
  import opened Wrappers
  import opened Lifecycle
  import opened Failures
  import opened Retry
  import opened Rows
  import opened Delivery
  import opened DeliverySafety
  import opened FailStop

  predicate SeenBy(pc: Worker, clock: int) {
    pc.Idle? || pc.seen <= clock
  }

  /** No worker has read a time that is still to come. */
  ghost predicate ClockInv(s: State) {
    forall w | w in s.workers :: SeenBy(s.workers[w], s.clock)
  }

  lemma PrepareClock(cfg: Config, s: State, w: nat, preparation: Preparation)
    requires ClockInv(s)
    ensures ClockInv(StepPrepare(cfg, s, w, preparation)) && s.clock == StepPrepare(cfg, s, w, preparation).clock
  {
  }

  lemma DeliverClock(s: State, w: nat, delivering: Delivering)
    requires ClockInv(s)
    ensures ClockInv(StepDeliver(s, w, delivering)) && s.clock == StepDeliver(s, w, delivering).clock
  {
  }

  lemma OutsideClock(cfg: Config, s: State, event: Event)
    requires ClockInv(s)
    ensures ClockInv(StepOutside(cfg, s, event)) && s.clock <= StepOutside(cfg, s, event).clock
  {
  }

  lemma StepClock(cfg: Config, s: State, a: Action)
    requires ClockInv(s)
    ensures ClockInv(Step(cfg, s, a)) && s.clock <= Step(cfg, s, a).clock
  {
    match a
    case Prepare(w, preparation) => PrepareClock(cfg, s, w, preparation);
    case Deliver(w, delivering) => DeliverClock(s, w, delivering);
    case Conclude(w, conclusion, now) => assert StepConclude(cfg, s, w, conclusion, now).clock == s.clock;
    case Outside(event) => OutsideClock(cfg, s, event);
  }

  // ----- a retry keeps its distance -----

  /** The least wait, in seconds, that a definite refusal asks for besides the curve. */
  function RefusalFloor(failure: ProviderFailure): nat {
    Max(if failure.code == SessionNotReady then SESSION_NOT_READY_MINIMUM_DELAY_SECONDS else 0,
        failure.retryAfterSeconds.GetOr(0))
  }

  /** The attempt a retry is due to, when it is due to one: what keeps a notification from being tried counts none. */
  function CountedAttempt(pc: Worker, conclusion: Conclusion): Option<nat> {
    if conclusion.FinishUnknown? && pc.UnknownRecorded? then Some(pc.attempt)
    else if conclusion.FinishRefusal? && pc.RefusalRecorded? && !IsSessionLostByProvider(pc.failure)
      then Some(pc.attempt)
    else None
  }

  /** The least wait, in seconds, besides the curve, for each reason to retry. */
  function RetryFloor(pc: Worker, conclusion: Conclusion): nat {
    match conclusion
    case FinishUnknown(_) => 0
    case FinishRefusal(_, _) =>
      if !pc.RefusalRecorded? then 0
      else if IsSessionLostByProvider(pc.failure) then SESSION_NOT_READY_MINIMUM_DELAY_SECONDS
      else RefusalFloor(pc.failure)
    case Hinder(Paused(until, _, measuredAt, spread), _) => Max(CeilSeconds(until + spread * 1000 - measuredAt), 0)
    case Hinder(RecipientUnresolved(failure, _), _) =>
      if IsSessionLostByProvider(failure) then SESSION_NOT_READY_MINIMUM_DELAY_SECONDS
      else Max(SESSION_NOT_READY_MINIMUM_DELAY_SECONDS, failure.retryAfterSeconds.GetOr(0))
    case Hinder(_, _) => SESSION_NOT_READY_MINIMUM_DELAY_SECONDS
    case _ => 0
  }

  /** Held back until `due`: waiting for it, or cancelled. */
  predicate HeldUntil(s: State, due: int) {
    || s.row.status == Cancelled
    || (s.row.status == Retrying && s.row.nextAttemptAt == Some(due))
  }

  lemma HeldStep(cfg: Config, s: State, a: Action, due: int)
    requires Inv(s) && ClockInv(s) && HeldUntil(s, due) && s.clock < due
    ensures var t := Step(cfg, s, a);
            t.claimTimes == s.claimTimes && HeldUntil(t, due)
  {
    match a
    case Prepare(w, preparation) => HeldPrepare(cfg, s, w, preparation, due);
    case Deliver(w, delivering) =>
    case Conclude(w, conclusion, now) => ConcludingMoves(cfg, At(s, w), conclusion, now);
    case Outside(event) => HeldOutside(cfg, s, event, due);
  }

  lemma HeldPrepare(cfg: Config, s: State, w: nat, preparation: Preparation, due: int)
    requires ClockInv(s) && HeldUntil(s, due) && s.clock < due
    ensures var t := StepPrepare(cfg, s, w, preparation);
            t.claimTimes == s.claimTimes && HeldUntil(t, due)
  {
    if w in s.workers { assert SeenBy(s.workers[w], s.clock); }
  }

  lemma HeldOutside(cfg: Config, s: State, event: Event, due: int)
    requires Inv(s) && HeldUntil(s, due)
    ensures var t := StepOutside(cfg, s, event);
            t.claimTimes == s.claimTimes && HeldUntil(t, due)
  {
    if event.WriteCallback? { CallbackFollowsTable(s, event.callback, event.now); }
  }

  /** Until the clock reaches it, no claim succeeds, whatever jobs, workers, reaps or cancellations do. */
  lemma {:induction false} NoClaimBeforeDue(cfg: Config, s: State, actions: seq<Action>, due: int)
    requires Inv(s) && ClockInv(s) && HeldUntil(s, due)
    ensures Run(cfg, s, actions).clock < due ==> Run(cfg, s, actions).claimTimes == s.claimTimes
    ensures s.clock <= Run(cfg, s, actions).clock
    decreases |actions|
  {
    if actions != [] {
      var t := Step(cfg, s, actions[0]);
      StepInv(cfg, s, actions[0]);
      StepClock(cfg, s, actions[0]);
      if s.clock < due {
        HeldStep(cfg, s, actions[0], due);
        NoClaimBeforeDue(cfg, t, actions[1..], due);
      } else {
        ClockNeverTurnsBack(cfg, t, actions[1..]);
      }
    }
  }

  lemma {:induction false} ClockNeverTurnsBack(cfg: Config, s: State, actions: seq<Action>)
    requires ClockInv(s)
    ensures s.clock <= Run(cfg, s, actions).clock
    decreases |actions|
  {
    if actions != [] {
      StepClock(cfg, s, actions[0]);
      ClockNeverTurnsBack(cfg, Step(cfg, s, actions[0]), actions[1..]);
    }
  }

  /** Whatever it is for, a retry is due between half the capped curve and the whole, and not below its floor. */
  lemma RetryIsWithinBounds(cfg: Config, pc: Worker, conclusion: Conclusion, now: int)
    requires var changes := Concluding(cfg, pc, conclusion, now); changes.Some? && changes.value.ToRetry?
    ensures pc.Engaged() && CurveAttempt(pc.snapshot, CountedAttempt(pc, conclusion)) >= 1
    ensures var n := CurveAttempt(pc.snapshot, CountedAttempt(pc, conclusion));
            var due := Concluding(cfg, pc, conclusion, now).value.nextAttemptAt;
            && due >= now + 1000 * Max(CappedDelay(n) / 2, RetryFloor(pc, conclusion))
            && due <= now + 1000 * Max(CappedDelay(n), RetryFloor(pc, conclusion))
  {
    var n := CurveAttempt(pc.snapshot, CountedAttempt(pc, conclusion));
    RetryDelayBounds(n, conclusion.draw, now, RetryFloor(pc, conclusion));
  }

  /**
   * A retry decided at the reading `now` leaves the notification alone for at least half the
   * capped curve, and at least its floor, in every continuation; and it is due again by the whole
   * curve or the floor. The curve is read at the attempt it is due to, or at those made so far.
   */
  lemma RetryKeepsItsDistance(cfg: Config, s: State, w: nat, conclusion: Conclusion, now: int, actions: seq<Action>)
    requires Inv(s) && ClockInv(s) && s.row.status == Processing && now <= s.clock
    requires var changes := Concluding(cfg, At(s, w), conclusion, now); changes.Some? && changes.value.ToRetry?
    ensures var n := CurveAttempt(At(s, w).snapshot, CountedAttempt(At(s, w), conclusion));
            var floor := RetryFloor(At(s, w), conclusion);
            var t := StepConclude(cfg, s, w, conclusion, now);
            && (Run(cfg, t, actions).clock < now + 1000 * Max(CappedDelay(n) / 2, floor)
                ==> Run(cfg, t, actions).claimTimes == s.claimTimes)
            && t.row.status == Retrying && t.row.nextAttemptAt.Some?
            && t.row.nextAttemptAt.value <= now + 1000 * Max(CappedDelay(n), floor)
    ensures CountedAttempt(At(s, w), conclusion).Some? ==>
              CurveAttempt(At(s, w).snapshot, CountedAttempt(At(s, w), conclusion)) == At(s, w).attempt
  {
    var pc := At(s, w);
    assert WorkerInv(s, pc);
    RetryIsWithinBounds(cfg, pc, conclusion, now);
    var t := StepConclude(cfg, s, w, conclusion, now);
    StepConcludeInv(cfg, s, w, conclusion, now);
    StepClock(cfg, s, Conclude(w, conclusion, now));
    NoClaimBeforeDue(cfg, t, actions, t.row.nextAttemptAt.value);
  }

  // ----- progress -----

  /**
   * Whether a conclusion that puts the notification back leaves it waiting past the instant it was
   * claimed at. Only two can fail to: a shutdown within the claim's own millisecond, and a pacing
   * slot that opens within it, the database keeping that instant finer than a deferral is written.
   */
  predicate LeavesLater(claimedAt: int, conclusion: Conclusion, now: int) {
    match conclusion
    case Hinder(Stopping, _) => now > claimedAt
    case Hinder(SlotTaken(micros, _), _) => micros >= (claimedAt + 1) * 1000
    case _ => true
  }

  /** A refused slot defers past the claim exactly when it opens a whole millisecond after it. */
  lemma PacingDeferral(cfg: Config, snapshot: Notification, claimedAt: int, micros: int, askedAt: int, seen: int,
                       draw: nat, now: int)
    requires IsMet(SlotTaken(micros, askedAt), seen, now) && claimedAt <= seen
    ensures var until := Respond(cfg, snapshot, SlotTaken(micros, askedAt), draw, now).nextAttemptAt;
            && until >= claimedAt
            && (until > claimedAt <==> micros >= (claimedAt + 1) * 1000)
  {
  }

  /** A dispatch that leaves the notification waiting leaves it past its claim exactly under that condition. */
  lemma ConclusionIsLater(cfg: Config, pc: Worker, conclusion: Conclusion, now: int, claimedAt: int)
    requires pc.Engaged() ==> claimedAt <= pc.seen
    ensures var changes := Concluding(cfg, pc, conclusion, now);
            changes.Some? && !changes.value.ToFailed? ==>
              && (changes.value.ToRetry? || changes.value.ToDeferred?)
              && (changes.value.nextAttemptAt > claimedAt <==> LeavesLater(claimedAt, conclusion, now))
  {
    var changes := Concluding(cfg, pc, conclusion, now);
    if changes.Some? {
      match conclusion
      case Hinder(obstacle, draw) => RetryIsLater(pc.snapshot, None, draw);
      case FinishUnknown(draw) => RetryIsLater(pc.snapshot, Some(pc.attempt), draw);
      case FinishRefusal(_, draw) =>
        RetryIsLater(pc.snapshot, if IsSessionLostByProvider(pc.failure) then None else Some(pc.attempt), draw);
      case _ =>
    }
  }

  lemma RetryIsLater(snapshot: Notification, attempt: Option<nat>, draw: nat)
    requires DrawAllowed(snapshot, attempt, draw)
    ensures forall code, retryAfter, minimum, now ::
              RetryWith(snapshot, code, retryAfter, minimum, attempt, draw, now).nextAttemptAt > now
  {
    forall code, retryAfter, minimum: nat, now
      ensures RetryWith(snapshot, code, retryAfter, minimum, attempt, draw, now).nextAttemptAt > now
    {
      RetryDelayBounds(CurveAttempt(snapshot, attempt), draw, now, Max(minimum, retryAfter.GetOr(0)));
    }
  }

  predicate Increasing(times: seq<int>) {
    forall i, j :: 0 <= i < j < |times| ==> times[i] < times[j]
  }

  function Last(times: seq<int>): int
    requires times != []
  {
    times[|times| - 1]
  }

  /** The last instant the delivery window admits. */
  function Deadline(cfg: Config, s: State): int {
    s.row.DueSince() + cfg.windowMs
  }

  /** How many of these claims came after the deadline. */
  function Expired(times: seq<int>, deadline: int): nat {
    if times == [] then 0
    else Expired(times[..|times| - 1], deadline) + if Last(times) > deadline then 1 else 0
  }

  lemma {:induction false} NoneExpired(times: seq<int>, deadline: int)
    requires Increasing(times) && (times != [] ==> Last(times) <= deadline)
    ensures Expired(times, deadline) == 0
  {
    if times != [] {
      NoneExpired(times[..|times| - 1], deadline);
    }
  }

  lemma OneMoreClaim(times: seq<int>, time: int, deadline: int)
    ensures Expired(times + [time], deadline) == Expired(times, deadline) + if time > deadline then 1 else 0
  {
    assert (times + [time])[..|times|] == times;
  }

  lemma {:induction false} IncreasingSpan(times: seq<int>)
    requires Increasing(times) && times != []
    ensures |times| - 1 <= Last(times) - times[0]
  {
    if |times| > 1 {
      IncreasingSpan(times[..|times| - 1]);
    }
  }

  /** The claims in time are as many instants apart as there is window; the others are counted. */
  lemma {:induction false} ClaimsFit(times: seq<int>, deadline: int)
    requires Increasing(times) && times != []
    ensures |times| <= Max(0, deadline + 1 - times[0]) + Expired(times, deadline)
  {
    if Last(times) <= deadline {
      IncreasingSpan(times);
    } else if |times| > 1 {
      ClaimsFit(times[..|times| - 1], deadline);
    } else {
      assert times[..0] == [];
    }
  }

  ghost predicate DispatchTimed(cfg: Config, s: State, pc: Worker) {
    && SeenBy(pc, s.clock)
    && (pc.Engaged() ==>
          && s.claimTimes != [] && pc.snapshot.claimedAt == Some(Last(s.claimTimes)) && Last(s.claimTimes) <= pc.seen
          && pc.snapshot.DueSince() == s.row.DueSince()
          && (!pc.Claimed? ==> Last(s.claimTimes) <= Deadline(cfg, s)))
  }

  /**
   * Claim times increase, and so will the next. Past its deadline a notification is claimed once,
   * to be failed, and once more for each of those claims that was reaped.
   */
  ghost predicate TimedInv(cfg: Config, s: State, reaps: nat) {
    && StopInv(s)
    && (forall w | w in s.workers :: DispatchTimed(cfg, s, s.workers[w]))
    && Increasing(s.claimTimes)
    && (s.row.status in {Queued, Scheduled} ==> s.claimTimes == [])
    && (s.row.status == Processing ==> s.claimTimes != [])
    && (s.row.status == Retrying ==>
          s.claimTimes != [] && s.row.nextAttemptAt.Some? && Last(s.claimTimes) < s.row.nextAttemptAt.value)
    && Expired(s.claimTimes, Deadline(cfg, s)) <= reaps + if s.row.status == Retrying then 0 else 1
  }

  /**
   * What has to hold of a step, where it is taken: a deferral leaves its claim's millisecond, and
   * a reap was read after the last claim and takes the claim from a worker that stops.
   */
  predicate IsTimely(cfg: Config, s: State, a: Action) {
    match a
    case Conclude(w, conclusion, now) =>
      At(s, w).Clear? && At(s, w).snapshot.claimedAt.Some? ==>
        LeavesLater(At(s, w).snapshot.claimedAt.value, conclusion, now)
    case Outside(Reap(now)) => cfg.failStop && (s.claimTimes != [] ==> Last(s.claimTimes) < now)
    case _ => true
  }

  ghost predicate StaysTimely(cfg: Config, s: State, actions: seq<Action>)
    decreases |actions|
  {
    actions == [] || (IsTimely(cfg, s, actions[0]) && StaysTimely(cfg, Step(cfg, s, actions[0]), actions[1..]))
  }

  /** A claim made past the deadline is reaped. */
  predicate ReapsExpired(cfg: Config, s: State, a: Action) {
    && a.Outside? && a.event.Reap? && a.event.now <= s.clock
    && s.row.status == Processing && s.claimTimes != [] && Last(s.claimTimes) > Deadline(cfg, s)
  }

  function Reaped(cfg: Config, s: State, a: Action, reaps: nat): nat {
    if ReapsExpired(cfg, s, a) then reaps + 1 else reaps
  }

  function ExpiredReaps(cfg: Config, s: State, actions: seq<Action>): nat
    decreases |actions|
  {
    if actions == [] then 0
    else Reaped(cfg, s, actions[0], 0) + ExpiredReaps(cfg, Step(cfg, s, actions[0]), actions[1..])
  }

  /** A step that claims nothing, and puts nothing back to waiting. */
  lemma TimedFrame(cfg: Config, s: State, t: State, w: nat, reaps: nat)
    requires TimedInv(cfg, s, reaps) && StopInv(t) && t.claimTimes == s.claimTimes && s.clock <= t.clock
    requires t.row.DueSince() == s.row.DueSince()
    requires t.row.status in {Queued, Scheduled} ==> s.row.status in {Queued, Scheduled}
    requires t.row.status == Processing ==> s.row.status == Processing
    requires t.row.status == Retrying ==> s.row.status == Retrying && t.row.nextAttemptAt == s.row.nextAttemptAt
    requires forall v | v in t.workers && v != w :: v in s.workers && t.workers[v] == s.workers[v]
    requires w in t.workers ==> DispatchTimed(cfg, t, t.workers[w])
    ensures TimedInv(cfg, t, reaps)
  {
    forall v | v in t.workers
      ensures DispatchTimed(cfg, t, t.workers[v])
    {
      if v != w { assert DispatchTimed(cfg, s, s.workers[v]); }
    }
  }

  lemma IncreasingWithLast(times: seq<int>, last: int)
    requires Increasing(times) && (times != [] ==> Last(times) < last)
    ensures Increasing(times + [last]) && Last(times + [last]) == last
  {
  }

  lemma ClaimedWorkersTimed(cfg: Config, s: State, w: nat, token: Token, reaps: nat)
    requires TimedInv(cfg, s, reaps) && StepClaim(s, w, token).row != s.row
    ensures var t := StepClaim(s, w, token);
            forall v | v in t.workers :: DispatchTimed(cfg, t, t.workers[v])
  {
    NobodyHolds(s);
    var t := StepClaim(s, w, token);
    forall v | v in t.workers
      ensures DispatchTimed(cfg, t, t.workers[v])
    {
      if v in s.workers { assert DispatchTimed(cfg, s, s.workers[v]); }
    }
  }

  lemma ClaimExtendsTimes(cfg: Config, s: State, w: nat, token: Token, reaps: nat)
    requires TimedInv(cfg, s, reaps) && StepClaim(s, w, token).row != s.row
    ensures var t := StepClaim(s, w, token);
            && t.row.status == Processing && t.claimTimes != [] && Increasing(t.claimTimes)
            && Expired(t.claimTimes, Deadline(cfg, t)) <= reaps + 1
  {
    IncreasingWithLast(s.claimTimes, s.workers[w].seen);
    OneMoreClaim(s.claimTimes, s.workers[w].seen, Deadline(cfg, s));
  }

  lemma ClaimTimed(cfg: Config, s: State, w: nat, token: Token, reaps: nat)
    requires TimedInv(cfg, s, reaps)
    ensures TimedInv(cfg, StepClaim(s, w, token), reaps)
  {
    ClaimStop(s, w, token);
    var t := StepClaim(s, w, token);
    if t != s {
      assert DispatchTimed(cfg, s, s.workers[w]);
      if t.row == s.row {
        TimedFrame(cfg, s, t, w, reaps);
      } else {
        ClaimedWorkersTimed(cfg, s, w, token, reaps);
        ClaimExtendsTimes(cfg, s, w, token, reaps);
      }
    }
  }

  lemma ArriveTimed(cfg: Config, s: State, w: nat, reaps: nat)
    requires TimedInv(cfg, s, reaps)
    ensures TimedInv(cfg, StepArrive(s, w), reaps)
  {
    ArriveStop(s, w);
    if w in s.workers { assert DispatchTimed(cfg, s, s.workers[w]); }
    TimedFrame(cfg, s, StepArrive(s, w), w, reaps);
  }

  lemma PromoteTimed(cfg: Config, s: State, w: nat, reaps: nat)
    requires TimedInv(cfg, s, reaps)
    ensures TimedInv(cfg, StepPromote(s, w), reaps)
  {
    PromoteStop(s, w);
    if w in s.workers { assert DispatchTimed(cfg, s, s.workers[w]); }
    TimedFrame(cfg, s, StepPromote(s, w), w, reaps);
  }

  lemma CheckLedgerTimed(cfg: Config, s: State, w: nat, checkedAt: int, reaps: nat)
    requires TimedInv(cfg, s, reaps)
    ensures TimedInv(cfg, StepCheckLedger(cfg, s, w, checkedAt), reaps)
  {
    CheckLedgerStop(cfg, s, w, checkedAt);
    if w in s.workers { assert DispatchTimed(cfg, s, s.workers[w]); }
    TimedFrame(cfg, s, StepCheckLedger(cfg, s, w, checkedAt), w, reaps);
  }

  lemma PrepareTimed(cfg: Config, s: State, w: nat, preparation: Preparation, reaps: nat)
    requires TimedInv(cfg, s, reaps)
    ensures TimedInv(cfg, StepPrepare(cfg, s, w, preparation), reaps)
  {
    match preparation
    case Arrive => ArriveTimed(cfg, s, w, reaps);
    case Promote => PromoteTimed(cfg, s, w, reaps);
    case Claim(token) => ClaimTimed(cfg, s, w, token, reaps);
    case CheckLedger(checkedAt) => CheckLedgerTimed(cfg, s, w, checkedAt, reaps);
  }

  /** An attempt is begun, sent and recorded under the same claim; of the statuses only SENT is written. */
  lemma DeliveringMoves(cfg: Config, s: State, w: nat, delivering: Delivering)
    requires w in s.workers ==> DispatchTimed(cfg, s, s.workers[w])
    ensures var t := StepDeliver(s, w, delivering);
            && t.claimTimes == s.claimTimes && t.clock == s.clock
            && t.row.DueSince() == s.row.DueSince()
            && (t.row.status == Sent || (t.row.status == s.row.status && t.row.nextAttemptAt == s.row.nextAttemptAt))
            && (w in t.workers ==> DispatchTimed(cfg, t, t.workers[w]))
  {
  }

  lemma DeliveringIsOnesOwn(s: State, w: nat, delivering: Delivering)
    ensures var t := StepDeliver(s, w, delivering);
            forall v | v in t.workers && v != w :: v in s.workers && t.workers[v] == s.workers[v]
  {
  }

  lemma DeliverTimed(cfg: Config, s: State, w: nat, delivering: Delivering, reaps: nat)
    requires TimedInv(cfg, s, reaps)
    ensures TimedInv(cfg, StepDeliver(s, w, delivering), reaps)
  {
    DeliverStop(s, w, delivering);
    DeliveringMoves(cfg, s, w, delivering);
    DeliveringIsOnesOwn(s, w, delivering);
    TimedFrame(cfg, s, StepDeliver(s, w, delivering), w, reaps);
  }

  lemma ConcludeTimed(cfg: Config, s: State, w: nat, conclusion: Conclusion, now: int, reaps: nat)
    requires TimedInv(cfg, s, reaps) && IsTimely(cfg, s, Conclude(w, conclusion, now))
    ensures TimedInv(cfg, StepConclude(cfg, s, w, conclusion, now), reaps)
  {
    ConcludeStop(cfg, s, w, conclusion, now);
    ConcludingMoves(cfg, At(s, w), conclusion, now);
    if w in s.workers { assert DispatchTimed(cfg, s, s.workers[w]); }
    if s.claimTimes != [] { ConclusionIsLater(cfg, At(s, w), conclusion, now, Last(s.claimTimes)); }
    var t := StepConclude(cfg, s, w, conclusion, now);
    if t.row.status == Retrying && s.row.status == Processing { NoneExpired(s.claimTimes, Deadline(cfg, s)); }
    forall v | v in t.workers
      ensures DispatchTimed(cfg, t, t.workers[v])
    {
      if v != w { assert DispatchTimed(cfg, s, s.workers[v]); }
    }
  }

  /** What happens outside, besides reaps: crashes stop workers, and a waiting row is left as it is or finished. */
  lemma EventMoves(cfg: Config, s: State, event: Event)
    requires Inv(s) && !event.Reap?
    ensures var t := StepOutside(cfg, s, event);
            && t.claimTimes == s.claimTimes && s.clock <= t.clock
            && t.workers == (if event.Crash? then s.workers[event.worker := Idle] else s.workers)
            && t.row.DueSince() == s.row.DueSince()
            && (t.row.status in {Sent, Delivered, Failed, Cancelled}
                || (t.row.status == s.row.status && t.row.nextAttemptAt == s.row.nextAttemptAt))
  {
  }

  lemma ReapTimed(cfg: Config, s: State, now: int, reaps: nat)
    requires TimedInv(cfg, s, reaps) && IsTimely(cfg, s, Outside(Reap(now)))
    ensures TimedInv(cfg, StepReap(cfg, s, now), Reaped(cfg, s, Outside(Reap(now)), reaps))
  {
    var t := StepReap(cfg, s, now);
    OutsideStop(cfg, s, Reap(now));
    if s.claimTimes != [] && Last(s.claimTimes) <= Deadline(cfg, s) { NoneExpired(s.claimTimes, Deadline(cfg, s)); }
    ReapedWorkersTimed(cfg, s, now, reaps);
  }

  lemma ReapedWorkersTimed(cfg: Config, s: State, now: int, reaps: nat)
    requires TimedInv(cfg, s, reaps) && StopInv(StepReap(cfg, s, now))
    ensures var t := StepReap(cfg, s, now);
            forall v | v in t.workers :: DispatchTimed(cfg, t, t.workers[v])
  {
    var t := StepReap(cfg, s, now);
    if t.row.status != Processing { NobodyHolds(t); }
    forall v | v in t.workers
      ensures DispatchTimed(cfg, t, t.workers[v])
    {
      assert DispatchTimed(cfg, s, s.workers[v]);
    }
  }

  lemma OutsideTimed(cfg: Config, s: State, event: Event, reaps: nat)
    requires TimedInv(cfg, s, reaps) && IsTimely(cfg, s, Outside(event))
    ensures TimedInv(cfg, StepOutside(cfg, s, event), Reaped(cfg, s, Outside(event), reaps))
  {
    if event.Reap? {
      ReapTimed(cfg, s, event.now, reaps);
    } else {
      var t := StepOutside(cfg, s, event);
      var w := if event.Crash? then event.worker else 0;
      OutsideStop(cfg, s, event);
      EventMoves(cfg, s, event);
      if w in s.workers { assert DispatchTimed(cfg, s, s.workers[w]); }
      TimedFrame(cfg, s, t, w, reaps);
    }
  }

  lemma {:induction false} RunTimed(cfg: Config, s: State, actions: seq<Action>, reaps: nat)
    requires TimedInv(cfg, s, reaps) && StaysTimely(cfg, s, actions)
    ensures TimedInv(cfg, Run(cfg, s, actions), reaps + ExpiredReaps(cfg, s, actions))
    decreases |actions|
  {
    if actions != [] {
      match actions[0] {
        case Prepare(w, preparation) => PrepareTimed(cfg, s, w, preparation, reaps);
        case Deliver(w, delivering) => DeliverTimed(cfg, s, w, delivering, reaps);
        case Conclude(w, conclusion, now) => ConcludeTimed(cfg, s, w, conclusion, now, reaps);
        case Outside(event) => OutsideTimed(cfg, s, event, reaps);
      }
      RunTimed(cfg, Step(cfg, s, actions[0]), actions[1..], Reaped(cfg, s, actions[0], reaps));
    }
  }

  /**
   * Claim times strictly increase, and a notification that waits waits past its last claim, in
   * every run whose deferrals leave their claim's millisecond; crashes are allowed, and so are
   * reaps read after the last claim, under fail-stop.
   */
  lemma ClaimTimesIncrease(cfg: Config, row: Notification, clock: int, actions: seq<Action>)
    requires IsNew(row) && StaysTimely(cfg, Initial(row, clock), actions)
    ensures var s := Run(cfg, Initial(row, clock), actions);
            && Increasing(s.claimTimes)
            && (s.row.status == Retrying ==>
                  s.claimTimes != [] && s.row.nextAttemptAt.Some? && Last(s.claimTimes) < s.row.nextAttemptAt.value)
  {
    InitialInv(row, clock);
    RunTimed(cfg, Initial(row, clock), actions, 0);
  }

  /**
   * So a notification is claimed at most once per millisecond of the window from its first claim
   * on, once more to be failed, and once more for each claim reaped that was made past the window.
   */
  lemma ClaimsAreBounded(cfg: Config, row: Notification, clock: int, actions: seq<Action>)
    requires IsNew(row) && StaysTimely(cfg, Initial(row, clock), actions)
    ensures var claims := Run(cfg, Initial(row, clock), actions).claimTimes;
            claims != [] ==>
              |claims| <= Max(0, row.DueSince() + cfg.windowMs + 1 - claims[0]) + 1
                + ExpiredReaps(cfg, Initial(row, clock), actions)
  {
    InitialInv(row, clock);
    RunTimed(cfg, Initial(row, clock), actions, 0);
    DueSinceIsFixed(cfg, Initial(row, clock), actions);
    var s := Run(cfg, Initial(row, clock), actions);
    if s.claimTimes != [] {
      ClaimsFit(s.claimTimes, Deadline(cfg, s));
    }
  }

  lemma PrepareKeepsDueSince(cfg: Config, s: State, w: nat, preparation: Preparation)
    ensures StepPrepare(cfg, s, w, preparation).row.DueSince() == s.row.DueSince()
  {
  }

  lemma DeliverKeepsDueSince(s: State, w: nat, delivering: Delivering)
    ensures StepDeliver(s, w, delivering).row.DueSince() == s.row.DueSince()
  {
  }

  lemma OutsideKeepsDueSince(cfg: Config, s: State, event: Event)
    ensures StepOutside(cfg, s, event).row.DueSince() == s.row.DueSince()
  {
  }

  lemma StepKeepsDueSince(cfg: Config, s: State, a: Action)
    ensures Step(cfg, s, a).row.DueSince() == s.row.DueSince()
  {
    match a
    case Prepare(w, preparation) => PrepareKeepsDueSince(cfg, s, w, preparation);
    case Deliver(w, delivering) => DeliverKeepsDueSince(s, w, delivering);
    case Conclude(w, conclusion, now) => ConcludingMoves(cfg, At(s, w), conclusion, now);
    case Outside(event) => OutsideKeepsDueSince(cfg, s, event);
  }

  lemma {:induction false} DueSinceIsFixed(cfg: Config, s: State, actions: seq<Action>)
    ensures Run(cfg, s, actions).row.DueSince() == s.row.DueSince()
    decreases |actions|
  {
    if actions != [] {
      StepKeepsDueSince(cfg, s, actions[0]);
      DueSinceIsFixed(cfg, Step(cfg, s, actions[0]), actions[1..]);
    }
  }
}
