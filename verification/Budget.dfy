/**
 * When attemptCount can pass maximumAttempts. A dispatch checks the budget only after it has
 * counted, so all depends on whether a notification whose attempts are used up comes back to
 * waiting; the sends stay within the budget all the same.
 */
module Budget {
  import opened Wrappers
  import opened Lifecycle
  import opened Failures
  import opened Rows
  import opened Delivery
  import opened DeliverySafety
  import opened FailStop
  import opened Progress

  /** Every attempt was made, and how each ended is recorded. */
  predicate IsUsedUp(s: State) {
    s.row.attemptCount >= s.row.maximumAttempts && !HasUnresolved(s.ledger)
  }

  predicate IsHeldBy(s: State, pc: Worker) {
    pc.Engaged() && s.row.claimToken == Some(pc.token)
  }

  /**
   * The step puts a used-up notification back to waiting. A dispatch that was about to begin an
   * attempt and puts it off does not count: the notification was on its way to one already.
   */
  predicate PutsBackUsedUp(cfg: Config, s: State, a: Action) {
    && IsUsedUp(s) && s.row.status == Processing && Step(cfg, s, a).row.status == Retrying
    && !(a.Conclude? && At(s, a.worker).Clear? && IsHeldBy(s, At(s, a.worker)))
  }

  /** Waiting, or claimed by a worker that has yet to look at the ledger. */
  ghost predicate IsBeforeLedger(s: State) {
    s.row.status == Retrying || exists w :: w in s.workers && s.workers[w].Claimed? && IsHeldBy(s, s.workers[w])
  }

  /** A worker records how the last attempt ended only when the notification has gone on without it. */
  ghost predicate RecordsLate(cfg: Config, s: State, a: Action) {
    a.Deliver? && !IsUsedUp(s) && IsUsedUp(Step(cfg, s, a)) && IsBeforeLedger(s)
  }

  ghost predicate Reopens(cfg: Config, s: State, a: Action) {
    PutsBackUsedUp(cfg, s, a) || RecordsLate(cfg, s, a)
  }

  ghost predicate NeverReopens(cfg: Config, s: State, actions: seq<Action>)
    decreases |actions|
  {
    actions == [] || (!Reopens(cfg, s, actions[0]) && NeverReopens(cfg, Step(cfg, s, actions[0]), actions[1..]))
  }

  ghost function Reopenings(cfg: Config, s: State, actions: seq<Action>): nat
    decreases |actions|
  {
    if actions == [] then 0
    else (if Reopens(cfg, s, actions[0]) then 1 else 0) + Reopenings(cfg, Step(cfg, s, actions[0]), actions[1..])
  }

  predicate IsPast(s: State) {
    s.row.attemptCount > s.row.maximumAttempts
  }

  /** Some way to go on takes the count past the maximum without reopening the notification. */
  ghost predicate CanPass(cfg: Config, s: State) {
    exists actions :: NeverReopens(cfg, s, actions) && IsPast(Run(cfg, s, actions))
  }

  predicate IsDueBy(row: Notification, at: int) {
    row.status == Retrying && row.nextAttemptAt.Some? && row.nextAttemptAt.value <= at
  }

  predicate IsInTime(cfg: Config, row: Notification, at: int) {
    at - row.DueSince() <= cfg.windowMs
  }

  /** Due again while the delivery window is open. */
  predicate WaitsInTime(cfg: Config, s: State) {
    && IsInTime(cfg, s.row, s.clock)
    && s.row.status == Retrying && s.row.nextAttemptAt.Some? && IsInTime(cfg, s.row, s.row.nextAttemptAt.value)
  }

  /** The worker has a claim on the notification, or a reading to claim it by, that the window still admits. */
  predicate IsAhead(cfg: Config, s: State, pc: Worker) {
    match pc
    case Arrived(seen) => IsDueBy(s.row, seen) && IsInTime(cfg, s.row, seen)
    case ReadyToClaim(seen) => IsDueBy(s.row, seen) && IsInTime(cfg, s.row, seen)
    case Claimed(token, snapshot, seen) => s.row.claimToken == Some(token) && IsInTime(cfg, snapshot, seen)
    case Clear(token, _, _) => s.row.claimToken == Some(token)
    case _ => false
  }

  /** Used up, and yet on the way to another attempt. */
  ghost predicate MayPass(cfg: Config, s: State) {
    IsUsedUp(s) && (WaitsInTime(cfg, s) || exists w :: w in s.workers && IsAhead(cfg, s, s.workers[w]))
  }

  // ----- the way past the maximum -----

  lemma GoOn(cfg: Config, s: State, a: Action)
    requires !Reopens(cfg, s, a) && CanPass(cfg, Step(cfg, s, a))
    ensures CanPass(cfg, s)
  {
    var t := Step(cfg, s, a);
    var rest :| NeverReopens(cfg, t, rest) && IsPast(Run(cfg, t, rest));
    var actions := [a] + rest;
    assert actions[0] == a && actions[1..] == rest;
    assert NeverReopens(cfg, s, actions) && IsPast(Run(cfg, s, actions));
  }

  lemma PastPasses(cfg: Config, s: State)
    requires IsPast(s)
    ensures CanPass(cfg, s)
  {
    assert NeverReopens(cfg, s, []) && Run(cfg, s, []) == s;
  }

  lemma FromClear(cfg: Config, s: State, w: nat)
    requires Inv(s) && ClockInv(s) && IsUsedUp(s) && At(s, w).Clear? && IsHeldBy(s, At(s, w))
    ensures CanPass(cfg, s)
  {
    var a := Deliver(w, Start("", s.workers[w].seen));
    assert SeenBy(s.workers[w], s.clock);
    PastPasses(cfg, Step(cfg, s, a));
    GoOn(cfg, s, a);
  }

  lemma FromClaimed(cfg: Config, s: State, w: nat)
    requires Inv(s) && ClockInv(s) && IsUsedUp(s) && At(s, w).Claimed? && IsAhead(cfg, s, At(s, w))
    ensures CanPass(cfg, s)
  {
    var a := Prepare(w, CheckLedger(s.workers[w].seen));
    assert SeenBy(s.workers[w], s.clock);
    StepInv(cfg, s, a);
    StepClock(cfg, s, a);
    FromClear(cfg, Step(cfg, s, a), w);
    GoOn(cfg, s, a);
  }

  lemma {:induction false} UnusedToken(tokens: set<Token>) returns (token: Token)
    ensures token !in tokens
  {
    token := 0;
    var below: set<Token> := {};
    while token in tokens
      invariant below <= tokens && forall other :: other in below ==> other < token
      decreases tokens - below
    {
      below := below + {token};
      token := token + 1;
    }
  }

  lemma FromReady(cfg: Config, s: State, w: nat)
    requires Inv(s) && ClockInv(s) && IsUsedUp(s) && At(s, w).ReadyToClaim? && IsAhead(cfg, s, At(s, w))
    ensures CanPass(cfg, s)
  {
    var token := UnusedToken(s.usedTokens);
    var a := Prepare(w, Claim(token));
    StepInv(cfg, s, a);
    StepClock(cfg, s, a);
    FromClaimed(cfg, Step(cfg, s, a), w);
    GoOn(cfg, s, a);
  }

  lemma FromArrived(cfg: Config, s: State, w: nat)
    requires Inv(s) && ClockInv(s) && IsUsedUp(s) && At(s, w).Arrived? && IsAhead(cfg, s, At(s, w))
    ensures CanPass(cfg, s)
  {
    var a := Prepare(w, Promote);
    StepInv(cfg, s, a);
    StepClock(cfg, s, a);
    FromReady(cfg, Step(cfg, s, a), w);
    GoOn(cfg, s, a);
  }

  lemma FromDue(cfg: Config, s: State)
    requires Inv(s) && ClockInv(s) && IsUsedUp(s) && IsDueBy(s.row, s.clock) && IsInTime(cfg, s.row, s.clock)
    ensures CanPass(cfg, s)
  {
    var w := UnusedToken(s.workers.Keys);
    var a := Prepare(w, Arrive);
    StepInv(cfg, s, a);
    StepClock(cfg, s, a);
    FromArrived(cfg, Step(cfg, s, a), w);
    GoOn(cfg, s, a);
  }

  lemma FromWaiting(cfg: Config, s: State)
    requires Inv(s) && ClockInv(s) && IsUsedUp(s) && WaitsInTime(cfg, s)
    ensures CanPass(cfg, s)
  {
    if IsDueBy(s.row, s.clock) {
      FromDue(cfg, s);
    } else {
      var a := Outside(Tick(s.row.nextAttemptAt.value - s.clock));
      StepInv(cfg, s, a);
      StepClock(cfg, s, a);
      FromDue(cfg, Step(cfg, s, a));
      GoOn(cfg, s, a);
    }
  }

  lemma MayPassCan(cfg: Config, s: State)
    requires Inv(s) && ClockInv(s) && MayPass(cfg, s)
    ensures CanPass(cfg, s)
  {
    if WaitsInTime(cfg, s) {
      FromWaiting(cfg, s);
    } else {
      var w :| w in s.workers && IsAhead(cfg, s, s.workers[w]);
      match s.workers[w]
      case Arrived(_) => FromArrived(cfg, s, w);
      case ReadyToClaim(_) => FromReady(cfg, s, w);
      case Claimed(_, _, _) => FromClaimed(cfg, s, w);
      case Clear(_, _, _) => FromClear(cfg, s, w);
    }
  }

  // ----- and no other -----

  /** Not tried before its first claim. */
  predicate IsUntried(s: State) {
    s.row.status in {Scheduled, Queued} ==> s.row.attemptCount == 0
  }

  ghost predicate WithinInv(cfg: Config, s: State) {
    Inv(s) && IsUntried(s) && !MayPass(cfg, s)
  }

  /** A worker that the step does not move is ahead after it only if it was before. */
  lemma StaysBehind(cfg: Config, s: State, t: State, w: nat)
    requires !MayPass(cfg, s) && (IsUsedUp(t) ==> IsUsedUp(s))
    requires t.row.DueSince() == s.row.DueSince() && s.clock <= t.clock
    requires t.row.status == Retrying ==> s.row.status == Retrying && t.row.nextAttemptAt == s.row.nextAttemptAt
    requires t.row.claimToken.Some? ==> t.row.claimToken == s.row.claimToken
    requires forall v | v in t.workers && v != w :: v in s.workers && t.workers[v] == s.workers[v]
    requires IsUsedUp(t) && w in t.workers ==> !IsAhead(cfg, t, t.workers[w])
    ensures !MayPass(cfg, t)
  {
    if MayPass(cfg, t) && !WaitsInTime(cfg, t) {
      var v :| v in t.workers && IsAhead(cfg, t, t.workers[v]);
      assert IsAhead(cfg, s, s.workers[v]);
    }
  }

  lemma ArriveWithin(cfg: Config, s: State, w: nat)
    requires WithinInv(cfg, s)
    ensures WithinInv(cfg, StepArrive(s, w))
  {
    StepArriveInv(s, w);
    if At(s, w).Idle? { StaysBehind(cfg, s, StepArrive(s, w), w); }
  }

  lemma PromoteWithin(cfg: Config, s: State, w: nat)
    requires WithinInv(cfg, s)
    ensures WithinInv(cfg, StepPromote(s, w))
  {
    StepPromoteInv(s, w);
    if At(s, w).Arrived? { StaysBehind(cfg, s, StepPromote(s, w), w); }
  }

  /** The claim of a used-up notification is past the window already. */
  lemma ClaimWithin(cfg: Config, s: State, w: nat, token: Token)
    requires WithinInv(cfg, s)
    ensures WithinInv(cfg, StepClaim(s, w, token))
  {
    StepClaimInv(s, w, token);
    var t := StepClaim(s, w, token);
    if t.row == s.row {
      if t != s { StaysBehind(cfg, s, t, w); }
    } else if IsUsedUp(t) {
      assert !IsAhead(cfg, s, s.workers[w]);
      forall v | v in t.workers ensures !IsAhead(cfg, t, t.workers[v]) {
        assert v != w ==> WorkerInv(s, s.workers[v]);
      }
    }
  }

  lemma CheckLedgerWithin(cfg: Config, s: State, w: nat, checkedAt: int)
    requires WithinInv(cfg, s)
    ensures WithinInv(cfg, StepCheckLedger(cfg, s, w, checkedAt))
  {
    StepCheckLedgerInv(cfg, s, w, checkedAt);
    if w in s.workers {
      assert IsUsedUp(s) ==> !IsAhead(cfg, s, s.workers[w]);
      StaysBehind(cfg, s, StepCheckLedger(cfg, s, w, checkedAt), w);
    }
  }

  /** An attempt begins only on a notification that is not used up. */
  lemma StartWithin(cfg: Config, s: State, w: nat, chat: string, now: int)
    requires WithinInv(cfg, s)
    ensures WithinInv(cfg, StepStart(s, w, chat, now))
    ensures StepStart(s, w, chat, now).row.attemptCount != s.row.attemptCount ==> !IsUsedUp(s)
  {
    StepStartInv(s, w, chat, now);
    var t := StepStart(s, w, chat, now);
    if t.row == s.row {
      if t != s { StaysBehind(cfg, s, t, w); }
    } else {
      assert WorkerInv(s, s.workers[w]);
      assert IsAhead(cfg, s, s.workers[w]);
      assert IsUnresolved(t.ledger, t.row.attemptCount);
    }
  }

  lemma SendWithin(cfg: Config, s: State, w: nat, answer: Answer, accepted: bool)
    requires WithinInv(cfg, s)
    ensures WithinInv(cfg, StepSend(s, w, answer, accepted))
  {
    StepSendInv(s, w, answer, accepted);
    var t := StepSend(s, w, answer, accepted);
    if t != s { StaysBehind(cfg, s, t, w); }
  }

  lemma CommitSentWithin(cfg: Config, s: State, w: nat, now: int)
    requires WithinInv(cfg, s)
    ensures WithinInv(cfg, StepCommitSent(s, w, now))
  {
    StepCommitSentInv(s, w, now);
    var t := StepCommitSent(s, w, now);
    if t != s && t.row == s.row { StaysBehind(cfg, s, t, w); }
  }

  /** Resolving attempts changes who is used up only when the last one closes; then nobody is ahead. */
  lemma ResolveWithin(cfg: Config, s: State, t: State, w: nat)
    requires WithinInv(cfg, s) && Inv(t) && t.row == s.row && t.clock == s.clock
    requires !IsUsedUp(s) && IsUsedUp(t) ==> !IsBeforeLedger(s)
    requires forall v | v in t.workers && v != w :: v in s.workers && t.workers[v] == s.workers[v]
    requires w in t.workers ==> t.workers[w].UnknownRecorded? || t.workers[w].RefusalRecorded?
    ensures WithinInv(cfg, t)
  {
    if IsUsedUp(s) || !IsUsedUp(t) {
      StaysBehind(cfg, s, t, w);
    } else {
      forall v | v in t.workers ensures !IsAhead(cfg, t, t.workers[v]) {
        assert v != w ==> WorkerInv(s, s.workers[v]);
        assert v != w && s.workers[v].Claimed? ==> !IsHeldBy(s, s.workers[v]);
      }
    }
  }

  lemma RecordWithin(cfg: Config, s: State, w: nat, delivering: Delivering)
    requires WithinInv(cfg, s) && !Reopens(cfg, s, Deliver(w, delivering))
    requires delivering.RecordUnknown? || delivering.RecordRefusal?
    ensures WithinInv(cfg, StepDeliver(s, w, delivering))
  {
    StepDeliverInv(s, w, delivering);
    var t := StepDeliver(s, w, delivering);
    if t != s {
      assert t == Step(cfg, s, Deliver(w, delivering));
      ResolveWithin(cfg, s, t, w);
    }
  }

  lemma DeliverWithin(cfg: Config, s: State, w: nat, delivering: Delivering)
    requires WithinInv(cfg, s) && !Reopens(cfg, s, Deliver(w, delivering))
    ensures WithinInv(cfg, StepDeliver(s, w, delivering))
    ensures StepDeliver(s, w, delivering).row.attemptCount != s.row.attemptCount ==> !IsUsedUp(s)
  {
    match delivering
    case Start(chat, now) => StartWithin(cfg, s, w, chat, now);
    case Send(answer, accepted) => SendWithin(cfg, s, w, answer, accepted);
    case CommitSent(now) => CommitSentWithin(cfg, s, w, now);
    case _ => RecordWithin(cfg, s, w, delivering);
  }

  lemma ConcludeWithin(cfg: Config, s: State, w: nat, conclusion: Conclusion, now: int)
    requires WithinInv(cfg, s) && !Reopens(cfg, s, Conclude(w, conclusion, now))
    ensures WithinInv(cfg, StepConclude(cfg, s, w, conclusion, now))
  {
    StepConcludeInv(cfg, s, w, conclusion, now);
    ConcludingMoves(cfg, At(s, w), conclusion, now);
    var t := StepConclude(cfg, s, w, conclusion, now);
    assert t == Step(cfg, s, Conclude(w, conclusion, now));
    if t != s && IsUsedUp(s) {
      assert !IsAhead(cfg, s, s.workers[w]);
      StaysBehind(cfg, s, t, w);
    }
  }

  lemma ReapWithin(cfg: Config, s: State, now: int)
    requires WithinInv(cfg, s) && !Reopens(cfg, s, Outside(Reap(now)))
    ensures WithinInv(cfg, StepReap(cfg, s, now))
  {
    StepReapInv(cfg, s, now);
    assert StepReap(cfg, s, now) == Step(cfg, s, Outside(Reap(now)));
  }

  lemma EventWithin(cfg: Config, s: State, event: Event)
    requires WithinInv(cfg, s) && !event.Reap?
    ensures WithinInv(cfg, StepOutside(cfg, s, event))
  {
    StepOutsideInv(cfg, s, event);
    EventMoves(cfg, s, event);
    EventKeepsCount(cfg, s, event);
    StaysBehind(cfg, s, StepOutside(cfg, s, event), if event.Crash? then event.worker else 0);
  }

  lemma EventKeepsCount(cfg: Config, s: State, event: Event)
    requires Inv(s) && !event.Reap?
    ensures var t := StepOutside(cfg, s, event);
            && t.row.attemptCount == s.row.attemptCount && t.row.maximumAttempts == s.row.maximumAttempts
            && t.ledger == s.ledger && t.row.claimToken == s.row.claimToken
  {
  }

  lemma PrepareWithin(cfg: Config, s: State, w: nat, preparation: Preparation)
    requires WithinInv(cfg, s)
    ensures WithinInv(cfg, StepPrepare(cfg, s, w, preparation))
  {
    match preparation
    case Arrive => ArriveWithin(cfg, s, w);
    case Promote => PromoteWithin(cfg, s, w);
    case Claim(token) => ClaimWithin(cfg, s, w, token);
    case CheckLedger(checkedAt) => CheckLedgerWithin(cfg, s, w, checkedAt);
  }

  lemma StepWithin(cfg: Config, s: State, a: Action)
    requires WithinInv(cfg, s) && !Reopens(cfg, s, a)
    ensures WithinInv(cfg, Step(cfg, s, a))
  {
    match a
    case Prepare(w, preparation) => PrepareWithin(cfg, s, w, preparation);
    case Deliver(w, delivering) => DeliverWithin(cfg, s, w, delivering);
    case Conclude(w, conclusion, now) => ConcludeWithin(cfg, s, w, conclusion, now);
    case Outside(event) =>
      if event.Reap? { ReapWithin(cfg, s, event.now); } else { EventWithin(cfg, s, event); }
  }

  /** A step counts one attempt at most, and the ledger row it opens is then unresolved. */
  lemma CountsOne(cfg: Config, s: State, a: Action)
    requires Inv(s)
    ensures var t := Step(cfg, s, a);
            && t.row.maximumAttempts == s.row.maximumAttempts
            && (t.row.attemptCount == s.row.attemptCount
                || (t.row.attemptCount == s.row.attemptCount + 1 && !IsUsedUp(t) && a.Deliver?
                    && At(s, a.worker).Clear? && IsHeldBy(s, At(s, a.worker))))
  {
    StepKeepsMaximum(cfg, s, a);
    match a
    case Prepare(w, preparation) =>
    case Deliver(w, delivering) => DeliverCountsOne(s, w, delivering);
    case Conclude(w, conclusion, now) => ConcludingMoves(cfg, At(s, w), conclusion, now);
    case Outside(event) => if !event.Reap? { EventKeepsCount(cfg, s, event); }
  }

  lemma DeliverCountsOne(s: State, w: nat, delivering: Delivering)
    ensures var t := StepDeliver(s, w, delivering);
            t.row.attemptCount == s.row.attemptCount
            || (t.row.attemptCount == s.row.attemptCount + 1 && !IsUsedUp(t)
                && At(s, w).Clear? && IsHeldBy(s, At(s, w)))
  {
    var t := StepDeliver(s, w, delivering);
    if t.row.attemptCount != s.row.attemptCount {
      assert IsUnresolved(t.ledger, t.row.attemptCount);
    }
  }

  /** The count is within the maximum and `credit` more, and one more attempt is within it too. */
  ghost predicate WithinCredit(cfg: Config, s: State, credit: nat) {
    && Inv(s) && IsUntried(s)
    && s.row.attemptCount <= s.row.maximumAttempts + credit
    && (MayPass(cfg, s) ==> s.row.attemptCount < s.row.maximumAttempts + credit)
  }

  lemma StepCredit(cfg: Config, s: State, a: Action, credit: nat)
    requires WithinCredit(cfg, s, credit)
    ensures WithinCredit(cfg, Step(cfg, s, a), if Reopens(cfg, s, a) then credit + 1 else credit)
  {
    StepInv(cfg, s, a);
    StepUntried(cfg, s, a);
    CountsOne(cfg, s, a);
    if !MayPass(cfg, s) && !Reopens(cfg, s, a) {
      StepWithin(cfg, s, a);
    } else if Step(cfg, s, a).row.attemptCount != s.row.attemptCount && !MayPass(cfg, s) {
      assert IsAhead(cfg, s, s.workers[a.worker]) && WorkerInv(s, s.workers[a.worker]);
    }
  }

  lemma {:induction false} RunCredit(cfg: Config, s: State, actions: seq<Action>, credit: nat)
    requires WithinCredit(cfg, s, credit)
    ensures WithinCredit(cfg, Run(cfg, s, actions), credit + Reopenings(cfg, s, actions))
    decreases |actions|
  {
    if actions != [] {
      StepCredit(cfg, s, actions[0], credit);
      var left := if Reopens(cfg, s, actions[0]) then credit + 1 else credit;
      RunCredit(cfg, Step(cfg, s, actions[0]), actions[1..], left);
    }
  }

  lemma {:induction false} NoneIsZero(cfg: Config, s: State, actions: seq<Action>)
    ensures NeverReopens(cfg, s, actions) <==> Reopenings(cfg, s, actions) == 0
    decreases |actions|
  {
    if actions != [] {
      NoneIsZero(cfg, Step(cfg, s, actions[0]), actions[1..]);
    }
  }

  // ----- the results -----

  lemma InitialWithin(cfg: Config, row: Notification, clock: int)
    requires IsNew(row)
    ensures WithinCredit(cfg, Initial(row, clock), 0) && ClockInv(Initial(row, clock))
  {
    InitialInv(row, clock);
  }

  /**
   * Each reopening of a used-up notification allows one more attempt at most, and nothing else
   * allows any: as long as there is none, the count stays within the maximum.
   */
  lemma CountStaysWithin(cfg: Config, row: Notification, clock: int, actions: seq<Action>)
    requires IsNew(row)
    ensures var s := Run(cfg, Initial(row, clock), actions);
            && s.row.attemptCount <= row.maximumAttempts + Reopenings(cfg, Initial(row, clock), actions)
            && (NeverReopens(cfg, Initial(row, clock), actions) ==> s.row.attemptCount <= row.maximumAttempts)
  {
    InitialWithin(cfg, row, clock);
    RunCredit(cfg, Initial(row, clock), actions, 0);
    NoneIsZero(cfg, Initial(row, clock), actions);
    MaximumIsFixed(cfg, Initial(row, clock), actions);
  }

  lemma {:induction false} RunUntried(cfg: Config, s: State, actions: seq<Action>)
    requires IsUntried(s) && Inv(s) && ClockInv(s)
    ensures IsUntried(Run(cfg, s, actions)) && Inv(Run(cfg, s, actions)) && ClockInv(Run(cfg, s, actions))
    decreases |actions|
  {
    if actions != [] {
      StepUntried(cfg, s, actions[0]);
      StepInv(cfg, s, actions[0]);
      StepClock(cfg, s, actions[0]);
      RunUntried(cfg, Step(cfg, s, actions[0]), actions[1..]);
    }
  }

  lemma StepUntried(cfg: Config, s: State, a: Action)
    requires IsUntried(s) && Inv(s)
    ensures IsUntried(Step(cfg, s, a))
  {
    match a
    case Prepare(w, preparation) =>
    case Deliver(w, delivering) =>
    case Conclude(w, conclusion, now) => ConcludingMoves(cfg, At(s, w), conclusion, now);
    case Outside(event) => if !event.Reap? { EventMoves(cfg, s, event); EventKeepsCount(cfg, s, event); }
  }

  /**
   * After any run at all, the count can go past the maximum without reopening exactly when it is
   * past, or the attempts are used up and the notification waits, or is on its way, in its window.
   */
  lemma CountPassesExactlyWhen(cfg: Config, row: Notification, clock: int, actions: seq<Action>)
    requires IsNew(row)
    ensures var s := Run(cfg, Initial(row, clock), actions);
            CanPass(cfg, s) <==> IsPast(s) || MayPass(cfg, s)
  {
    InitialWithin(cfg, row, clock);
    RunUntried(cfg, Initial(row, clock), actions);
    var s := Run(cfg, Initial(row, clock), actions);
    if IsPast(s) {
      PastPasses(cfg, s);
    } else if MayPass(cfg, s) {
      MayPassCan(cfg, s);
    } else {
      forall more | NeverReopens(cfg, s, more) ensures !IsPast(Run(cfg, s, more)) {
        RunCredit(cfg, s, more, 0);
        NoneIsZero(cfg, s, more);
      }
    }
  }

  // ----- what reopens, when workers fail by stopping -----

  /** The reaper takes the claim away. */
  predicate TakesClaim(s: State, a: Action) {
    a.Outside? && a.event.Reap? && a.event.now <= s.clock
  }

  /** A refusal found the provider without the session: waiting for it is decided before the budget is looked at. */
  predicate AwaitsSession(cfg: Config, s: State, a: Action) {
    && a.Conclude? && a.conclusion.FinishRefusal? && a.now <= s.clock
    && Concluding(cfg, At(s, a.worker), a.conclusion, a.now).Some?
    && IsSessionLostByProvider(At(s, a.worker).failure)
    && a.conclusion.checkedAt - At(s, a.worker).snapshot.DueSince() <= cfg.connectionWaitMs
  }

  /** Who has recorded an outcome recorded that of the last attempt. */
  ghost predicate RecordedLast(s: State) {
    forall w :: w in s.workers && (s.workers[w].UnknownRecorded? || s.workers[w].RefusalRecorded?)
      ==> s.workers[w].attempt == s.row.attemptCount
  }

  lemma DeliverRecordsLast(s: State, w: nat, delivering: Delivering)
    requires StopInv(s) && RecordedLast(s)
    ensures RecordedLast(StepDeliver(s, w, delivering))
  {
    if w in s.workers && s.workers[w].Engaged() {
      assert Exclusive(s, s.workers[w]);
      forall v | v in s.workers && v != w ensures !s.workers[v].Engaged() {
        OnlyHolder(s, w, v);
      }
    }
  }

  lemma StepRecordsLast(cfg: Config, s: State, a: Action)
    requires StopInv(s) && RecordedLast(s)
    ensures RecordedLast(Step(cfg, s, a))
  {
    match a
    case Prepare(w, preparation) => PrepareRecordsLast(cfg, s, w, preparation);
    case Deliver(w, delivering) => DeliverRecordsLast(s, w, delivering);
    case Conclude(w, conclusion, now) => ConcludingMoves(cfg, At(s, w), conclusion, now);
    case Outside(event) => EventRecordsLast(cfg, s, event);
  }

  lemma PrepareRecordsLast(cfg: Config, s: State, w: nat, preparation: Preparation)
    requires RecordedLast(s)
    ensures RecordedLast(StepPrepare(cfg, s, w, preparation))
  {
  }

  lemma EventRecordsLast(cfg: Config, s: State, event: Event)
    requires Inv(s) && RecordedLast(s)
    ensures RecordedLast(StepOutside(cfg, s, event))
  {
    if !event.Reap? {
      EventMoves(cfg, s, event);
      EventKeepsCount(cfg, s, event);
    }
  }

  lemma {:induction false} RunRecordsLast(cfg: Config, s: State, actions: seq<Action>)
    requires StopInv(s) && RecordedLast(s) && cfg.failStop
    ensures StopInv(Run(cfg, s, actions)) && RecordedLast(Run(cfg, s, actions))
    decreases |actions|
  {
    if actions != [] {
      StepStop(cfg, s, actions[0]);
      StepRecordsLast(cfg, s, actions[0]);
      RunRecordsLast(cfg, Step(cfg, s, actions[0]), actions[1..]);
    }
  }

  /** The claim is exclusive, so nobody records late. */
  lemma NobodyRecordsLate(cfg: Config, s: State, a: Action)
    requires StopInv(s)
    ensures !RecordsLate(cfg, s, a)
  {
    if RecordsLate(cfg, s, a) {
      var w := a.worker;
      if s.row.status == Retrying {
        NobodyHolds(s);
      } else {
        var v :| v in s.workers && s.workers[v].Claimed? && IsHeldBy(s, s.workers[v]);
        if v != w && w in s.workers { OnlyHolder(s, v, w); }
      }
    }
  }

  /** Of the conclusions on a used-up notification, only the wait for a lost session does not fail it. */
  lemma OnlyAwaitingPutsBack(cfg: Config, s: State, w: nat, conclusion: Conclusion, now: int)
    requires StopInv(s) && RecordedLast(s) && IsUsedUp(s) && s.row.status == Processing && !At(s, w).Clear?
    ensures StepConclude(cfg, s, w, conclusion, now).row.status == Retrying
            <==> AwaitsSession(cfg, s, Conclude(w, conclusion, now))
  {
    var changes := Concluding(cfg, At(s, w), conclusion, now);
    ConcludingMoves(cfg, At(s, w), conclusion, now);
    if changes.Some? {
      assert Exclusive(s, s.workers[w]) && WorkerInv(s, s.workers[w]);
      UsedUpConclusion(cfg, s, s.workers[w], conclusion, now);
    }
  }

  lemma UsedUpConclusion(cfg: Config, s: State, pc: Worker, conclusion: Conclusion, now: int)
    requires Concluding(cfg, pc, conclusion, now).Some? && !pc.Clear?
    requires pc.UnknownRecorded? || pc.RefusalRecorded? ==> pc.attempt >= pc.snapshot.maximumAttempts
    ensures !Concluding(cfg, pc, conclusion, now).value.ToFailed?
            <==> conclusion.FinishRefusal? && IsSessionLostByProvider(pc.failure)
                 && conclusion.checkedAt - pc.snapshot.DueSince() <= cfg.connectionWaitMs
  {
  }

  /** In a fail-stop run every reopening is a reap, or the wait for a session the provider lost. */
  lemma ReopensExactlyWhen(cfg: Config, row: Notification, clock: int, actions: seq<Action>, a: Action)
    requires IsNew(row) && cfg.failStop
    ensures var s := Run(cfg, Initial(row, clock), actions);
            Reopens(cfg, s, a) <==>
              IsUsedUp(s) && s.row.status == Processing && (TakesClaim(s, a) || AwaitsSession(cfg, s, a))
  {
    InitialInv(row, clock);
    RunRecordsLast(cfg, Initial(row, clock), actions);
    var s := Run(cfg, Initial(row, clock), actions);
    NobodyRecordsLate(cfg, s, a);
    if IsUsedUp(s) && s.row.status == Processing {
      match a
      case Conclude(w, conclusion, now) => ConclusionPutsBack(cfg, s, w, conclusion, now);
      case Outside(event) => if !event.Reap? { EventMoves(cfg, s, event); }
      case Prepare(w, preparation) => PreparationKeepsProcessing(cfg, s, w, preparation);
      case Deliver(w, delivering) => DeliveryNeverWaits(s, w, delivering);
    }
  }

  lemma ConclusionPutsBack(cfg: Config, s: State, w: nat, conclusion: Conclusion, now: int)
    requires StopInv(s) && RecordedLast(s) && IsUsedUp(s) && s.row.status == Processing
    ensures var a := Conclude(w, conclusion, now);
            PutsBackUsedUp(cfg, s, a) <==> AwaitsSession(cfg, s, a)
  {
    if At(s, w).Clear? {
      assert Exclusive(s, s.workers[w]);
    } else {
      OnlyAwaitingPutsBack(cfg, s, w, conclusion, now);
    }
  }

  lemma PreparationKeepsProcessing(cfg: Config, s: State, w: nat, preparation: Preparation)
    requires s.row.status == Processing
    ensures StepPrepare(cfg, s, w, preparation).row.status == Processing
  {
  }

  lemma DeliveryNeverWaits(s: State, w: nat, delivering: Delivering)
    requires s.row.status == Processing
    ensures StepDeliver(s, w, delivering).row.status in {Processing, Sent}
  {
  }
}
