/**
 * What holds once a worker that loses its claim stops: the claim is then
 * exclusive, the SUCCEEDED row is unique, and a tenant that fails closed gets
 * at most one copy, plus one for each time a dispatch was cut off between
 * writing UNKNOWN and writing FAILED.
 */
module FailStop {
  import opened Wrappers
  import opened Lifecycle
  import opened Rows
  import opened Delivery
  import opened DeliverySafety

  /** A worker inside a dispatch owns the row, and knows how the ledger stands. */
  ghost predicate Exclusive(s: State, pc: Worker) {
    pc.Engaged() ==>
      && s.row.claimToken == Some(pc.token)
      && (pc.Begun? || pc.Answered? || pc.Interrupted? ==> IsUnresolved(s.ledger, pc.attempt))
      && (pc.Clear? || pc.UnknownRecorded? || pc.RefusalRecorded? ==> !HasUnresolved(s.ledger))
  }

  predicate IsSucceeded(ledger: Ledger, k: nat) {
    k in ledger && ledger[k].outcome == Some(AttemptSucceeded)
  }

  /** One SUCCEEDED row exactly when the row carries an identifier, and the same one. */
  ghost predicate OneSuccess(s: State) {
    && (forall k :: IsSucceeded(s.ledger, k) ==>
          s.ledger[k].providerMessageId.Some? && s.ledger[k].providerMessageId == s.row.providerMessageId)
    && (forall k, m :: IsSucceeded(s.ledger, k) && IsSucceeded(s.ledger, m) ==> k == m)
    && (s.row.providerMessageId.Some? ==> exists k :: IsSucceeded(s.ledger, k))
  }

  ghost predicate StopInv(s: State) {
    && Inv(s)
    && (forall w | w in s.workers :: Exclusive(s, s.workers[w]))
    && OneSuccess(s)
  }

  lemma OnlyHolder(s: State, v: nat, w: nat)
    requires StopInv(s) && v in s.workers && w in s.workers && v != w && s.workers[v].Engaged()
    ensures !s.workers[w].Engaged()
  {
    assert Apart(s.workers[v], s.workers[w]);
    assert Exclusive(s, s.workers[v]) && Exclusive(s, s.workers[w]);
  }

  lemma NobodyHolds(s: State)
    requires StopInv(s) && s.row.status != Processing
    ensures forall w | w in s.workers :: !s.workers[w].Engaged()
  {
    forall w | w in s.workers
      ensures !s.workers[w].Engaged()
    {
      assert Exclusive(s, s.workers[w]);
    }
  }

  /** A step that moves only one worker keeps exclusivity if it keeps that worker's, and nobody else is engaged. */
  lemma ExclusiveAfter(s: State, t: State, w: nat)
    requires StopInv(s)
    requires forall v | v in t.workers && v != w :: v in s.workers && t.workers[v] == s.workers[v]
    requires w in t.workers ==> Exclusive(t, t.workers[w])
    requires s.row.status != Processing || At(s, w).Engaged()
             || (t.row.claimToken == s.row.claimToken && t.ledger == s.ledger)
    ensures forall v | v in t.workers :: Exclusive(t, t.workers[v])
  {
    forall v | v in t.workers
      ensures Exclusive(t, t.workers[v])
    {
      if v != w {
        assert Exclusive(s, s.workers[v]);
        if s.row.status != Processing { NobodyHolds(s); }
        else if At(s, w).Engaged() { OnlyHolder(s, w, v); }
      }
    }
  }

  /** The same, for the steps that leave the ledger and the identifier alone. */
  lemma StopAfter(s: State, t: State, w: nat)
    requires StopInv(s) && Inv(t)
    requires forall v | v in t.workers && v != w :: v in s.workers && t.workers[v] == s.workers[v]
    requires w in t.workers ==> Exclusive(t, t.workers[w])
    requires s.row.status != Processing || At(s, w).Engaged() || t.row.claimToken == s.row.claimToken
    requires t.ledger == s.ledger && t.row.providerMessageId == s.row.providerMessageId
    ensures StopInv(t)
  {
    ExclusiveAfter(s, t, w);
  }

  lemma SettleStop(s: State, w: nat, changes: Changes)
    requires StopInv(s) && At(s, w).Engaged() && (changes.ToRetry? || changes.ToDeferred? || changes.ToFailed?)
    ensures StopInv(Settle(s, w, changes))
  {
    SettleInv(s, w, changes);
    StopAfter(s, Settle(s, w, changes), w);
  }

  lemma ClaimStop(s: State, w: nat, token: Token)
    requires StopInv(s)
    ensures StopInv(StepClaim(s, w, token))
  {
    StepClaimInv(s, w, token);
    if StepClaim(s, w, token) != s { StopAfter(s, StepClaim(s, w, token), w); }
  }

  lemma CheckLedgerStop(cfg: Config, s: State, w: nat, checkedAt: int)
    requires StopInv(s)
    ensures StopInv(StepCheckLedger(cfg, s, w, checkedAt))
  {
    StepCheckLedgerInv(cfg, s, w, checkedAt);
    if w in s.workers {
      assert Exclusive(s, s.workers[w]);
      StopAfter(s, StepCheckLedger(cfg, s, w, checkedAt), w);
    }
  }

  lemma StartStop(s: State, w: nat, chat: string, now: int)
    requires StopInv(s)
    ensures StopInv(StepStart(s, w, chat, now))
  {
    StepStartInv(s, w, chat, now);
    if w in s.workers {
      assert Exclusive(s, s.workers[w]);
      ExclusiveAfter(s, StepStart(s, w, chat, now), w);
      BegunIsNoSuccess(s.ledger, s.row.attemptCount + 1);
    }
  }

  lemma BegunIsNoSuccess(ledger: Ledger, n: nat)
    requires n !in ledger
    ensures forall k :: IsSucceeded(ledger[n := Attempt(None, None, None)], k) <==> IsSucceeded(ledger, k)
  {
  }

  lemma SendStop(s: State, w: nat, answer: Answer, accepted: bool)
    requires StopInv(s)
    ensures StopInv(StepSend(s, w, answer, accepted))
  {
    StepSendInv(s, w, answer, accepted);
    if w in s.workers {
      assert Exclusive(s, s.workers[w]);
      StopAfter(s, StepSend(s, w, answer, accepted), w);
    }
  }

  /** The one attempt that was open succeeds: no other has, the row having had no identifier. */
  lemma CommitIsOneSuccess(s: State, t: State, attempt: nat, id: string)
    requires StopInv(s) && s.row.status == Processing && attempt in s.ledger
    requires t.ledger == s.ledger[attempt := Attempt(Some(AttemptSucceeded), Some(id), None)]
    requires t.row.providerMessageId == Some(id)
    ensures OneSuccess(t)
  {
    NoneSucceededYet(s);
    assert IsSucceeded(t.ledger, attempt);
    assert forall k :: k != attempt ==> (IsSucceeded(t.ledger, k) <==> IsSucceeded(s.ledger, k));
  }

  lemma NoneSucceededYet(s: State)
    requires Inv(s) && s.row.status == Processing
    ensures forall k :: !IsSucceeded(s.ledger, k)
  {
  }

  lemma CommitSentStop(s: State, w: nat, now: int)
    requires StopInv(s)
    ensures StopInv(StepCommitSent(s, w, now))
  {
    StepCommitSentInv(s, w, now);
    var t := StepCommitSent(s, w, now);
    if t != s {
      assert Exclusive(s, s.workers[w]);
      if t.row == s.row {
        StopAfter(s, t, w);
      } else {
        ExclusiveAfter(s, t, w);
        CommitIsOneSuccess(s, t, s.workers[w].attempt, s.workers[w].answer.providerMessageId);
      }
    }
  }

  /** Resolving the one unresolved attempt leaves none. */
  lemma UnknownStop(s: State, w: nat, policy: Policy)
    requires StopInv(s)
    ensures StopInv(StepRecordUnknown(s, w, policy))
  {
    StepResolveInv(s, w, policy);
    if w in s.workers {
      assert Exclusive(s, s.workers[w]);
      ExclusiveAfter(s, StepRecordUnknown(s, w, policy), w);
    }
  }

  lemma RefusalStop(s: State, w: nat)
    requires StopInv(s)
    ensures StopInv(StepRecordRefusal(s, w))
  {
    StepResolveInv(s, w, RetryUnknown);
    if w in s.workers {
      assert Exclusive(s, s.workers[w]);
      ExclusiveAfter(s, StepRecordRefusal(s, w), w);
    }
  }

  lemma ReapStop(cfg: Config, s: State, now: int)
    requires StopInv(s) && cfg.failStop
    ensures StopInv(StepReap(cfg, s, now))
  {
    StepReapInv(cfg, s, now);
    var t := StepReap(cfg, s, now);
    forall w | w in t.workers
      ensures Exclusive(t, t.workers[w])
    {
      assert Exclusive(s, s.workers[w]);
    }
  }

  lemma WriteCallbackStop(s: State, c: nat, now: int)
    requires StopInv(s)
    ensures StopInv(StepWriteCallback(s, c, now))
  {
    StepWriteCallbackInv(s, c, now);
    assert forall w | w in s.workers :: Exclusive(s, s.workers[w]);
  }

  lemma ConcludeStop(cfg: Config, s: State, w: nat, conclusion: Conclusion, now: int)
    requires StopInv(s)
    ensures StopInv(StepConclude(cfg, s, w, conclusion, now))
  {
    ConcludingMoves(cfg, At(s, w), conclusion, now);
    var changes := Concluding(cfg, At(s, w), conclusion, now);
    if changes.Some? { SettleStop(s, w, changes.value); }
  }

  lemma PrepareStop(cfg: Config, s: State, w: nat, preparation: Preparation)
    requires StopInv(s)
    ensures StopInv(StepPrepare(cfg, s, w, preparation))
  {
    match preparation
    case Claim(token) => ClaimStop(s, w, token);
    case CheckLedger(at) => CheckLedgerStop(cfg, s, w, at);
    case Arrive => ArriveStop(s, w);
    case Promote => PromoteStop(s, w);
  }

  lemma ArriveStop(s: State, w: nat)
    requires StopInv(s)
    ensures StopInv(StepArrive(s, w))
  {
    StepArriveInv(s, w);
    if StepArrive(s, w) != s { StopAfter(s, StepArrive(s, w), w); }
  }

  lemma PromoteStop(s: State, w: nat)
    requires StopInv(s)
    ensures StopInv(StepPromote(s, w))
  {
    StepPromoteInv(s, w);
    if StepPromote(s, w) != s { StopAfter(s, StepPromote(s, w), w); }
  }

  lemma DeliverStop(s: State, w: nat, delivering: Delivering)
    requires StopInv(s)
    ensures StopInv(StepDeliver(s, w, delivering))
  {
    match delivering
    case Start(chat, now) => StartStop(s, w, chat, now);
    case Send(answer, accepted) => SendStop(s, w, answer, accepted);
    case CommitSent(now) => CommitSentStop(s, w, now);
    case RecordUnknown(policy) => UnknownStop(s, w, policy);
    case RecordRefusal => RefusalStop(s, w);
  }

  lemma CrashStop(s: State, w: nat)
    requires StopInv(s)
    ensures StopInv(StepCrash(s, w))
  {
    StepCrashInv(s, w);
    StopAfter(s, StepCrash(s, w), w);
  }

  /** A row-only event keeps whoever holds the claim its holder. */
  lemma BystanderStop(s: State, t: State)
    requires StopInv(s) && Inv(t) && t.workers == s.workers && t.ledger == s.ledger
    requires t.row.claimToken == s.row.claimToken && t.row.providerMessageId == s.row.providerMessageId
    ensures StopInv(t)
  {
    assert forall w | w in s.workers :: Exclusive(s, s.workers[w]);
  }

  lemma OutsideStop(cfg: Config, s: State, event: Event)
    requires StopInv(s) && (event.Reap? ==> cfg.failStop)
    ensures StopInv(StepOutside(cfg, s, event))
  {
    match event
    case Reap(now) => ReapStop(cfg, s, now);
    case WriteCallback(c, now) => WriteCallbackStop(s, c, now);
    case Crash(w) => CrashStop(s, w);
    case Tick(d) => TickStop(s, d);
    case Cancel(expected, now) => CancelStop(s, expected, now);
    case CancelWaiting(now) => CancelWaitingStop(s, now);
    case ReadForCallback(c, incoming) => ReadForCallbackStop(s, c, incoming);
  }

  lemma TickStop(s: State, milliseconds: nat)
    requires StopInv(s)
    ensures StopInv(s.(clock := s.clock + milliseconds))
  {
    TickInv(s, milliseconds);
    BystanderStop(s, s.(clock := s.clock + milliseconds));
  }

  lemma CancelStop(s: State, expected: Status, now: int)
    requires StopInv(s)
    ensures StopInv(StepCancel(s, expected, now))
  {
    StepCancelInv(s, expected, now);
    BystanderStop(s, StepCancel(s, expected, now));
  }

  lemma CancelWaitingStop(s: State, now: int)
    requires StopInv(s)
    ensures StopInv(s.(row := CancelWaitingRow(s.row, now).GetOr(s.row)))
  {
    StepCancelWaitingInv(s, now);
    BystanderStop(s, s.(row := CancelWaitingRow(s.row, now).GetOr(s.row)));
  }

  lemma ReadForCallbackStop(s: State, c: nat, incoming: int)
    requires StopInv(s)
    ensures StopInv(StepReadForCallback(s, c, incoming))
  {
    StepReadForCallbackInv(s, c, incoming);
    BystanderStop(s, StepReadForCallback(s, c, incoming));
  }

  lemma StepStop(cfg: Config, s: State, a: Action)
    requires StopInv(s) && (a.Outside? && a.event.Reap? ==> cfg.failStop)
    ensures StopInv(Step(cfg, s, a))
  {
    match a
    case Prepare(w, preparation) => PrepareStop(cfg, s, w, preparation);
    case Deliver(w, delivering) => DeliverStop(s, w, delivering);
    case Conclude(w, conclusion, now) => ConcludeStop(cfg, s, w, conclusion, now);
    case Outside(event) => OutsideStop(cfg, s, event);
  }

  lemma {:induction false} RunStop(cfg: Config, s: State, actions: seq<Action>)
    requires StopInv(s) && cfg.failStop
    ensures StopInv(Run(cfg, s, actions))
    decreases |actions|
  {
    if actions != [] {
      StepStop(cfg, s, actions[0]);
      RunStop(cfg, Step(cfg, s, actions[0]), actions[1..]);
    }
  }

  /** The identifier on the row and the one SUCCEEDED row of the ledger come and stay together. */
  lemma IdentifierMatchesLedger(cfg: Config, row: Notification, clock: int, actions: seq<Action>)
    requires IsNew(row) && cfg.failStop
    ensures var s := Run(cfg, Initial(row, clock), actions);
            && (s.row.providerMessageId.Some? <==> exists k :: IsSucceeded(s.ledger, k))
            && (forall k, m :: IsSucceeded(s.ledger, k) && IsSucceeded(s.ledger, m) ==> k == m)
            && (forall k :: IsSucceeded(s.ledger, k) ==> s.ledger[k].providerMessageId == s.row.providerMessageId)
  {
    InitialInv(row, clock);
    RunStop(cfg, Initial(row, clock), actions);
  }

  // ----- failing closed -----

  /** The attempts WhatsApp may have acted on, as far as the ledger knows. */
  ghost function NotFailed(ledger: Ledger): set<nat> {
    set k | k in ledger && ledger[k].outcome != Some(AttemptFailed)
  }

  lemma NotFailedAfter(ledger: Ledger, k: nat, resolved: Attempt)
    requires IsUnresolved(ledger, k) && resolved.outcome.Some?
    ensures k in NotFailed(ledger)
    ensures NotFailed(Resolve(ledger, k, resolved))
            == if resolved.outcome == Some(AttemptFailed) then NotFailed(ledger) - {k} else NotFailed(ledger)
  {
  }

  lemma NotFailedBegun(ledger: Ledger, n: nat)
    requires n !in ledger
    ensures NotFailed(ledger[n := Attempt(None, None, None)]) == NotFailed(ledger) + {n}
  {
  }

  ghost predicate InWindow(s: State) {
    exists w | w in s.workers :: s.workers[w].UnknownRecorded?
  }

  ghost predicate ClosedInv(s: State) {
    && StopInv(s)
    && (forall w | w in s.workers :: s.workers[w].UnknownRecorded? ==> s.workers[w].policy == FailClosed)
    && |NotFailed(s.ledger)| <= 1 + s.lostWindows
    && (s.row.status !in {Sent, Delivered, Failed} && !HasUnresolved(s.ledger) && !InWindow(s)
        ==> |NotFailed(s.ledger)| <= s.lostWindows)
  }

  /** The policy read while recording an unknown outcome is to fail closed. */
  predicate FailsClosed(a: Action) {
    a.Deliver? && a.delivering.RecordUnknown? ==> a.delivering.policy == FailClosed
  }

  /** An engaged worker that is not in the window is proof that nobody is. */
  lemma NotInWindow(s: State, w: nat)
    requires StopInv(s) && w in s.workers && s.workers[w].Engaged() && !s.workers[w].UnknownRecorded?
    ensures !InWindow(s)
  {
    if v :| v in s.workers && s.workers[v].UnknownRecorded? {
      OnlyHolder(s, w, v);
    }
  }

  lemma SettleClosed(s: State, w: nat, changes: Changes)
    requires ClosedInv(s) && At(s, w).Engaged() && (changes.ToRetry? || changes.ToDeferred? || changes.ToFailed?)
    requires At(s, w).UnknownRecorded? || At(s, w).Claimed? || At(s, w).Begun? ==> changes.ToFailed?
    requires At(s, w).Clear? || At(s, w).RefusalRecorded? || changes.ToFailed?
    ensures ClosedInv(Settle(s, w, changes))
  {
    SettleStop(s, w, changes);
    assert Exclusive(s, s.workers[w]);
    if !changes.ToFailed? { NotInWindow(s, w); }
  }

  lemma StartClosed(s: State, w: nat, chat: string, now: int)
    requires ClosedInv(s)
    ensures ClosedInv(StepStart(s, w, chat, now))
  {
    StartStop(s, w, chat, now);
    var t := StepStart(s, w, chat, now);
    if At(s, w).Clear? && t != s {
      assert Exclusive(s, s.workers[w]);
      NotInWindow(s, w);
      var n := s.row.attemptCount + 1;
      assert IsUnresolved(t.ledger, n);
      NotFailedBegun(s.ledger, n);
    }
  }

  lemma CommitSentClosed(s: State, w: nat, now: int)
    requires ClosedInv(s)
    ensures ClosedInv(StepCommitSent(s, w, now))
  {
    CommitSentStop(s, w, now);
    var t := StepCommitSent(s, w, now);
    if t != s {
      assert Exclusive(s, s.workers[w]);
      NotInWindow(s, w);
      NotFailedAfter(s.ledger, s.workers[w].attempt, Attempt(Some(AttemptSucceeded), t.row.providerMessageId, None));
    }
  }

  lemma UnknownClosed(s: State, w: nat)
    requires ClosedInv(s)
    ensures ClosedInv(StepRecordUnknown(s, w, FailClosed))
  {
    UnknownStop(s, w, FailClosed);
    var t := StepRecordUnknown(s, w, FailClosed);
    if t != s {
      assert Exclusive(s, s.workers[w]);
      assert t.workers[w].UnknownRecorded?;
      assert InWindow(t);
      NotFailedAfter(s.ledger, s.workers[w].attempt, t.ledger[s.workers[w].attempt]);
    }
  }

  lemma RefusalClosed(s: State, w: nat)
    requires ClosedInv(s)
    ensures ClosedInv(StepRecordRefusal(s, w))
  {
    RefusalStop(s, w);
    var t := StepRecordRefusal(s, w);
    if t != s {
      assert Exclusive(s, s.workers[w]);
      NotFailedAfter(s.ledger, s.workers[w].attempt, t.ledger[s.workers[w].attempt]);
    }
  }

  lemma CrashClosed(cfg: Config, s: State, w: nat)
    requires ClosedInv(s) && cfg.failStop
    ensures ClosedInv(StepCrash(s, w))
  {
    var t := StepCrash(s, w);
    OutsideStop(cfg, s, Crash(w));
    assert t.ledger == s.ledger && t.row == s.row;
    if At(s, w).UnknownRecorded? {
      assert t.lostWindows == s.lostWindows + 1;
    } else {
      SameWindow(s, t, w);
    }
  }

  lemma ReapClosed(cfg: Config, s: State, now: int)
    requires ClosedInv(s) && cfg.failStop
    ensures ClosedInv(StepReap(cfg, s, now))
  {
    ReapStop(cfg, s, now);
    var t := StepReap(cfg, s, now);
    if t != s && InWindow(s) {
      var w :| w in s.workers && s.workers[w].UnknownRecorded?;
      assert Exclusive(s, s.workers[w]);
      assert Holds(s.workers[w], s.row.claimToken);
    }
  }

  /** The window is as it was when the same workers stand in it. */
  lemma SameWindow(s: State, t: State, w: nat)
    requires forall v | v != w :: v in s.workers <==> v in t.workers
    requires forall v | v in t.workers && v != w :: v in s.workers && t.workers[v] == s.workers[v]
    requires !At(s, w).UnknownRecorded? && !At(t, w).UnknownRecorded?
    ensures InWindow(s) <==> InWindow(t)
  {
    if InWindow(s) {
      var v :| v in s.workers && s.workers[v].UnknownRecorded?;
      assert t.workers[v].UnknownRecorded?;
    }
    if InWindow(t) {
      var v :| v in t.workers && t.workers[v].UnknownRecorded?;
      assert s.workers[v].UnknownRecorded?;
    }
  }

  /** A step that leaves the ledger alone, reopens no row and keeps clear of the window. */
  lemma ClosedFrame(s: State, t: State, w: nat)
    requires ClosedInv(s) && StopInv(t) && t.ledger == s.ledger && t.lostWindows == s.lostWindows
    requires forall v | v != w :: v in s.workers <==> v in t.workers
    requires forall v | v in t.workers && v != w :: v in s.workers && t.workers[v] == s.workers[v]
    requires !At(s, w).UnknownRecorded? && !At(t, w).UnknownRecorded?
    requires s.row.status in {Sent, Delivered, Failed} ==> t.row.status in {Sent, Delivered, Failed}
    ensures ClosedInv(t)
  {
    SameWindow(s, t, w);
  }

  lemma SendClosed(s: State, w: nat, answer: Answer, accepted: bool)
    requires ClosedInv(s)
    ensures ClosedInv(StepSend(s, w, answer, accepted))
  {
    SendStop(s, w, answer, accepted);
    if StepSend(s, w, answer, accepted) != s { ClosedFrame(s, StepSend(s, w, answer, accepted), w); }
  }

  lemma ArriveClosed(s: State, w: nat)
    requires ClosedInv(s)
    ensures ClosedInv(StepArrive(s, w))
  {
    ArriveStop(s, w);
    if At(s, w).Idle? { ClosedFrame(s, StepArrive(s, w), w); }
  }

  lemma PromoteClosed(s: State, w: nat)
    requires ClosedInv(s)
    ensures ClosedInv(StepPromote(s, w))
  {
    PromoteStop(s, w);
    if At(s, w).Arrived? { ClosedFrame(s, StepPromote(s, w), w); }
  }

  lemma ClaimClosed(s: State, w: nat, token: Token)
    requires ClosedInv(s)
    ensures ClosedInv(StepClaim(s, w, token))
  {
    ClaimStop(s, w, token);
    if StepClaim(s, w, token) != s { ClosedFrame(s, StepClaim(s, w, token), w); }
  }

  lemma CheckLedgerClosed(cfg: Config, s: State, w: nat, checkedAt: int)
    requires ClosedInv(s)
    ensures ClosedInv(StepCheckLedger(cfg, s, w, checkedAt))
  {
    CheckLedgerStop(cfg, s, w, checkedAt);
    if StepCheckLedger(cfg, s, w, checkedAt) != s { ClosedFrame(s, StepCheckLedger(cfg, s, w, checkedAt), w); }
  }

  lemma PrepareClosed(cfg: Config, s: State, w: nat, preparation: Preparation)
    requires ClosedInv(s)
    ensures ClosedInv(StepPrepare(cfg, s, w, preparation))
  {
    match preparation
    case Arrive => ArriveClosed(s, w);
    case Promote => PromoteClosed(s, w);
    case Claim(token) => ClaimClosed(s, w, token);
    case CheckLedger(checkedAt) => CheckLedgerClosed(cfg, s, w, checkedAt);
  }

  lemma DeliverClosed(s: State, w: nat, delivering: Delivering)
    requires ClosedInv(s) && FailsClosed(Deliver(w, delivering))
    ensures ClosedInv(StepDeliver(s, w, delivering))
  {
    match delivering
    case Start(chat, now) => StartClosed(s, w, chat, now);
    case Send(answer, accepted) => SendClosed(s, w, answer, accepted);
    case CommitSent(now) => CommitSentClosed(s, w, now);
    case RecordUnknown(policy) => UnknownClosed(s, w);
    case RecordRefusal => RefusalClosed(s, w);
  }

  lemma ConcludeClosed(cfg: Config, s: State, w: nat, conclusion: Conclusion, now: int)
    requires ClosedInv(s)
    ensures ClosedInv(StepConclude(cfg, s, w, conclusion, now))
  {
    ConcludingMoves(cfg, At(s, w), conclusion, now);
    var changes := Concluding(cfg, At(s, w), conclusion, now);
    if changes.Some? { SettleClosed(s, w, changes.value); }
  }

  /** A row-only step takes no row out of SENT, DELIVERED or FAILED, and moves no worker. */
  lemma BystanderClosed(s: State, t: State)
    requires ClosedInv(s) && StopInv(t) && t.ledger == s.ledger && t.lostWindows == s.lostWindows
    requires t.workers == s.workers
    requires s.row.status in {Sent, Delivered, Failed} ==> t.row.status in {Sent, Delivered, Failed}
    ensures ClosedInv(t)
  {
  }

  lemma EventIsBystander(cfg: Config, s: State, event: Event)
    requires Inv(s) && !event.Crash? && !event.Reap?
    ensures var t := StepOutside(cfg, s, event);
            && t.ledger == s.ledger && t.lostWindows == s.lostWindows && t.workers == s.workers
            && (s.row.status in {Sent, Delivered, Failed} ==> t.row.status in {Sent, Delivered, Failed})
  {
    EventFollowsTable(cfg, s, event);
  }

  lemma OutsideClosed(cfg: Config, s: State, event: Event)
    requires ClosedInv(s) && cfg.failStop
    ensures ClosedInv(StepOutside(cfg, s, event))
  {
    match event
    case Crash(w) => CrashClosed(cfg, s, w);
    case Reap(now) => ReapClosed(cfg, s, now);
    case _ =>
      OutsideStop(cfg, s, event);
      EventIsBystander(cfg, s, event);
      BystanderClosed(s, StepOutside(cfg, s, event));
  }

  lemma StepClosed(cfg: Config, s: State, a: Action)
    requires ClosedInv(s) && cfg.failStop && FailsClosed(a)
    ensures ClosedInv(Step(cfg, s, a))
  {
    match a
    case Prepare(w, preparation) => PrepareClosed(cfg, s, w, preparation);
    case Deliver(w, delivering) => DeliverClosed(s, w, delivering);
    case Conclude(w, conclusion, now) => ConcludeClosed(cfg, s, w, conclusion, now);
    case Outside(event) => OutsideClosed(cfg, s, event);
  }

  lemma {:induction false} RunClosed(cfg: Config, s: State, actions: seq<Action>)
    requires ClosedInv(s) && cfg.failStop && forall i :: 0 <= i < |actions| ==> FailsClosed(actions[i])
    ensures ClosedInv(Run(cfg, s, actions))
    decreases |actions|
  {
    if actions != [] {
      StepClosed(cfg, s, actions[0]);
      RunClosed(cfg, Step(cfg, s, actions[0]), actions[1..]);
    }
  }

  /** How many copies of the message WhatsApp accepted. */
  function Copies(calls: seq<Call>): nat {
    if calls == [] then 0
    else Copies(calls[..|calls| - 1]) + if calls[|calls| - 1].accepted then 1 else 0
  }

  lemma {:induction false} CopiesFit(calls: seq<Call>, attempts: set<nat>)
    requires forall i, j :: 0 <= i < j < |calls| ==> calls[i].attempt != calls[j].attempt
    requires forall i :: 0 <= i < |calls| && calls[i].accepted ==> calls[i].attempt in attempts
    ensures Copies(calls) <= |attempts|
  {
    if calls != [] {
      var last := calls[|calls| - 1];
      CopiesFit(calls[..|calls| - 1], if last.accepted then attempts - {last.attempt} else attempts);
    }
  }

  /**
   * Under a policy of failing closed and with fail-stop workers, WhatsApp accepts
   * at most one copy more than the dispatches cut off between the UNKNOWN write
   * and the FAILED commit: one copy in all when there was no such cut.
   */
  lemma FailClosedSendsOnce(cfg: Config, row: Notification, clock: int, actions: seq<Action>)
    requires IsNew(row) && cfg.failStop && forall i :: 0 <= i < |actions| ==> FailsClosed(actions[i])
    ensures var s := Run(cfg, Initial(row, clock), actions);
            && Copies(s.calls) <= 1 + s.lostWindows
            && (s.lostWindows == 0 ==> Copies(s.calls) <= 1)
  {
    InitialInv(row, clock);
    var start := Initial(row, clock);
    assert NotFailed(start.ledger) == {};
    RunClosed(cfg, start, actions);
    var s := Run(cfg, start, actions);
    forall i | 0 <= i < |s.calls| && s.calls[i].accepted
      ensures s.calls[i].attempt in NotFailed(s.ledger)
    {
      AcceptedNotRefused(s, i);
    }
    CopiesFit(s.calls, NotFailed(s.ledger));
  }

  // ----- without fail-stop -----

  /** Wherever a claim is reaped, the worker that took it is no longer inside its dispatch. */
  ghost predicate ReapsOnlyTheDead(cfg: Config, s: State, actions: seq<Action>)
    decreases |actions|
  {
    actions == [] ||
    ((actions[0].Outside? && actions[0].event.Reap? ==> forall w :: w in s.workers ==>
      !Holds(s.workers[w], s.row.claimToken))
     && ReapsOnlyTheDead(cfg, Step(cfg, s, actions[0]), actions[1..]))
  }

  lemma ReapOfTheDead(cfg: Config, s: State, now: int)
    requires forall w :: w in s.workers ==> !Holds(s.workers[w], s.row.claimToken)
    ensures StepReap(cfg.(failStop := true), s, now) == StepReap(cfg, s, now)
  {
    assert StopHolder(s, s.row.claimToken).workers == s.workers;
  }

  /** Such a run is a fail-stop run, whatever the workers would have done. */
  lemma {:induction false} FailStopAgrees(cfg: Config, s: State, actions: seq<Action>)
    requires ReapsOnlyTheDead(cfg, s, actions)
    ensures Run(cfg.(failStop := true), s, actions) == Run(cfg, s, actions)
    decreases |actions|
  {
    if actions != [] {
      match actions[0] {
        case Outside(Reap(now)) => ReapOfTheDead(cfg, s, now);
        case _ => OnlyReapsDiffer(cfg, s, actions[0]);
      }
      FailStopAgrees(cfg, Step(cfg, s, actions[0]), actions[1..]);
    }
  }

  lemma OnlyReapsDiffer(cfg: Config, s: State, a: Action)
    requires !(a.Outside? && a.event.Reap?)
    ensures Step(cfg.(failStop := true), s, a) == Step(cfg, s, a)
  {
    match a
    case Prepare(w, preparation) =>
      assert StepPrepare(cfg.(failStop := true), s, w, preparation) == StepPrepare(cfg, s, w, preparation);
    case Deliver(w, delivering) =>
    case Conclude(w, conclusion, now) =>
      assert Concluding(cfg.(failStop := true), At(s, w), conclusion, now)
        == Concluding(cfg, At(s, w), conclusion, now);
    case Outside(event) =>
  }

  /** So one copy goes out at most, and the identifier stands by its SUCCEEDED row, if crashes come before reaps. */
  lemma DeadReapsSendOnce(cfg: Config, row: Notification, clock: int, actions: seq<Action>)
    requires IsNew(row) && ReapsOnlyTheDead(cfg, Initial(row, clock), actions)
    ensures var s := Run(cfg, Initial(row, clock), actions);
            && ((forall i :: 0 <= i < |actions| ==> FailsClosed(actions[i])) ==> Copies(s.calls) <= 1 + s.lostWindows)
            && (s.row.providerMessageId.Some? <==> exists k :: IsSucceeded(s.ledger, k))
  {
    FailStopAgrees(cfg, Initial(row, clock), actions);
    IdentifierMatchesLedger(cfg.(failStop := true), row, clock, actions);
    if forall i :: 0 <= i < |actions| ==> FailsClosed(actions[i]) {
      FailClosedSendsOnce(cfg.(failStop := true), row, clock, actions);
    }
  }
}
