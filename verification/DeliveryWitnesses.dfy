/** Runs that show which hypotheses the delivery results cannot do without. */
module DeliveryWitnesses {
  import opened Wrappers
  import opened Lifecycle
  import opened Failures
  import opened Retry
  import opened Rows
  import opened Acknowledgements
  import opened Delivery
  import opened FailStop

  lemma {:induction false} RunAppend(cfg: Config, s: State, actions: seq<Action>, last: Action)
    ensures Run(cfg, s, actions + [last]) == Step(cfg, Run(cfg, s, actions), last)
    decreases |actions|
  {
    if actions == [] {
      assert (actions + [last])[1..] == [];
    } else {
      assert (actions + [last])[1..] == actions[1..] + [last];
      RunAppend(cfg, Step(cfg, s, actions[0]), actions[1..], last);
    }
  }

  /** A run as it is built: the labels so far and the state they lead to. */
  datatype Trace = Trace(start: State, actions: seq<Action>, state: State)

  ghost predicate Follows(cfg: Config, trace: Trace) {
    Run(cfg, trace.start, trace.actions) == trace.state
  }

  lemma Then(cfg: Config, trace: Trace, a: Action) returns (next: Trace)
    requires Follows(cfg, trace)
    ensures Follows(cfg, next) && next.start == trace.start && next.actions == trace.actions + [a]
    ensures next.state == Step(cfg, trace.state, a)
  {
    RunAppend(cfg, trace.start, trace.actions, a);
    next := Trace(trace.start, trace.actions + [a], Step(cfg, trace.state, a));
  }

  /** Worker `w` arrives, claims with `token`, and looks at the ledger. */
  lemma ClaimAndCheck(cfg: Config, trace: Trace, w: nat, token: Token) returns (next: Trace)
    requires Follows(cfg, trace) && At(trace.state, w).Idle? && token !in trace.state.usedTokens
    requires IsClaimable(trace.state.row, trace.state.clock)
    requires trace.state.clock - trace.state.row.DueSince() <= cfg.windowMs
    ensures Follows(cfg, next) && next.start == trace.start
    ensures next.actions == trace.actions + [Prepare(w, Arrive), Prepare(w, Promote), Prepare(w, Claim(token)),
                                             Prepare(w, CheckLedger(trace.state.clock))]
    ensures var s, t := trace.state, next.state;
            var claimed := s.row.(status := Processing, claimToken := Some(token), claimedAt := Some(s.clock));
            t == s.(row := claimed, usedTokens := s.usedTokens + {token}, claimTimes := s.claimTimes + [s.clock],
                    workers := s.workers[w :=
                      if HasUnresolved(s.ledger) then Interrupted(token, claimed, s.clock, FirstUnresolved(s.ledger))
                      else Clear(token, claimed, s.clock)])
  {
    next := Then(cfg, trace, Prepare(w, Arrive));
    next := Then(cfg, next, Prepare(w, Promote));
    assert At(next.state, w) == ReadyToClaim(trace.state.clock) && next.state.row == trace.state.row;
    next := Then(cfg, next, Prepare(w, Claim(token)));
    next := Then(cfg, next, Prepare(w, CheckLedger(trace.state.clock)));
  }

  lemma CopiesOfTwo(calls: seq<Call>)
    requires |calls| == 2 && calls[0].accepted && calls[1].accepted
    ensures Copies(calls) == 2
  {
    assert calls[..1] == [calls[0]] && [calls[0]][..0] == [];
    assert Copies([calls[0]]) == 1;
  }

  const TIMEOUT := ProviderFailure(ProviderTimeout, None, None)
  const SERVER_ERROR := ProviderFailure(ProviderServerError, None, None)

  function Fresh(maximumAttempts: nat): Notification {
    NewNotification(0, None, maximumAttempts)
  }

  /** Claim, begin attempt `n` and have the provider answer it. */
  lemma SendOne(cfg: Config, trace: Trace, w: nat, token: Token, answer: Answer, accepted: bool) returns (next: Trace)
    requires Follows(cfg, trace) && At(trace.state, w).Idle? && token !in trace.state.usedTokens
    requires IsClaimable(trace.state.row, trace.state.clock) && !HasUnresolved(trace.state.ledger)
    requires trace.state.clock - trace.state.row.DueSince() <= cfg.windowMs
    requires IsPossible(answer, accepted) && trace.state.row.attemptCount < trace.state.row.maximumAttempts
    requires trace.state.row.attemptCount + 1 !in trace.state.ledger
    ensures Follows(cfg, next) && next.start == trace.start
    ensures trace.actions <= next.actions
    ensures forall i :: |trace.actions| <= i < |next.actions| ==>
              FailsClosed(next.actions[i]) && !next.actions[i].Outside?
    ensures var s, t := trace.state, next.state;
            var n := s.row.attemptCount + 1;
            var claimed := s.row.(status := Processing, claimToken := Some(token), claimedAt := Some(s.clock));
            && t.row == claimed.(attemptCount := n, recipientChat := Some("chat"))
            && t.ledger == s.ledger[n := Attempt(None, None, None)]
            && t.workers == s.workers[w := Answered(token, claimed, s.clock, n, "chat", answer)]
            && t.calls == s.calls + [Call(n, accepted, answer)]
            && t.usedTokens == s.usedTokens + {token}
            && t.clock == s.clock && t.lostWindows == s.lostWindows && t.callbacks == s.callbacks
  {
    next := ClaimAndCheck(cfg, trace, w, token);
    next := Then(cfg, next, Deliver(w, Start("chat", trace.state.clock)));
    next := Then(cfg, next, Deliver(w, Send(answer, accepted)));
  }

  /** The only engaged worker crashes, and its claim is reaped. */
  lemma LoseClaim(cfg: Config, trace: Trace, w: nat) returns (next: Trace)
    requires Follows(cfg, trace) && w in trace.state.workers && trace.state.row.status == Processing
    requires forall v | v in trace.state.workers && v != w :: trace.state.workers[v].Idle?
    ensures Follows(cfg, next) && next.start == trace.start
    ensures next.actions == trace.actions + [Outside(Crash(w)), Outside(Reap(trace.state.clock))]
    ensures var s, t := trace.state, next.state;
            && t.row == s.row.(status := Retrying, nextAttemptAt := Some(s.clock), claimToken := None,
                               claimedAt := None)
            && t.ledger == s.ledger && t.calls == s.calls && t.clock == s.clock && t.usedTokens == s.usedTokens
            && t.lostWindows == s.lostWindows + (if s.workers[w].UnknownRecorded? then 1 else 0)
            && forall v :: At(t, v).Idle?
  {
    next := Then(cfg, trace, Outside(Crash(w)));
    next := Then(cfg, next, Outside(Reap(trace.state.clock)));
  }

  /** Accepted without an answer and recorded UNKNOWN; the notification has yet to fail. */
  lemma StandInWindow(cfg: Config) returns (trace: Trace)
    ensures Follows(cfg, trace) && trace.start == Initial(Fresh(5), 0)
    ensures forall i :: 0 <= i < |trace.actions| ==> FailsClosed(trace.actions[i])
    ensures var s := trace.state;
            && s.row.status == Processing && s.row.DueSince() == 0
            && s.row.attemptCount == 1 && s.row.maximumAttempts == 5 && s.clock == 0 && s.usedTokens == {1}
            && s.ledger == map[1 := Attempt(Some(AttemptUnknown), None, Some(ProviderTimeout))]
            && |s.calls| == 1 && s.calls[0].accepted && s.lostWindows == 0
            && s.workers.Keys == {1} && s.workers[1].UnknownRecorded?
  {
    var start := Initial(Fresh(5), 0);
    trace := Trace(start, [], start);
    trace := SendOne(cfg, trace, 1, 1, Rejected(TIMEOUT), true);
    trace := Then(cfg, trace, Deliver(1, RecordUnknown(FailClosed)));
    assert trace.state.ledger == map[1 := Attempt(Some(AttemptUnknown), None, Some(ProviderTimeout))];
  }

  /** And then cut off before FAILED. */
  lemma CutOffInWindow(cfg: Config) returns (trace: Trace)
    ensures Follows(cfg, trace) && trace.start == Initial(Fresh(5), 0)
    ensures forall i :: 0 <= i < |trace.actions| ==> FailsClosed(trace.actions[i])
    ensures var s := trace.state;
            && s.row.status == Retrying && s.row.nextAttemptAt == Some(0) && s.row.DueSince() == 0
            && s.row.attemptCount == 1 && s.row.maximumAttempts == 5 && s.clock == 0 && s.usedTokens == {1}
            && s.ledger == map[1 := Attempt(Some(AttemptUnknown), None, Some(ProviderTimeout))]
            && |s.calls| == 1 && s.calls[0].accepted && s.lostWindows == 1
            && forall v :: At(s, v).Idle?
  {
    trace := StandInWindow(cfg);
    trace := LoseClaim(cfg, trace, 1);
  }

  /**
   * A crash between the UNKNOWN write and the FAILED commit: the next dispatch
   * finds nothing unresolved and sends again, although the tenant fails closed
   * and no worker was stale. Two copies, one lost window.
   */
  lemma CrashInWindowSendsTwice(cfg: Config) returns (actions: seq<Action>)
    requires cfg.failStop
    ensures forall i :: 0 <= i < |actions| ==> FailsClosed(actions[i])
    ensures var s := Run(cfg, Initial(Fresh(5), 0), actions);
            Copies(s.calls) == 2 && s.lostWindows == 1
  {
    var trace := CutOffInWindow(cfg);
    trace := SendOne(cfg, trace, 2, 2, Accepted("second"), true);
    CopiesOfTwo(trace.state.calls);
    actions := trace.actions;
  }

  /**
   * A worker that goes on after its claim was reaped: it commits SENT on the row
   * another worker has claimed, and that worker's UNKNOWN write then overwrites
   * SUCCEEDED. The row carries an identifier that no ledger row records.
   */
  lemma StaleWorkerHidesSuccess(cfg: Config) returns (actions: seq<Action>)
    requires !cfg.failStop
    ensures var s := Run(cfg, Initial(Fresh(5), 0), actions);
            && s.row.status == Sent && s.row.providerMessageId.Some?
            && forall k | k in s.ledger :: s.ledger[k].outcome == Some(AttemptUnknown)
  {
    var start := Initial(Fresh(5), 0);
    var trace := Trace(start, [], start);
    trace := SendOne(cfg, trace, 1, 1, Accepted("first"), true);
    trace := Then(cfg, trace, Outside(Reap(0)));
    assert At(trace.state, 1).Answered? && IsUnresolved(trace.state.ledger, 1);
    trace := ClaimAndCheck(cfg, trace, 2, 2);
    assert At(trace.state, 2).Interrupted? && At(trace.state, 2).attempt == 1;
    trace := Then(cfg, trace, Deliver(1, CommitSent(0)));
    assert trace.state.ledger == map[1 := Attempt(Some(AttemptSucceeded), Some("first"), None)];
    trace := HideOutcome(cfg, trace);
    actions := trace.actions;
  }

  lemma HideOutcome(cfg: Config, trace: Trace) returns (next: Trace)
    requires Follows(cfg, trace) && At(trace.state, 2).Interrupted? && At(trace.state, 2).attempt == 1
    requires trace.state.ledger.Keys == {1}
    ensures Follows(cfg, next) && next.start == trace.start && next.state.row == trace.state.row
    ensures forall k | k in next.state.ledger :: next.state.ledger[k].outcome == Some(AttemptUnknown)
  {
    next := Then(cfg, trace, Deliver(2, RecordUnknown(RetryUnknown)));
  }

  /** Refused once and recorded so, and then cut off before the notification could fail. */
  lemma CutOffAfterRefusal(cfg: Config) returns (trace: Trace)
    ensures Follows(cfg, trace) && trace.start == Initial(Fresh(1), 0)
    ensures var s := trace.state;
            && s.row.status == Retrying && s.row.nextAttemptAt == Some(0) && s.row.DueSince() == 0
            && s.row.attemptCount == 1 && s.row.maximumAttempts == 1 && s.clock == 0 && s.usedTokens == {1}
            && s.ledger == map[1 := Attempt(Some(AttemptFailed), None, Some(ProviderServerError))]
            && |s.calls| == 1 && forall v :: At(s, v).Idle?
  {
    var start := Initial(Fresh(1), 0);
    trace := Trace(start, [], start);
    trace := SendOne(cfg, trace, 1, 1, Rejected(SERVER_ERROR), false);
    trace := Then(cfg, trace, Deliver(1, RecordRefusal));
    assert At(trace.state, 1).RefusalRecorded? && trace.state.row.status == Processing;
    assert trace.state.ledger == map[1 := Attempt(Some(AttemptFailed), None, Some(ProviderServerError))];
    trace := LoseClaim(cfg, trace, 1);
  }

  /** The attempt count passes the maximum when a dispatch dies before failing the notification; the sends do not. */
  lemma AttemptCountPassesMaximum(cfg: Config) returns (actions: seq<Action>)
    ensures var s := Run(cfg, Initial(Fresh(1), 0), actions);
            s.row.attemptCount == 2 > s.row.maximumAttempts && |s.calls| == 1
  {
    var trace := CutOffAfterRefusal(cfg);
    trace := ClaimAndCheck(cfg, trace, 2, 2);
    trace := Then(cfg, trace, Deliver(2, Start("chat", 0)));
    actions := trace.actions;
  }

  const SESSION_GONE := ProviderFailure(SessionMissing, None, Some(404))

  /** The only attempt, refused because the provider had lost the session. */
  lemma RefuseForSession(cfg: Config) returns (trace: Trace)
    ensures Follows(cfg, trace) && trace.start == Initial(Fresh(1), 0)
    ensures forall i :: 0 <= i < |trace.actions| ==> !trace.actions[i].Outside?
    ensures var s := trace.state;
            var claimed := Fresh(1).(status := Processing, claimToken := Some(1), claimedAt := Some(0));
            && s.row == claimed.(attemptCount := 1, recipientChat := Some("chat"))
            && s.clock == 0 && s.usedTokens == {1} && |s.calls| == 1
            && s.ledger == map[1 := Attempt(Some(AttemptFailed), None, Some(SessionMissing))]
            && s.workers == map[1 := RefusalRecorded(1, claimed, 0, 1, SESSION_GONE)]
  {
    var start := Initial(Fresh(1), 0);
    trace := Trace(start, [], start);
    trace := SendOne(cfg, trace, 1, 1, Rejected(SESSION_GONE), false);
    trace := Then(cfg, trace, Deliver(1, RecordRefusal));
    assert trace.state.ledger == map[1 := Attempt(Some(AttemptFailed), None, Some(SessionMissing))];
  }

  lemma SessionIsAwaited(cfg: Config, snapshot: Notification)
    requires snapshot.attemptCount == 0 && snapshot.DueSince() == 0 && snapshot.failureCode.None?
    ensures DrawAllowed(snapshot, None, 0)
    ensures DecideRefusal(cfg, snapshot, 1, SESSION_GONE, 0, 0, 0) == ToRetry(300_000, SessionNotReady)
  {
    CappedDelayClosedForm(1);
  }

  /** The dispatch that met this puts the notification back. */
  lemma AwaitSession(cfg: Config) returns (trace: Trace)
    ensures Follows(cfg, trace) && trace.start == Initial(Fresh(1), 0)
    ensures forall i :: 0 <= i < |trace.actions| ==> !trace.actions[i].Outside?
    ensures var s := trace.state;
            && s.row.status == Retrying && s.row.nextAttemptAt == Some(300_000) && s.row.DueSince() == 0
            && s.row.attemptCount == 1 && s.row.maximumAttempts == 1 && s.clock == 0 && s.usedTokens == {1}
            && s.ledger == map[1 := Attempt(Some(AttemptFailed), None, Some(SessionMissing))]
            && |s.calls| == 1 && forall v :: At(s, v).Idle?
  {
    trace := RefuseForSession(cfg);
    var waiting := Conclude(1, FinishRefusal(0, 0), 0);
    SessionIsAwaited(cfg, At(trace.state, 1).snapshot);
    assert Concluding(cfg, At(trace.state, 1), waiting.conclusion, 0) == Some(ToRetry(300_000, SessionNotReady));
    trace := Then(cfg, trace, waiting);
  }

  /**
   * Nor does it take a crash or a reap: a refusal for a session the provider has lost puts the
   * notification back before the budget is looked at, and the next dispatch counts once more.
   */
  lemma LostSessionPassesMaximum(cfg: Config) returns (actions: seq<Action>)
    requires cfg.windowMs >= 300_000
    ensures forall i :: 0 <= i < |actions| && actions[i].Outside? ==> actions[i].event.Tick?
    ensures var s := Run(cfg, Initial(Fresh(1), 0), actions);
            s.row.attemptCount == 2 > s.row.maximumAttempts && |s.calls| == 1
  {
    var trace := AwaitSession(cfg);
    var idle := trace.state;
    trace := Then(cfg, trace, Outside(Tick(300_000)));
    assert At(trace.state, 2) == At(idle, 2);
    trace := ClaimAndCheck(cfg, trace, 2, 2);
    trace := Then(cfg, trace, Deliver(2, Start("chat", 300_000)));
    actions := trace.actions;
  }

  /**
   * Failing closed without fail-stop: the claim is reaped while its worker stands between UNKNOWN
   * and FAILED. No window was lost, that worker goes on, and still two copies are accepted.
   */
  lemma StaleWorkerSendsTwice(cfg: Config) returns (actions: seq<Action>)
    requires !cfg.failStop
    ensures forall i :: 0 <= i < |actions| ==> FailsClosed(actions[i])
    ensures var s := Run(cfg, Initial(Fresh(5), 0), actions);
            Copies(s.calls) == 2 && s.lostWindows == 0
  {
    var trace := StandInWindow(cfg);
    trace := Then(cfg, trace, Outside(Reap(0)));
    trace := SendOne(cfg, trace, 2, 2, Accepted("second"), true);
    CopiesOfTwo(trace.state.calls);
    actions := trace.actions;
  }

  /**
   * A pacing slot that opens half a millisecond after it was asked for: the
   * deferral keeps only whole milliseconds, so the notification is due at once
   * and is claimed a second time at the very same instant.
   */
  lemma SlotWithinMillisecondReclaims(cfg: Config) returns (actions: seq<Action>)
    ensures Run(cfg, Initial(Fresh(5), 0), actions).claimTimes == [0, 0]
  {
    var start := Initial(Fresh(5), 0);
    var trace := Trace(start, [], start);
    trace := ClaimAndCheck(cfg, trace, 1, 1);
    trace := Then(cfg, trace, Conclude(1, Hinder(SlotTaken(500, 0), 0), 0));
    assert trace.state.row.status == Retrying && trace.state.row.nextAttemptAt == Some(0);
    trace := ClaimAndCheck(cfg, trace, 2, 2);
    actions := trace.actions;
  }

  lemma SentOne(cfg: Config) returns (trace: Trace)
    ensures Follows(cfg, trace) && trace.start == Initial(Fresh(5), 0)
    ensures trace.state.row.status == Sent && trace.state.row.acknowledgement == PENDING
    ensures trace.state.row.providerMessageId.Some? && trace.state.callbacks == map[]
  {
    var start := Initial(Fresh(5), 0);
    trace := Trace(start, [], start);
    trace := SendOne(cfg, trace, 1, 1, Accepted("first"), true);
    trace := Then(cfg, trace, Deliver(1, CommitSent(0)));
  }

  /** A sent notification that one callback has moved to DELIVERED. */
  lemma DeliverOne(cfg: Config) returns (trace: Trace)
    ensures Follows(cfg, trace) && trace.start == Initial(Fresh(5), 0)
    ensures trace.state.row.status == Delivered && trace.state.row.acknowledgement == DEVICE
    ensures trace.state.row.providerMessageId.Some? && trace.state.callbacks == map[]
  {
    trace := SentOne(cfg);
    trace := Then(cfg, trace, Outside(ReadForCallback(2, DEVICE)));
    trace := Then(cfg, trace, Outside(WriteCallback(2, 0)));
  }

  /**
   * Two callbacks for one notification handled at once: both read DEVICE, the
   * PLAYED one writes first and the READ one last, and PLAYED is lost.
   */
  lemma ConcurrentCallbacksLoseReceipt(cfg: Config) returns (before: seq<Action>, overlap: seq<Action>)
    ensures overlap == [Outside(ReadForCallback(3, READ)), Outside(ReadForCallback(4, PLAYED)),
                        Outside(WriteCallback(4, 0)), Outside(WriteCallback(3, 0))]
    ensures Run(cfg, Initial(Fresh(5), 0), before + overlap).row.acknowledgement == READ
  {
    var trace := DeliverOne(cfg);
    before := trace.actions;
    trace := Then(cfg, trace, Outside(ReadForCallback(3, READ)));
    trace := Then(cfg, trace, Outside(ReadForCallback(4, PLAYED)));
    trace := Then(cfg, trace, Outside(WriteCallback(4, 0)));
    assert trace.state.row.acknowledgement == PLAYED && trace.state.row.status == Delivered;
    trace := Then(cfg, trace, Outside(WriteCallback(3, 0)));
    overlap := trace.actions[|before|..];
    assert trace.actions == before + overlap;
  }
}
