/**
 * What holds in every run: any number of workers, crashes, duplicate jobs, reaps
 * that hit a claim still in use, and workers that go on after losing theirs.
 */
module DeliverySafety {
  import opened Wrappers
  import opened Lifecycle
  import opened Failures
  import opened Rows
  import opened Acknowledgements
  import opened Delivery

  /** A refusal the provider answered with, after which the message certainly was not sent. */
  predicate IsDefiniteRefusal(answer: Answer) {
    answer.Rejected? && !HasUnknownOutcome(answer.failure.code)
  }

  ghost predicate Refused(calls: seq<Call>, k: nat) {
    exists i :: 0 <= i < |calls| && calls[i].attempt == k && IsDefiniteRefusal(calls[i].answer)
  }

  /** The provider accepted a send and answered with this identifier. */
  ghost predicate Took(calls: seq<Call>, id: string) {
    exists i :: 0 <= i < |calls| && calls[i].accepted && calls[i].answer == Accepted(id)
  }

  ghost predicate AnsweredBy(calls: seq<Call>, k: nat, answer: Answer) {
    exists i :: 0 <= i < |calls| && calls[i].attempt == k && calls[i].answer == answer
  }

  /** Resolved as something after which a new attempt is defensible. */
  ghost predicate Excused(calls: seq<Call>, k: nat, attempt: Attempt) {
    || attempt.outcome == Some(AttemptUnknown)
    || (attempt.outcome == Some(AttemptFailed) && Refused(calls, k))
  }

  ghost predicate RowInv(s: State) {
    && (s.row.status == Processing <==> s.row.claimToken.Some?)
    && (s.row.status == Processing <==> s.row.claimedAt.Some?)
    && (s.row.claimToken.Some? ==> s.row.claimToken.value in s.usedTokens)
    && (s.row.status == Retrying ==> s.row.nextAttemptAt.Some?)
    && (s.row.status in {Sent, Delivered} ==> s.row.providerMessageId.Some?)
    && (s.row.providerMessageId.Some? ==> s.row.status in {Sent, Delivered, Failed})
    && (s.row.providerMessageId.Some? ==> Took(s.calls, s.row.providerMessageId.value))
    && s.row.maximumAttempts >= 1
  }

  ghost predicate LedgerInv(s: State) {
    && (forall k: nat :: k in s.ledger <==> 1 <= k <= s.row.attemptCount)
    && (forall k | k in s.ledger :: s.ledger[k].outcome.None? ==> k == s.row.attemptCount)
    && (forall k | k in s.ledger :: s.ledger[k].outcome == Some(AttemptSucceeded) ==> s.row.providerMessageId.Some?)
    && (forall k | k in s.ledger :: s.ledger[k].outcome == Some(AttemptFailed) ==> Refused(s.calls, k))
  }

  ghost predicate CallsInv(s: State) {
    && (forall i :: 0 <= i < |s.calls| ==>
          && 1 <= s.calls[i].attempt <= s.row.attemptCount && s.calls[i].attempt <= s.row.maximumAttempts
          && IsPossible(s.calls[i].answer, s.calls[i].accepted))
    && (forall i, j :: 0 <= i < j < |s.calls| ==> s.calls[i].attempt != s.calls[j].attempt)
  }

  ghost predicate BeginningInv(calls: seq<Call>, beginnings: seq<Ledger>, j: nat)
    requires j < |beginnings|
  {
    && (forall k: nat :: k in beginnings[j] <==> 1 <= k <= j)
    && (forall k | k in beginnings[j] :: Excused(calls, k, beginnings[j][k]))
  }

  ghost predicate BeginningsInv(s: State) {
    && |s.beginnings| == s.row.attemptCount
    && forall j: nat | j < |s.beginnings| :: BeginningInv(s.calls, s.beginnings, j)
  }

  ghost predicate WorkerInv(s: State, pc: Worker) {
    && (pc.Engaged() ==>
          && pc.token in s.usedTokens
          && pc.snapshot.maximumAttempts == s.row.maximumAttempts)
    && (pc.Clear? && s.row.claimToken == Some(pc.token) ==> !HasUnresolved(s.ledger))
    && (pc.Begun? || pc.Answered? || pc.UnknownRecorded? || pc.RefusalRecorded? || pc.Interrupted? ==>
          1 <= pc.attempt <= s.row.attemptCount)
    && (pc.Begun? ==> forall i :: 0 <= i < |s.calls| ==> s.calls[i].attempt != pc.attempt)
    && (pc.Answered? ==> AnsweredBy(s.calls, pc.attempt, pc.answer))
  }

  ghost predicate Apart(a: Worker, b: Worker) {
    && (a.Engaged() && b.Engaged() ==> a.token != b.token)
    && (a.Begun? && b.Begun? ==> a.attempt != b.attempt)
  }

  ghost predicate WorkersInv(s: State) {
    && (forall w | w in s.workers :: WorkerInv(s, s.workers[w]))
    && (forall v, w | v in s.workers && w in s.workers && v != w :: Apart(s.workers[v], s.workers[w]))
  }

  ghost predicate CallbacksInv(s: State) {
    forall c | c in s.callbacks :: s.callbacks[c].snapshot.status in {Sent, Delivered, Failed}
  }

  ghost predicate Inv(s: State) {
    RowInv(s) && LedgerInv(s) && CallsInv(s) && BeginningsInv(s) && WorkersInv(s) && CallbacksInv(s)
  }

  // ----- preservation, one step at a time -----

  lemma InitialInv(row: Notification, clock: int)
    requires IsNew(row)
    ensures Inv(Initial(row, clock))
  {
  }

  /** The row moved, and only in ways that leave the ledger, the calls and the workers' facts alone. */
  ghost predicate RowMoved(s: State, t: State) {
    && t.row.attemptCount == s.row.attemptCount && t.row.maximumAttempts == s.row.maximumAttempts
    && t.row.providerMessageId == s.row.providerMessageId
    && (t.row.claimToken == s.row.claimToken || t.row.claimToken == None || t.row.claimToken.value !in s.usedTokens)
    && t.ledger == s.ledger && t.calls == s.calls && t.beginnings == s.beginnings
    && t.usedTokens >= s.usedTokens
  }

  lemma WorkersAfter(s: State, t: State, w: nat)
    requires Inv(s) && RowMoved(s, t)
    requires forall v | v in t.workers && v != w :: v in s.workers && t.workers[v] == s.workers[v]
    requires w in t.workers ==> WorkerInv(t, t.workers[w])
    requires w in t.workers ==> forall v | v in s.workers && v != w :: Apart(s.workers[v], t.workers[w])
    ensures WorkersInv(t) && BeginningsInv(t)
  {
    forall v | v in t.workers
      ensures WorkerInv(t, t.workers[v])
    {
      if v != w {
        assert WorkerInv(s, s.workers[v]);
      }
    }
    forall v, u | v in t.workers && u in t.workers && v != u
      ensures Apart(t.workers[v], t.workers[u])
    {
      if v != w && u != w {
        assert Apart(s.workers[v], s.workers[u]);
      }
    }
    forall j: nat | j < |t.beginnings|
      ensures BeginningInv(t.calls, t.beginnings, j)
    {
      assert BeginningInv(s.calls, s.beginnings, j);
    }
  }

  /** A step of one worker, besides which only the row may have moved, in ways its own facts allow. */
  lemma InvAfter(s: State, t: State, w: nat)
    requires Inv(s) && RowMoved(s, t) && RowInv(t) && t.callbacks == s.callbacks
    requires forall v | v in t.workers && v != w :: v in s.workers && t.workers[v] == s.workers[v]
    requires w in t.workers ==> WorkerInv(t, t.workers[w])
    requires w in t.workers ==> forall v | v in s.workers && v != w :: Apart(s.workers[v], t.workers[w])
    ensures Inv(t)
  {
    WorkersAfter(s, t, w);
  }

  lemma SettleInv(s: State, w: nat, changes: Changes)
    requires Inv(s) && !changes.ToSent? && !changes.ToAcknowledged? && !changes.ToCancelled?
    ensures Inv(Settle(s, w, changes))
  {
    var t := Settle(s, w, changes);
    WorkersAfter(s, t, w);
  }

  lemma ConcludingMoves(cfg: Config, pc: Worker, conclusion: Conclusion, now: int)
    ensures var changes := Concluding(cfg, pc, conclusion, now);
            changes.Some? ==>
              && pc.Engaged()
              && (changes.value.ToRetry? || changes.value.ToDeferred? || changes.value.ToFailed?)
              && (pc.Claimed? || pc.Begun? || (pc.UnknownRecorded? && pc.policy == FailClosed) ==>
                  changes.value.ToFailed?)
  {
  }

  lemma StepConcludeInv(cfg: Config, s: State, w: nat, conclusion: Conclusion, now: int)
    requires Inv(s)
    ensures Inv(StepConclude(cfg, s, w, conclusion, now))
  {
    ConcludingMoves(cfg, At(s, w), conclusion, now);
    var changes := Concluding(cfg, At(s, w), conclusion, now);
    if changes.Some? { SettleInv(s, w, changes.value); }
  }

  lemma StepClaimInv(s: State, w: nat, token: Token)
    requires Inv(s)
    ensures Inv(StepClaim(s, w, token))
  {
    var t := StepClaim(s, w, token);
    if t != s {
      FreshTokenIsApart(s, t, w, token);
      InvAfter(s, t, w);
    }
  }

  lemma FreshTokenIsApart(s: State, t: State, w: nat, token: Token)
    requires Inv(s) && t == StepClaim(s, w, token) && t != s
    ensures w in t.workers && forall v | v in s.workers && v != w :: Apart(s.workers[v], t.workers[w])
  {
    forall v | v in s.workers && v != w
      ensures Apart(s.workers[v], t.workers[w])
    {
      assert WorkerInv(s, s.workers[v]);
    }
  }

  lemma StepCheckLedgerInv(cfg: Config, s: State, w: nat, checkedAt: int)
    requires Inv(s)
    ensures Inv(StepCheckLedger(cfg, s, w, checkedAt))
  {
    var t := StepCheckLedger(cfg, s, w, checkedAt);
    if t != s {
      assert WorkerInv(s, s.workers[w]);
      forall v | v in s.workers && v != w
        ensures Apart(s.workers[v], t.workers[w])
      {
        assert Apart(s.workers[v], s.workers[w]);
      }
      InvAfter(s, t, w);
    }
  }

  /** With nothing unresolved and nothing sent, every attempt so far is excused. */
  lemma AllExcused(s: State)
    requires RowInv(s) && LedgerInv(s) && s.row.status == Processing && !HasUnresolved(s.ledger)
    ensures forall k | k in s.ledger :: Excused(s.calls, k, s.ledger[k])
  {
    forall k | k in s.ledger
      ensures Excused(s.calls, k, s.ledger[k])
    {
      match s.ledger[k].outcome
      case Some(AttemptUnknown) =>
      case Some(AttemptFailed) => assert Refused(s.calls, k);
    }
  }

  lemma StartedWorkersInv(s: State, t: State, w: nat)
    requires Inv(s) && w in s.workers && s.workers[w].Clear?
    requires t.row.attemptCount == s.row.attemptCount + 1 && t.row.maximumAttempts == s.row.maximumAttempts
    requires t.row.claimToken == s.row.claimToken == Some(s.workers[w].token)
    requires t.calls == s.calls && t.usedTokens == s.usedTokens
    requires w in t.workers && t.workers == s.workers[w := t.workers[w]]
    requires t.workers[w].Begun? && t.workers[w].attempt == t.row.attemptCount
    requires t.workers[w].token == s.workers[w].token && t.workers[w].snapshot == s.workers[w].snapshot
    ensures WorkersInv(t)
  {
    forall v | v in t.workers
      ensures WorkerInv(t, t.workers[v])
    {
      assert WorkerInv(s, s.workers[v]);
      if v != w {
        assert Apart(s.workers[v], s.workers[w]);
      }
    }
    forall v, u | v in t.workers && u in t.workers && v != u
      ensures Apart(t.workers[v], t.workers[u])
    {
      assert Apart(s.workers[v], s.workers[u]);
      assert WorkerInv(s, s.workers[v]) && WorkerInv(s, s.workers[u]);
    }
  }

  lemma BegunBeginnings(s: State, t: State)
    requires BeginningsInv(s) && t.calls == s.calls && t.beginnings == s.beginnings + [s.ledger]
    requires t.row.attemptCount == s.row.attemptCount + 1
    requires forall k: nat :: k in s.ledger <==> 1 <= k <= s.row.attemptCount
    requires forall k | k in s.ledger :: Excused(s.calls, k, s.ledger[k])
    ensures BeginningsInv(t)
  {
    forall j: nat | j < |t.beginnings|
      ensures BeginningInv(t.calls, t.beginnings, j)
    {
      if j < |s.beginnings| {
        assert BeginningInv(s.calls, s.beginnings, j);
      }
    }
  }

  lemma StepStartInv(s: State, w: nat, chat: string, now: int)
    requires Inv(s)
    ensures Inv(StepStart(s, w, chat, now))
  {
    var t := StepStart(s, w, chat, now);
    if t.row.attemptCount == s.row.attemptCount + 1 {
      assert WorkerInv(s, s.workers[w]);
      AllExcused(s);
      StartedWorkersInv(s, t, w);
      BegunBeginnings(s, t);
    } else if t != s {
      InvAfter(s, t, w);
    }
  }

  /** Nothing recorded about the calls is lost when one more is made. */
  lemma CallsGrow(calls: seq<Call>, call: Call)
    ensures forall k :: Refused(calls, k) ==> Refused(calls + [call], k)
    ensures forall id :: Took(calls, id) ==> Took(calls + [call], id)
    ensures forall k, answer :: AnsweredBy(calls, k, answer) ==> AnsweredBy(calls + [call], k, answer)
  {
    var more := calls + [call];
    forall k | Refused(calls, k)
      ensures Refused(more, k)
    {
      var i :| 0 <= i < |calls| && calls[i].attempt == k && IsDefiniteRefusal(calls[i].answer);
      assert more[i] == calls[i];
    }
    forall id | Took(calls, id)
      ensures Took(more, id)
    {
      var i :| 0 <= i < |calls| && calls[i].accepted && calls[i].answer == Accepted(id);
      assert more[i] == calls[i];
    }
    forall k, answer | AnsweredBy(calls, k, answer)
      ensures AnsweredBy(more, k, answer)
    {
      var i :| 0 <= i < |calls| && calls[i].attempt == k && calls[i].answer == answer;
      assert more[i] == calls[i];
    }
  }

  lemma StepSendInv(s: State, w: nat, answer: Answer, accepted: bool)
    requires Inv(s)
    ensures Inv(StepSend(s, w, answer, accepted))
  {
    var t := StepSend(s, w, answer, accepted);
    var pc := At(s, w);
    if t != s {
      var call := t.calls[|s.calls|];
      CallsGrow(s.calls, call);
      forall j: nat | j < |t.beginnings|
        ensures BeginningInv(t.calls, t.beginnings, j)
      {
        assert BeginningInv(s.calls, s.beginnings, j);
      }
      assert WorkerInv(s, pc);
      forall v | v in t.workers
        ensures WorkerInv(t, t.workers[v])
      {
        assert WorkerInv(s, s.workers[v]);
        if v == w {
          assert t.calls[|s.calls|] == call;
          assert AnsweredBy(t.calls, pc.attempt, answer);
        } else {
          assert Apart(s.workers[v], pc);
        }
      }
      forall v, u | v in t.workers && u in t.workers && v != u
        ensures Apart(t.workers[v], t.workers[u])
      {
        assert Apart(s.workers[v], s.workers[u]);
      }
    }
  }

  /** Committing a send touches nothing a worker's facts depend on, besides the worker itself. */
  lemma CommittedWorkers(s: State, t: State, w: nat)
    requires WorkersInv(s) && w in s.workers && t.workers == s.workers[w := Idle]
    requires t.row.maximumAttempts == s.row.maximumAttempts && t.row.attemptCount == s.row.attemptCount
    requires t.row.claimToken == None && t.usedTokens == s.usedTokens && t.calls == s.calls
    ensures WorkersInv(t)
  {
    forall v | v in t.workers
      ensures WorkerInv(t, t.workers[v])
    {
      assert WorkerInv(s, s.workers[v]);
    }
    forall v, u | v in t.workers && u in t.workers && v != u
      ensures Apart(t.workers[v], t.workers[u])
    {
      assert Apart(s.workers[v], s.workers[u]);
    }
  }

  lemma StepCommitSentInv(s: State, w: nat, now: int)
    requires Inv(s)
    ensures Inv(StepCommitSent(s, w, now))
  {
    var t := StepCommitSent(s, w, now);
    var pc := At(s, w);
    if pc.Answered? && pc.answer.Accepted? && t.row != s.row {
      assert WorkerInv(s, pc);
      var i :| 0 <= i < |s.calls| && s.calls[i].attempt == pc.attempt && s.calls[i].answer == pc.answer;
      assert Took(t.calls, pc.answer.providerMessageId);
      CommittedWorkers(s, t, w);
      assert BeginningsInv(t);
    } else if t != s {
      WorkersAfter(s, t, w);
    }
  }

  /** Resolving an attempt unfavourably never opens one, and never marks one SUCCEEDED. */
  lemma ResolveInv(s: State, w: nat, to: Worker, resolved: Attempt)
    requires Inv(s) && w in s.workers && s.workers[w].Engaged() && to.Engaged()
    requires s.workers[w].Answered? || s.workers[w].Interrupted?
    requires to.UnknownRecorded? || to.RefusalRecorded?
    requires to.token == s.workers[w].token && to.snapshot == s.workers[w].snapshot
    requires to.attempt == s.workers[w].attempt
    requires resolved.outcome == Some(AttemptUnknown)
             || (resolved.outcome == Some(AttemptFailed) && Refused(s.calls, to.attempt))
    ensures Inv(Move(s, w, to).(ledger := Resolve(s.ledger, to.attempt, resolved)))
  {
    var t := Move(s, w, to).(ledger := Resolve(s.ledger, to.attempt, resolved));
    forall v | v in t.workers
      ensures WorkerInv(t, t.workers[v])
    {
      assert WorkerInv(s, s.workers[v]);
    }
    assert BeginningsInv(t);
  }

  lemma StepResolveInv(s: State, w: nat, policy: Policy)
    requires Inv(s)
    ensures Inv(StepRecordUnknown(s, w, policy))
    ensures Inv(StepRecordRefusal(s, w))
  {
    var pc := At(s, w);
    if pc.Interrupted? || (pc.Answered? && pc.answer.Rejected? && HasUnknownOutcome(pc.answer.failure.code)) {
      ResolveInv(s, w, UnknownRecorded(pc.token, pc.snapshot, pc.seen, pc.attempt, policy),
                 Attempt(Some(AttemptUnknown), None, Some(UnknownCause(pc))));
    }
    if pc.Answered? && pc.answer.Rejected? && !HasUnknownOutcome(pc.answer.failure.code) {
      assert WorkerInv(s, pc);
      ResolveInv(s, w, RefusalRecorded(pc.token, pc.snapshot, pc.seen, pc.attempt, pc.answer.failure),
                 Attempt(Some(AttemptFailed), None, Some(pc.answer.failure.code)));
    }
  }

  lemma StopHolderInv(s: State, token: Option<Token>)
    requires Inv(s)
    ensures Inv(StopHolder(s, token))
  {
    var t := StopHolder(s, token);
    forall v | v in t.workers
      ensures WorkerInv(t, t.workers[v])
    {
      assert WorkerInv(s, s.workers[v]);
    }
    forall v, u | v in t.workers && u in t.workers && v != u
      ensures Apart(t.workers[v], t.workers[u])
    {
      assert Apart(s.workers[v], s.workers[u]);
    }
  }

  lemma StepReapInv(cfg: Config, s: State, now: int)
    requires Inv(s)
    ensures Inv(StepReap(cfg, s, now))
  {
    if cfg.failStop { StopHolderInv(s, s.row.claimToken); }
    if now <= s.clock && s.row.status == Processing {
      var stopped := if cfg.failStop then StopHolder(s, s.row.claimToken) else s;
      RowOnlyInv(stopped, stopped.(row := Write(s.row, ToDeferred(now))));
    }
  }

  /** The row alone moved, and the calls' facts and the claim with it did not. */
  lemma RowOnlyInv(s: State, t: State)
    requires Inv(s) && RowMoved(s, t) && t.workers == s.workers && t.callbacks.Items <= s.callbacks.Items
    requires RowInv(t)
    ensures Inv(t)
  {
    forall v | v in t.workers
      ensures WorkerInv(t, t.workers[v])
    {
      assert WorkerInv(s, s.workers[v]);
    }
    forall j: nat | j < |t.beginnings|
      ensures BeginningInv(t.calls, t.beginnings, j)
    {
      assert BeginningInv(s.calls, s.beginnings, j);
    }
    forall c | c in t.callbacks
      ensures t.callbacks[c].snapshot.status in {Sent, Delivered, Failed}
    {
      assert (c, t.callbacks[c]) in s.callbacks.Items;
    }
  }

  lemma StepWriteCallbackInv(s: State, c: nat, now: int)
    requires Inv(s)
    ensures Inv(StepWriteCallback(s, c, now))
  {
    var t := StepWriteCallback(s, c, now);
    if c in s.callbacks {
      assert t.callbacks == s.callbacks - {c};
      forall item | item in t.callbacks.Items
        ensures item in s.callbacks.Items
      {
        assert item.0 in t.callbacks && t.callbacks[item.0] == item.1;
      }
      RowOnlyInv(s, t);
    }
  }

  lemma StepReadForCallbackInv(s: State, c: nat, incoming: int)
    requires Inv(s)
    ensures Inv(StepReadForCallback(s, c, incoming))
  {
    var t := StepReadForCallback(s, c, incoming);
    assert WorkersInv(t) by {
      assert forall v | v in t.workers :: WorkerInv(s, s.workers[v]);
    }
  }

  lemma StepArriveInv(s: State, w: nat)
    requires Inv(s)
    ensures Inv(StepArrive(s, w))
  {
    if At(s, w).Idle? { InvAfter(s, StepArrive(s, w), w); }
  }

  lemma StepPromoteInv(s: State, w: nat)
    requires Inv(s)
    ensures Inv(StepPromote(s, w))
  {
    if At(s, w).Arrived? { InvAfter(s, StepPromote(s, w), w); }
  }

  lemma StepPrepareInv(cfg: Config, s: State, w: nat, preparation: Preparation)
    requires Inv(s)
    ensures Inv(StepPrepare(cfg, s, w, preparation))
  {
    match preparation
    case Arrive => StepArriveInv(s, w);
    case Promote => StepPromoteInv(s, w);
    case Claim(token) => StepClaimInv(s, w, token);
    case CheckLedger(at) => StepCheckLedgerInv(cfg, s, w, at);
  }

  lemma StepDeliverInv(s: State, w: nat, delivering: Delivering)
    requires Inv(s)
    ensures Inv(StepDeliver(s, w, delivering))
  {
    match delivering
    case Start(chat, now) => StepStartInv(s, w, chat, now);
    case Send(answer, accepted) => StepSendInv(s, w, answer, accepted);
    case CommitSent(now) => StepCommitSentInv(s, w, now);
    case RecordUnknown(policy) => StepResolveInv(s, w, policy);
    case RecordRefusal => StepResolveInv(s, w, RetryUnknown);
  }

  lemma StepOutsideInv(cfg: Config, s: State, event: Event)
    requires Inv(s)
    ensures Inv(StepOutside(cfg, s, event))
  {
    match event
    case Crash(w) => StepCrashInv(s, w);
    case Reap(now) => StepReapInv(cfg, s, now);
    case ReadForCallback(c, incoming) => StepReadForCallbackInv(s, c, incoming);
    case WriteCallback(c, now) => StepWriteCallbackInv(s, c, now);
    case Tick(d) => TickInv(s, d);
    case Cancel(expected, now) => StepCancelInv(s, expected, now);
    case CancelWaiting(now) => StepCancelWaitingInv(s, now);
  }

  lemma StepCrashInv(s: State, w: nat)
    requires Inv(s)
    ensures Inv(StepCrash(s, w))
  {
    InvAfter(s, StepCrash(s, w), w);
  }

  lemma TickInv(s: State, milliseconds: nat)
    requires Inv(s)
    ensures Inv(s.(clock := s.clock + milliseconds))
  {
    RowOnlyInv(s, s.(clock := s.clock + milliseconds));
  }

  lemma StepCancelInv(s: State, expected: Status, now: int)
    requires Inv(s)
    ensures Inv(StepCancel(s, expected, now))
  {
    RowOnlyInv(s, StepCancel(s, expected, now));
  }

  lemma StepCancelWaitingInv(s: State, now: int)
    requires Inv(s)
    ensures Inv(s.(row := CancelWaitingRow(s.row, now).GetOr(s.row)))
  {
    RowOnlyInv(s, s.(row := CancelWaitingRow(s.row, now).GetOr(s.row)));
  }

  lemma StepInv(cfg: Config, s: State, a: Action)
    requires Inv(s)
    ensures Inv(Step(cfg, s, a))
  {
    match a
    case Prepare(w, preparation) => StepPrepareInv(cfg, s, w, preparation);
    case Deliver(w, delivering) => StepDeliverInv(s, w, delivering);
    case Conclude(w, conclusion, now) => StepConcludeInv(cfg, s, w, conclusion, now);
    case Outside(event) => StepOutsideInv(cfg, s, event);
  }

  lemma {:induction false} RunInv(cfg: Config, s: State, actions: seq<Action>)
    requires Inv(s)
    ensures Inv(Run(cfg, s, actions))
    decreases |actions|
  {
    if actions != [] {
      StepInv(cfg, s, actions[0]);
      RunInv(cfg, Step(cfg, s, actions[0]), actions[1..]);
    }
  }

  // ----- the results -----

  /** The ledger's rows are numbered 1 to the attempt count, and only the last can be unresolved. */
  lemma LedgerNumbering(cfg: Config, row: Notification, clock: int, actions: seq<Action>)
    requires IsNew(row)
    ensures var s := Run(cfg, Initial(row, clock), actions);
            && (forall k: nat :: k in s.ledger <==> 1 <= k <= s.row.attemptCount)
            && (forall k | IsUnresolved(s.ledger, k) :: k == s.row.attemptCount)
  {
    InitialInv(row, clock);
    RunInv(cfg, Initial(row, clock), actions);
  }

  /**
   * The ledger as it stood when attempt j began: every earlier attempt had been
   * resolved, as UNKNOWN or as FAILED after a refusal the provider did give.
   */
  lemma EarlierAttemptsExcused(cfg: Config, row: Notification, clock: int, actions: seq<Action>)
    requires IsNew(row)
    ensures var s := Run(cfg, Initial(row, clock), actions);
            && |s.beginnings| == s.row.attemptCount
            && forall j: nat | j < |s.beginnings| ::
                 && (forall k: nat :: k in s.beginnings[j] <==> 1 <= k <= j)
                 && (forall k | k in s.beginnings[j] :: Excused(s.calls, k, s.beginnings[j][k]))
  {
    InitialInv(row, clock);
    RunInv(cfg, Initial(row, clock), actions);
    var s := Run(cfg, Initial(row, clock), actions);
    forall j: nat | j < |s.beginnings|
      ensures (forall k: nat :: k in s.beginnings[j] <==> 1 <= k <= j)
      ensures forall k | k in s.beginnings[j] :: Excused(s.calls, k, s.beginnings[j][k])
    {
      assert BeginningInv(s.calls, s.beginnings, j);
    }
  }

  /**
   * Whenever WhatsApp accepts two copies, the later one's attempt began only
   * after the earlier one's had been recorded as UNKNOWN.
   */
  lemma SecondCopyFollowsUnknown(cfg: Config, row: Notification, clock: int, actions: seq<Action>, i: nat, j: nat)
    requires IsNew(row)
    requires var s := Run(cfg, Initial(row, clock), actions);
             && i < |s.calls| && j < |s.calls| && s.calls[i].accepted && s.calls[j].accepted
             && s.calls[i].attempt < s.calls[j].attempt
    ensures var s := Run(cfg, Initial(row, clock), actions);
            var before := s.calls[j].attempt - 1;
            && before < |s.beginnings|
            && s.calls[i].attempt in s.beginnings[before]
            && s.beginnings[before][s.calls[i].attempt].outcome == Some(AttemptUnknown)
  {
    InitialInv(row, clock);
    RunInv(cfg, Initial(row, clock), actions);
    var s := Run(cfg, Initial(row, clock), actions);
    assert BeginningInv(s.calls, s.beginnings, s.calls[j].attempt - 1);
    AcceptedNotRefused(s, i);
  }

  /** An attempt makes one call, so an accepted attempt was never definitely refused. */
  lemma AcceptedNotRefused(s: State, i: nat)
    requires CallsInv(s) && i < |s.calls| && s.calls[i].accepted
    ensures !Refused(s.calls, s.calls[i].attempt)
  {
    forall r | 0 <= r < |s.calls| && s.calls[r].attempt == s.calls[i].attempt
      ensures !IsDefiniteRefusal(s.calls[r].answer)
    {
      assert r == i;
    }
  }

  /** A sent notification carries an identifier the provider answered an accepted send with. */
  lemma SentWasAccepted(cfg: Config, row: Notification, clock: int, actions: seq<Action>)
    requires IsNew(row)
    ensures var s := Run(cfg, Initial(row, clock), actions);
            && (s.row.status in {Sent, Delivered} ==> s.row.providerMessageId.Some?)
            && (s.row.providerMessageId.Some? ==> Took(s.calls, s.row.providerMessageId.value))
  {
    InitialInv(row, clock);
    RunInv(cfg, Initial(row, clock), actions);
  }

  lemma {:induction false} DistinctAreFew(numbers: seq<nat>, bound: nat)
    requires forall i :: 0 <= i < |numbers| ==> 1 <= numbers[i] <= bound
    requires forall i, j :: 0 <= i < j < |numbers| ==> numbers[i] != numbers[j]
    ensures |numbers| <= bound
  {
    if numbers != [] {
      assert 1 <= numbers[0] <= bound;
      if i :| 0 <= i < |numbers| && numbers[i] == bound {
        DistinctAreFew(numbers[..i] + numbers[i + 1..], bound - 1);
      } else {
        DistinctAreFew(numbers, bound - 1);
      }
    }
  }

  /** Every send carries its own attempt number within the budget, so the budget bounds the sends. */
  lemma SendsWithinBudget(cfg: Config, row: Notification, clock: int, actions: seq<Action>)
    requires IsNew(row)
    ensures var s := Run(cfg, Initial(row, clock), actions);
            && (forall i :: 0 <= i < |s.calls| ==> 1 <= s.calls[i].attempt <= row.maximumAttempts)
            && (forall i, j :: 0 <= i < j < |s.calls| ==> s.calls[i].attempt != s.calls[j].attempt)
            && |s.calls| <= row.maximumAttempts
  {
    InitialInv(row, clock);
    RunInv(cfg, Initial(row, clock), actions);
    MaximumIsFixed(cfg, Initial(row, clock), actions);
    var s := Run(cfg, Initial(row, clock), actions);
    DistinctAreFew(seq(|s.calls|, i requires 0 <= i < |s.calls| => s.calls[i].attempt), row.maximumAttempts);
  }

  lemma StepKeepsMaximum(cfg: Config, s: State, a: Action)
    ensures Step(cfg, s, a).row.maximumAttempts == s.row.maximumAttempts
  {
    if a.Conclude? { ConcludingMoves(cfg, At(s, a.worker), a.conclusion, a.now); }
  }

  lemma {:induction false} MaximumIsFixed(cfg: Config, s: State, actions: seq<Action>)
    ensures Run(cfg, s, actions).row.maximumAttempts == s.row.maximumAttempts
    decreases |actions|
  {
    if actions != [] {
      StepKeepsMaximum(cfg, s, actions[0]);
      MaximumIsFixed(cfg, Step(cfg, s, actions[0]), actions[1..]);
    }
  }

  /** The twelve legal moves; what is terminal has none, and only what waits can be cancelled. */
  lemma LegalMoves(from: Status, to: Status)
    ensures CanTransition(from, to) <==>
            (from, to) in {(Scheduled, Queued), (Scheduled, Cancelled), (Queued, Processing), (Queued, Cancelled),
                           (Processing, Sent), (Processing, Retrying), (Processing, Failed), (Sent, Delivered),
                           (Sent, Failed), (Retrying, Processing), (Retrying, Cancelled), (Retrying, Failed)}
    ensures IsTerminal(from) <==> Successors(from) == {}
    ensures IsCancellable(from) <==> from in {Scheduled, Queued, Retrying}
  {
  }

  /** Every committed change of status is an edge of the table, or no change. */
  lemma StepFollowsTable(cfg: Config, s: State, a: Action)
    requires Inv(s)
    ensures var t := Step(cfg, s, a);
            t.row.status == s.row.status || CanTransition(s.row.status, t.row.status)
    ensures IsTerminal(s.row.status) ==> Step(cfg, s, a).beginnings == s.beginnings
  {
    match a
    case Prepare(w, preparation) => PreparingFollowsTable(cfg, s, w, preparation);
    case Deliver(w, delivering) => DeliveringFollowsTable(s, w, delivering);
    case Conclude(w, conclusion, now) => ConcludingMoves(cfg, At(s, w), conclusion, now);
    case Outside(event) => EventFollowsTable(cfg, s, event);
  }

  lemma PreparingFollowsTable(cfg: Config, s: State, w: nat, preparation: Preparation)
    ensures var t := StepPrepare(cfg, s, w, preparation);
            && t.beginnings == s.beginnings
            && (t.row.status == s.row.status || CanTransition(s.row.status, t.row.status))
  {
  }

  lemma DeliveringFollowsTable(s: State, w: nat, delivering: Delivering)
    ensures var t := StepDeliver(s, w, delivering);
            && (t.row.status == s.row.status || CanTransition(s.row.status, t.row.status))
            && (IsTerminal(s.row.status) ==> t.beginnings == s.beginnings)
  {
  }

  lemma EventFollowsTable(cfg: Config, s: State, event: Event)
    requires Inv(s)
    ensures var t := StepOutside(cfg, s, event);
            && t.beginnings == s.beginnings
            && (t.row.status == s.row.status || CanTransition(s.row.status, t.row.status))
  {
    if event.WriteCallback? { CallbackFollowsTable(s, event.callback, event.now); }
  }

  lemma CallbackFollowsTable(s: State, c: nat, now: int)
    requires Inv(s)
    ensures var t := StepWriteCallback(s, c, now);
            && t.beginnings == s.beginnings
            && (t.row.status == s.row.status || CanTransition(s.row.status, t.row.status))
  {
  }

  lemma EveryStepFollowsTable(cfg: Config, row: Notification, clock: int, actions: seq<Action>, next: Action)
    requires IsNew(row)
    ensures var s := Run(cfg, Initial(row, clock), actions);
            var t := Step(cfg, s, next);
            && (t.row.status == s.row.status || CanTransition(s.row.status, t.row.status))
            && (s.row.status == Processing <==> s.row.claimToken.Some?)
            && (s.row.status == Processing <==> s.row.claimedAt.Some?)
  {
    InitialInv(row, clock);
    RunInv(cfg, Initial(row, clock), actions);
    StepFollowsTable(cfg, Run(cfg, Initial(row, clock), actions), next);
  }

  /** A terminal status is final, and no attempt begins after it. */
  lemma {:induction false} TerminalIsFinal(cfg: Config, s: State, actions: seq<Action>)
    requires Inv(s) && IsTerminal(s.row.status)
    ensures var t := Run(cfg, s, actions);
            && t.row.status == s.row.status && t.beginnings == s.beginnings
            && t.row.attemptCount == s.row.attemptCount
    decreases |actions|
  {
    RunInv(cfg, s, actions);
    if actions != [] {
      StepInv(cfg, s, actions[0]);
      StepFollowsTable(cfg, s, actions[0]);
      TerminalIsFinal(cfg, Step(cfg, s, actions[0]), actions[1..]);
    }
  }
}
