/**
 * Any sequence of creation requests, one transaction after another, no key deleted:
 * what the first success under a key settles for every request after it.
 */
module CreationRuns {
  import opened Wrappers
  import opened Identifiers
  import opened Lifecycle
  import opened Rows
  import opened Creation

  function Run(numbers: map<string, string>, calls: seq<Call>): Database {
    if calls == [] then EMPTY else After(Run(numbers, calls[..|calls| - 1]), numbers, calls[|calls| - 1])
  }

  function OutcomeAt(numbers: map<string, string>, calls: seq<Call>, i: nat): Outcome
    requires i < |calls|
  {
    OutcomeOf(Run(numbers, calls[..i]), numbers, calls[i])
  }

  // ----- what one request writes -----

  /** The identifiers a completed record stands for. */
  function IdsOf(record: KeyRecord): seq<nat> {
    if record.resourceId.Some? then [record.resourceId.value] else record.notificationIds.GetOr([])
  }

  /** The row a draft becomes. */
  function DraftRow(recipient: string, sessionId: nat, request: Request, now: int): Created {
    Created(request.application, sessionId, recipient, request.body, NameOf(request),
            NewNotification(now, request.scheduledAt, request.maximumAttempts.GetOr(DEFAULT_MAXIMUM_ATTEMPTS)))
  }

  /** One row, one event and one job for each draft, in the order of the request; nothing else. */
  ghost predicate Extends(before: Database, after: Database, first: nat, recipients: seq<string>, count: nat,
                          sessionId: nat, request: Request, now: int)
    requires count <= |recipients|
  {
    && after.keys == before.keys && after.nextId == before.nextId
    && (forall id :: id in after.notifications <==> id in before.notifications || first <= id < first + count)
    && (forall id :: id in before.notifications && !(first <= id < first + count) ==>
          after.notifications[id] == before.notifications[id])
    && (forall k :: 0 <= k < count ==>
        after.notifications[first + k] == DraftRow(recipients[k], sessionId, request, now))
    && after.events == before.events
         + seq(count, k requires 0 <= k < count => CreatedEvent(first + k, if request.scheduledAt.Some? then Scheduled
                                                                else Queued))
    && after.jobs == before.jobs + seq(count, k requires 0 <= k < count => Job(first + k, request.scheduledAt))
  }

  lemma OneMoreDraft(db: Database, written: Database, first: nat, recipients: seq<string>, count: nat,
                     sessionId: nat, request: Request, now: int)
    requires 0 < count <= |recipients| && Extends(db, written, first, recipients, count - 1, sessionId, request, now)
    ensures Extends(db, WriteNotification(written, first + count - 1, recipients[count - 1], sessionId, request, now),
                    first, recipients, count, sessionId, request, now)
  {
  }

  lemma {:induction false} DraftsExtend(db: Database, first: nat, recipients: seq<string>, count: nat,
                                        sessionId: nat, request: Request, now: int)
    requires count <= |recipients|
    ensures Extends(db, WriteDrafts(db, first, recipients, count, sessionId, request, now),
                    first, recipients, count, sessionId, request, now)
  {
    if count > 0 {
      var written := WriteDrafts(db, first, recipients, count - 1, sessionId, request, now);
      DraftsExtend(db, first, recipients, count - 1, sessionId, request, now);
      OneMoreDraft(db, written, first, recipients, count, sessionId, request, now);
    }
  }

  // ----- the invariant -----

  /** A record in its final state, with rows of its own that exist. */
  ghost predicate IsSettled(db: Database, name: KeyName) {
    name in db.keys &&
    var record := db.keys[name];
    && record.isCompleted
    && record.fingerprint.application == name.application
    && (record.resourceId.Some? <==> record.fingerprint.addressing.Single?)
    && (record.notificationIds.Some? <==> record.fingerprint.addressing.Batch?)
    && |IdsOf(record)| == |record.fingerprint.addressing.All()|
    && (forall id :: id in IdsOf(record) ==> id in db.notifications && db.notifications[id].keyName == Some(name))
  }

  ghost predicate KeysSettled(db: Database) {
    forall name :: name in db.keys ==> IsSettled(db, name)
  }

  /** Every row made under a key is one its record stands for. */
  ghost predicate RowsAreRecorded(db: Database) {
    forall id :: id in db.notifications && db.notifications[id].keyName.Some? ==>
      && db.notifications[id].keyName.value in db.keys
      && id in IdsOf(db.keys[db.notifications[id].keyName.value])
  }

  /** One created event and one job for each notification, written in the same order. */
  ghost predicate NothingIsOrphaned(db: Database) {
    && |db.events| == |db.jobs|
    && (forall k :: 0 <= k < |db.events| ==> db.events[k].notificationId == db.jobs[k].notificationId)
    && (forall j, k :: 0 <= j < k < |db.events| ==> db.events[j].notificationId < db.events[k].notificationId)
    && (forall id :: id in db.notifications <==> exists k :: 0 <= k < |db.events| && db.events[k].notificationId == id)
  }

  ghost predicate IdsBelow(db: Database) {
    forall id :: id in db.notifications ==> id < db.nextId
  }

  ghost predicate Inv(db: Database) {
    KeysSettled(db) && RowsAreRecorded(db) && NothingIsOrphaned(db) && IdsBelow(db)
  }

  /** The key table gains one completed record for these identifiers, or nothing without a key. */
  ghost predicate Records(before: map<KeyName, KeyRecord>, after: map<KeyName, KeyRecord>, request: Request,
                          ids: seq<nat>) {
    if request.key.None? then after == before
    else
      var name := NameOf(request).value;
      && after.Keys == before.Keys + {name}
      && (forall other :: other in before ==> after[other] == before[other])
      && after[name].isCompleted && after[name].fingerprint == FingerprintRequest(request)
      && IdsOf(after[name]) == ids
      && (after[name].resourceId.Some? <==> request.addressing.Single?)
      && (after[name].notificationIds.Some? <==> request.addressing.Batch?)
  }

  lemma ClaimThenComplete(keys: map<KeyName, KeyRecord>, request: Request, token: nat, ids: seq<nat>)
    requires ClaimOf(keys, request).Fresh? && |ids| == |request.addressing.All()|
    ensures Records(keys, CompleteKey(InsertKey(keys, request, token), request, token, ids), request, ids)
  {
    if request.addressing.Single? { assert ids == [ids[0]]; }
  }

  lemma RowsWritten(db: Database, numbers: map<string, string>, call: Call, recipients: seq<string>, sessionId: nat)
    requires Precheck(numbers, call).None? && ClaimOf(db.keys, call.request).Fresh?
    requires recipients == Numbers(numbers, call.request.addressing.All())
    requires sessionId == ResolveSession(call.sessions, call.request.sessionId).value.id
    ensures Extends(Draw(db, call.request), After(db, numbers, call).(keys := db.keys), db.nextId,
                    recipients, |recipients|, sessionId, call.request, call.now)
    ensures After(db, numbers, call).keys
            == CompleteKey(InsertKey(db.keys, call.request, db.nextId + |recipients|), call.request,
                           db.nextId + |recipients|, Block(db.nextId, |recipients|))
  {
    var claimed := Draw(db, call.request).(keys := InsertKey(db.keys, call.request, db.nextId + |recipients|));
    DraftsExtend(claimed, db.nextId, recipients, |recipients|, sessionId, call.request, call.now);
  }

  /** The effect of a fresh request, put together. */
  lemma WriteAllEffect(db: Database, numbers: map<string, string>, call: Call, recipients: seq<string>, sessionId: nat)
    requires Precheck(numbers, call).None? && ClaimOf(db.keys, call.request).Fresh?
    requires recipients == Numbers(numbers, call.request.addressing.All())
    requires sessionId == ResolveSession(call.sessions, call.request.sessionId).value.id
    ensures Extends(Draw(db, call.request), After(db, numbers, call).(keys := db.keys), db.nextId,
                    recipients, |recipients|, sessionId, call.request, call.now)
    ensures Records(db.keys, After(db, numbers, call).keys, call.request, Block(db.nextId, |recipients|))
  {
    RowsWritten(db, numbers, call, recipients, sessionId);
    ClaimThenComplete(db.keys, call.request, db.nextId + |recipients|, Block(db.nextId, |recipients|));
  }

  lemma StepKeepsOrder(before: Database, after: Database, first: nat, recipients: seq<string>, sessionId: nat,
                       request: Request, now: int)
    requires Extends(before, after, first, recipients, |recipients|, sessionId, request, now)
    requires NothingIsOrphaned(before) && forall id :: id in before.notifications ==> id < first
    ensures NothingIsOrphaned(after)
  {
    forall k | 0 <= k < |before.events| ensures before.events[k].notificationId < first {
      assert before.events[k].notificationId in before.notifications;
    }
    forall id ensures id in after.notifications <==>
      exists k :: 0 <= k < |after.events|
        && after.events[k].notificationId == id {
      if id in before.notifications {
        var k :| 0 <= k < |before.events| && before.events[k].notificationId == id;
        assert after.events[k].notificationId == id;
      } else if first <= id < first + |recipients| {
        assert after.events[|before.events| + id - first].notificationId == id;
      }
    }
  }

  lemma StepKeepsInv(db: Database, numbers: map<string, string>, call: Call)
    requires Inv(db)
    ensures Inv(After(db, numbers, call))
  {
    var request, after := call.request, After(db, numbers, call);
    if Precheck(numbers, call).None? && ClaimOf(db.keys, request).Fresh? {
      var recipients := Numbers(numbers, request.addressing.All());
      var sessionId := ResolveSession(call.sessions, request.sessionId).value.id;
      WriteAllEffect(db, numbers, call, recipients, sessionId);
      var rows := after.(keys := db.keys);
      FreshKeepsInv(db, rows, after.keys, recipients, sessionId, request, call.now);
      assert rows.(keys := after.keys) == after;
    } else {
      assert after == Draw(db, request);
    }
  }

  lemma FreshKeepsInv(db: Database, rows: Database, keys: map<KeyName, KeyRecord>,
                      recipients: seq<string>, sessionId: nat, request: Request, now: int)
    requires Inv(db) && ClaimOf(db.keys, request).Fresh? && |recipients| == |request.addressing.All()|
    requires Extends(Draw(db, request), rows, db.nextId, recipients, |recipients|, sessionId, request, now)
    requires Records(db.keys, keys, request, Block(db.nextId, |recipients|))
    ensures Inv(rows.(keys := keys))
  {
    StepKeepsOrder(Draw(db, request), rows, db.nextId, recipients, sessionId, request, now);
    StepKeepsKeys(Draw(db, request), rows, keys, db.nextId, recipients, sessionId, request, now);
    OrderIgnoresKeys(rows, keys);
    NewIdsAreBelow(db, rows, keys, recipients, sessionId, request, now);
  }

  lemma OrderIgnoresKeys(rows: Database, keys: map<KeyName, KeyRecord>)
    requires NothingIsOrphaned(rows)
    ensures NothingIsOrphaned(rows.(keys := keys))
  {
  }

  lemma NewIdsAreBelow(db: Database, rows: Database, keys: map<KeyName, KeyRecord>,
                       recipients: seq<string>, sessionId: nat, request: Request, now: int)
    requires IdsBelow(db) && |recipients| == |request.addressing.All()|
    requires Extends(Draw(db, request), rows, db.nextId, recipients, |recipients|, sessionId, request, now)
    ensures IdsBelow(rows.(keys := keys))
  {
  }

  lemma NewRows(before: Database, after: Database, first: nat, recipients: seq<string>, sessionId: nat,
                request: Request, now: int, id: nat)
    requires Extends(before, after, first, recipients, |recipients|, sessionId, request, now)
    requires first <= id < first + |recipients|
    ensures id in after.notifications && after.notifications[id].keyName == NameOf(request)
    ensures id in Block(first, |recipients|)
  {
    assert after.notifications[first + (id - first)] == DraftRow(recipients[id - first], sessionId, request, now);
    assert Block(first, |recipients|)[id - first] == id;
  }

  lemma StepKeepsKeys(before: Database, rows: Database, keys: map<KeyName, KeyRecord>,
                      first: nat, recipients: seq<string>, sessionId: nat, request: Request, now: int)
    requires Extends(before, rows, first, recipients, |recipients|, sessionId, request, now)
    requires Records(before.keys, keys, request, Block(first, |recipients|)) && ClaimOf(before.keys, request).Fresh?
    requires |recipients| == |request.addressing.All()|
    requires KeysSettled(before) && RowsAreRecorded(before) && forall id :: id in before.notifications ==> id < first
    ensures KeysSettled(rows.(keys := keys)) && RowsAreRecorded(rows.(keys := keys))
  {
    var after := rows.(keys := keys);
    forall id | id in after.notifications && after.notifications[id].keyName.Some?
      ensures after.notifications[id].keyName.value in keys && id in IdsOf(keys[after.notifications[id].keyName.value])
    {
      if id !in before.notifications {
        NewRows(before, rows, first, recipients, sessionId, request, now, id);
      }
    }
    forall name | name in keys ensures IsSettled(after, name) {
      if name in before.keys {
        assert IsSettled(before, name);
      } else {
        forall id | id in IdsOf(keys[name])
          ensures id in after.notifications && after.notifications[id].keyName == Some(name) {
          NewRows(before, rows, first, recipients, sessionId, request, now, id);
        }
      }
    }
  }

  lemma {:induction false} RunKeepsInv(numbers: map<string, string>, calls: seq<Call>)
    ensures Inv(Run(numbers, calls))
  {
    if calls != [] {
      RunKeepsInv(numbers, calls[..|calls| - 1]);
      StepKeepsInv(Run(numbers, calls[..|calls| - 1]), numbers, calls[|calls| - 1]);
    }
  }

  // ----- what the first success settles -----

  lemma {:induction false} RecordStays(numbers: map<string, string>, calls: seq<Call>, i: nat, j: nat, name: KeyName)
    requires i <= j <= |calls| && name in Run(numbers, calls[..i]).keys
    ensures name in Run(numbers, calls[..j]).keys
    ensures Run(numbers, calls[..j]).keys[name] == Run(numbers, calls[..i]).keys[name]
    decreases j
  {
    if i < j {
      RecordStays(numbers, calls, i, j - 1, name);
      StepKeepsRecord(numbers, calls, j - 1, name);
    }
  }

  lemma RunOneMore(numbers: map<string, string>, calls: seq<Call>, i: nat)
    requires i < |calls|
    ensures Run(numbers, calls[..i + 1]) == After(Run(numbers, calls[..i]), numbers, calls[i])
  {
    assert calls[..i + 1][..i] == calls[..i];
  }

  lemma StepKeepsRecord(numbers: map<string, string>, calls: seq<Call>, i: nat, name: KeyName)
    requires i < |calls| && name in Run(numbers, calls[..i]).keys
    ensures name in Run(numbers, calls[..i + 1]).keys
    ensures Run(numbers, calls[..i + 1]).keys[name] == Run(numbers, calls[..i]).keys[name]
  {
    var db, call := Run(numbers, calls[..i]), calls[i];
    RunOneMore(numbers, calls, i);
    if Precheck(numbers, call).None? && ClaimOf(db.keys, call.request).Fresh? {
      WriteAllEffect(db, numbers, call, Numbers(numbers, call.request.addressing.All()),
                     ResolveSession(call.sessions, call.request.sessionId).value.id);
    }
  }

  /** An answered request leaves a record with its fingerprint and the identifiers it was answered with. */
  lemma AnsweredIsRecorded(numbers: map<string, string>, calls: seq<Call>, i: nat)
    requires i < |calls| && calls[i].request.key.Some? && OutcomeAt(numbers, calls, i).Answered?
    ensures var name, after := NameOf(calls[i].request).value, Run(numbers, calls[..i + 1]);
            && IsSettled(after, name)
            && after.keys[name].fingerprint == FingerprintRequest(calls[i].request)
            && IdsOf(after.keys[name]) == OutcomeAt(numbers, calls, i).ids
  {
    var db, call := Run(numbers, calls[..i]), calls[i];
    RunOneMore(numbers, calls, i);
    RunKeepsInv(numbers, calls[..i + 1]);
    if ClaimOf(db.keys, call.request).Fresh? {
      WriteAllEffect(db, numbers, call, Numbers(numbers, call.request.addressing.All()),
                     ResolveSession(call.sessions, call.request.sessionId).value.id);
    } else {
      StepKeepsRecord(numbers, calls, i, NameOf(call.request).value);
      assert IsSettled(Run(numbers, calls[..i + 1]), NameOf(call.request).value);
    }
  }

  /** What a settled record makes of a request that comes under its key. */
  lemma RecordAnswers(db: Database, numbers: map<string, string>, call: Call)
    requires call.request.key.Some? && IsSettled(db, NameOf(call.request).value)
    ensures var record := db.keys[NameOf(call.request).value];
            OutcomeOf(db, numbers, call) ==
            if Precheck(numbers, call).Some? then Refused(Precheck(numbers, call).value)
            else if FingerprintRequest(call.request) == record.fingerprint then Answered(IdsOf(record), true)
            else Refused(KeyReused)
    ensures After(db, numbers, call) == Draw(db, call.request)
  {
  }

  /**
   * Once a request under a key was answered, a later one under it is settled too: the same
   * request gets the same identifiers in the same order, one that differs in anything is refused,
   * and neither writes anything. A request that fails before the key is looked at is refused for that.
   */
  lemma LaterRequestsAgree(numbers: map<string, string>, calls: seq<Call>, i: nat, j: nat)
    requires i < j < |calls| && calls[i].request.key.Some? && NameOf(calls[j].request) == NameOf(calls[i].request)
    requires OutcomeAt(numbers, calls, i).Answered?
    ensures OutcomeAt(numbers, calls, j) ==
            if Precheck(numbers, calls[j]).Some? then Refused(Precheck(numbers, calls[j]).value)
            else if calls[j].request == calls[i].request
            then Answered(OutcomeAt(numbers, calls, i).ids, true)
            else Refused(KeyReused)
    ensures Run(numbers, calls[..j + 1]) == Draw(Run(numbers, calls[..j]), calls[j].request)
  {
    var name, db := NameOf(calls[i].request).value, Run(numbers, calls[..j]);
    AnsweredIsRecorded(numbers, calls, i);
    RecordStays(numbers, calls, i + 1, j, name);
    RunKeepsInv(numbers, calls[..j]);
    RunOneMore(numbers, calls, j);
    assert IsSettled(db, name);
    RecordAnswers(db, numbers, calls[j]);
    FingerprintTellsRequestsApart(calls[i].request, calls[j].request);
  }

  lemma SettledIsCompleted(db: Database)
    requires Inv(db)
    ensures forall name :: name in db.keys ==> db.keys[name].isCompleted
  {
    forall name | name in db.keys ensures db.keys[name].isCompleted {
      assert IsSettled(db, name);
    }
  }

  lemma SettledMeetsNone(db: Database, numbers: map<string, string>, call: Call)
    requires Inv(db)
    ensures OutcomeOf(db, numbers, call) != Refused(KeyInFlight) && OutcomeOf(db, numbers, call) != Refused(Corrupted)
  {
    var name := NameOf(call.request);
    if name.Some? && name.value in db.keys {
      assert IsSettled(db, name.value);
    }
  }

  /** No request ever meets a key in flight, or a record it cannot read. */
  lemma NoKeyInFlight(numbers: map<string, string>, calls: seq<Call>, i: nat)
    requires i < |calls|
    ensures forall name :: name in Run(numbers, calls).keys ==> Run(numbers, calls).keys[name].isCompleted
    ensures OutcomeAt(numbers, calls, i) != Refused(KeyInFlight) && OutcomeAt(numbers, calls, i) != Refused(Corrupted)
  {
    RunKeepsInv(numbers, calls);
    RunKeepsInv(numbers, calls[..i]);
    SettledIsCompleted(Run(numbers, calls));
    SettledMeetsNone(Run(numbers, calls[..i]), numbers, calls[i]);
  }

  function RowsUnder(db: Database, name: KeyName): set<nat> {
    set id | id in db.notifications && db.notifications[id].keyName == Some(name)
  }

  /** However often a key was used, its rows are those of the one request that succeeded. */
  lemma OneRequestCreates(numbers: map<string, string>, calls: seq<Call>, i: nat)
    requires i < |calls| && calls[i].request.key.Some? && OutcomeAt(numbers, calls, i).Answered?
    ensures RowsUnder(Run(numbers, calls), NameOf(calls[i].request).value)
      == MembersOf(OutcomeAt(numbers, calls, i).ids)
    ensures |OutcomeAt(numbers, calls, i).ids| == |calls[i].request.addressing.All()|
  {
    var name, db := NameOf(calls[i].request).value, Run(numbers, calls);
    AnsweredIsRecorded(numbers, calls, i);
    RecordStays(numbers, calls, i + 1, |calls|, name);
    assert calls[..|calls|] == calls;
    RunKeepsInv(numbers, calls);
    assert IsSettled(db, name);
    forall id ensures id in RowsUnder(db, name) <==> id in MembersOf(IdsOf(db.keys[name])) {
    }
  }

  /** Without an answer under it, a key has made nothing and is held by nobody. */
  lemma {:induction false} RefusedCreatesNothing(numbers: map<string, string>, calls: seq<Call>, name: KeyName)
    requires forall i :: 0 <= i < |calls| && NameOf(calls[i].request) == Some(name) ==>
      OutcomeAt(numbers, calls, i).Refused?
    ensures name !in Run(numbers, calls).keys && RowsUnder(Run(numbers, calls), name) == {}
    decreases |calls|
  {
    if calls == [] {
    } else {
      var n := |calls| - 1;
      var before := calls[..n];
      forall i | 0 <= i < n && NameOf(before[i].request) == Some(name) ensures OutcomeAt(numbers, before, i).Refused? {
        assert before[..i] == calls[..i];
        assert OutcomeAt(numbers, calls, i).Refused?;
      }
      RefusedCreatesNothing(numbers, before, name);
      var db, call := Run(numbers, before), calls[n];
      assert NameOf(call.request) == Some(name) ==> OutcomeAt(numbers, calls, n).Refused?;
      if Precheck(numbers, call).None? && ClaimOf(db.keys, call.request).Fresh? {
        WriteAllEffect(db, numbers, call, Numbers(numbers, call.request.addressing.All()),
                       ResolveSession(call.sessions, call.request.sessionId).value.id);
      }
      RunKeepsInv(numbers, calls);
    }
  }

  /** A fresh answer: one row, one created event and one job for each recipient, in the order of the request. */
  lemma FreshAnswerWrites(numbers: map<string, string>, db: Database, call: Call)
    requires OutcomeOf(db, numbers, call).Answered? && !OutcomeOf(db, numbers, call).wasReplayed
    ensures Precheck(numbers, call).None?
    ensures var recipients := Numbers(numbers, call.request.addressing.All());
            && OutcomeOf(db, numbers, call).ids == Block(db.nextId, |recipients|)
            && Extends(Draw(db, call.request), After(db, numbers, call).(keys := db.keys), db.nextId, recipients,
                       |recipients|,
                       ResolveSession(call.sessions, call.request.sessionId).value.id, call.request, call.now)
  {
    WriteAllEffect(db, numbers, call, Numbers(numbers, call.request.addressing.All()),
                   ResolveSession(call.sessions, call.request.sessionId).value.id);
  }

  /** The texts a request names, in its order. */
  function Named(request: Request): seq<string> {
    match request.addressing
    case Single(recipient) => [recipient]
    case Batch(recipients) => recipients
  }

  lemma NamedIsAll(request: Request)
    ensures Named(request) == request.addressing.All()
  {
  }

  /** A notification as it is made: waiting, for its schedule if it has one, and never tried. */
  predicate IsMadeFor(row: Notification, request: Request, now: int) {
    && row.status == (if request.scheduledAt.Some? then Scheduled else Queued)
    && row.createdAt == now && row.scheduledAt == request.scheduledAt
    && row.maximumAttempts == (if request.maximumAttempts.Some? then request.maximumAttempts.value else 5)
    && row.attemptCount == 0 && row.acknowledgement == 0
    && row.nextAttemptAt.None? && row.claimToken.None? && row.claimedAt.None?
    && row.providerMessageId.None? && row.failureCode.None?
  }

  lemma DraftIsThere(before: Database, after: Database, first: nat, recipients: seq<string>, sessionId: nat,
                     request: Request, now: int, k: nat)
    requires Extends(before, after, first, recipients, |recipients|, sessionId, request, now) && k < |recipients|
    ensures first + k in after.notifications
    ensures after.notifications[first + k] == DraftRow(recipients[k], sessionId, request, now)
    ensures |after.events| == |before.events| + |recipients| && |after.jobs| == |before.jobs| + |recipients|
    ensures after.events[|before.events| + k]
            == CreatedEvent(first + k, if request.scheduledAt.Some? then Scheduled else Queued)
    ensures after.jobs[|before.jobs| + k] == Job(first + k, request.scheduledAt)
  {
  }

  /** Column by column: the row of recipient `k`, its event and its job, as the request has them. */
  lemma FreshRowsSayTheRequest(numbers: map<string, string>, db: Database, call: Call, k: nat)
    requires OutcomeOf(db, numbers, call).Answered? && !OutcomeOf(db, numbers, call).wasReplayed
    requires k < |Named(call.request)|
    ensures var request, after := call.request, After(db, numbers, call);
            var id := db.nextId + k;
            && |OutcomeOf(db, numbers, call).ids| == |Named(request)| && OutcomeOf(db, numbers, call).ids[k] == id
            && Named(request)[k] in numbers && id in after.notifications
            && after.notifications[id].application == request.application
            && after.notifications[id].recipient == numbers[Named(request)[k]]
            && after.notifications[id].body == request.body
            && after.notifications[id].keyName
               == (if request.key.Some? then Some(KeyName(request.application, request.key.value)) else None)
            && IsMadeFor(after.notifications[id].row, request, call.now)
            && |after.events| == |db.events| + |Named(request)| && |after.jobs| == |db.jobs| + |Named(request)|
            && after.events[|db.events| + k] == CreatedEvent(id, after.notifications[id].row.status)
            && after.jobs[|db.jobs| + k] == Job(id, request.scheduledAt)
  {
    NamedIsAll(call.request);
    FreshAnswerWrites(numbers, db, call);
    DraftIsThere(Draw(db, call.request), After(db, numbers, call).(keys := db.keys), db.nextId,
                 Numbers(numbers, call.request.addressing.All()),
                 ResolveSession(call.sessions, call.request.sessionId).value.id, call.request, call.now, k);
  }

  /** And it is bound to a session of the application: the one asked for, or the best there is. */
  lemma FreshRowsHaveASession(numbers: map<string, string>, db: Database, call: Call, k: nat)
    requires OutcomeOf(db, numbers, call).Answered? && !OutcomeOf(db, numbers, call).wasReplayed
    requires k < |Named(call.request)|
    ensures var after, id := After(db, numbers, call), db.nextId + k;
            && id in after.notifications
            && (exists i :: 0 <= i < |call.sessions| && after.notifications[id].sessionId == call.sessions[i].id)
            && (call.request.sessionId.Some? ==> after.notifications[id].sessionId == call.request.sessionId.value)
  {
    NamedIsAll(call.request);
    FreshAnswerWrites(numbers, db, call);
    DraftIsThere(Draw(db, call.request), After(db, numbers, call).(keys := db.keys), db.nextId,
                 Numbers(numbers, call.request.addressing.All()),
                 ResolveSession(call.sessions, call.request.sessionId).value.id, call.request, call.now, k);
    ResolvedIsOneOfThem(call.sessions, call.request.sessionId);
  }

  lemma ResolvedIsOneOfThem(sessions: seq<Session>, requested: Option<nat>)
    requires ResolveSession(sessions, requested).Some?
    ensures exists i :: 0 <= i < |sessions| && ResolveSession(sessions, requested).value.id == sessions[i].id
    ensures requested.Some? ==> ResolveSession(sessions, requested).value.id == requested.value
  {
    if requested.Some? { FoundById(sessions, requested.value); } else { SessionIsBest(sessions); }
  }

  /** The checks before the key, in their order, each refused for its own reason and for no other. */
  lemma RefusedExactlyWhen(numbers: map<string, string>, db: Database, call: Call)
    ensures var request, outcome := call.request, OutcomeOf(db, numbers, call);
            var areNumbers := forall k :: 0 <= k < |Named(request)| ==> Named(request)[k] in numbers;
            var isPast := request.scheduledAt.Some? && request.scheduledAt.value <= call.now;
            && (outcome == Refused(InvalidPhoneNumber) <==> !areNumbers)
            && (outcome == Refused(InvalidSchedule) <==> areNumbers && isPast)
            && (outcome == Refused(SessionNotFound) <==>
                  && areNumbers && !isPast && request.sessionId.Some?
                  && forall i :: 0 <= i < |call.sessions| ==> call.sessions[i].id != request.sessionId.value)
            && (outcome == Refused(NoSession) <==>
                  areNumbers && !isPast && request.sessionId.None? && call.sessions == [])
  {
    NamedIsAll(call.request);
    SessionIsBest(call.sessions);
    if call.request.sessionId.Some? { FoundById(call.sessions, call.request.sessionId.value); }
    if forall k :: 0 <= k < |Named(call.request)| ==> Named(call.request)[k] in numbers {
      assert forall recipient | recipient in call.request.addressing.All() :: recipient in numbers;
    } else {
      var k :| 0 <= k < |Named(call.request)| && Named(call.request)[k] !in numbers;
      assert Named(call.request)[k] in call.request.addressing.All();
    }
  }

  /** Any other outcome leaves rows, events, jobs and keys as they were. */
  lemma OtherwiseNothingIsWritten(numbers: map<string, string>, db: Database, call: Call)
    requires OutcomeOf(db, numbers, call).Refused? || OutcomeOf(db, numbers, call).wasReplayed
    ensures After(db, numbers, call) == Draw(db, call.request)
  {
  }

  /** Repeating a request after the time it was scheduled for is refused, although the first was answered. */
  lemma LateRepeatIsRefused(session: Session)
    ensures var request := Request(1, Single("n"), "hello", None, Some(10), None, map[], Some("k"));
            var numbers := map["n" := "+1"];
            var calls := [Call(request, [session], 5), Call(request, [session], 10)];
            && OutcomeAt(numbers, calls, 0) == Answered([0], false)
            && OutcomeAt(numbers, calls, 1) == Refused(InvalidSchedule)
  {
    var request := Request(1, Single("n"), "hello", None, Some(10), None, map[], Some("k"));
    var numbers := map["n" := "+1"];
    var calls := [Call(request, [session], 5), Call(request, [session], 10)];
    SessionIsBest([session]);
    assert request.addressing.All() == ["n"];
    assert calls[..0] == [] && Run(numbers, []) == EMPTY;
    assert Block(0, 1) == [0];
  }
}
