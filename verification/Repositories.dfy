/**
 * The notification table of all applications, updated in place: each statement finds
 * its row by application and identifier, and touches no other. Whatever workers,
 * the reaper, cancellations and callbacks do to the table is a sequence of these.
 */
module Repositories {
  import opened Wrappers
  import opened Identifiers
  import opened Lifecycle
  import R = Rows

  datatype Stored = Stored(application: nat, session: nat, row: R.Notification, ledger: R.Ledger)

  type Table = map<nat, Stored>

  datatype Event = Event(notificationId: nat, fromStatus: Status, toStatus: Status)

  const EVENT_INSERT_BATCH_SIZE := 1000

  predicate IsOwned(table: Table, application: nat, id: nat) {
    id in table && table[id].application == application
  }

  /** The table with one row replaced, or as it was when the statement matched none. */
  function Updated(table: Table, id: nat, row: Option<R.Notification>): Table {
    if row.Some? && id in table then table[id := table[id].(row := row.value)] else table
  }

  /** Each statement or transaction that moves one notification or its ledger. */
  datatype Statement =
    | Promote(now: int)
    | Claim(token: R.Token, now: int)
    | BeginOne(token: R.Token, chat: string)
    | Transition(expected: Status, changes: R.Changes)
    | ResolveOne(attempt: nat, resolved: R.Attempt)
    | RecordSent(changes: R.Changes, attempt: nat, resolved: R.Attempt)

  function Affect(stored: Stored, statement: Statement): Stored {
    match statement
    case Promote(now) => stored.(row := R.PromoteScheduled(stored.row, now).GetOr(stored.row))
    case Claim(token, now) => stored.(row := R.ClaimForDispatch(stored.row, token, now).GetOr(stored.row))
    case BeginOne(token, chat) =>
      var row := R.BeginAttempt(stored.row, token, chat);
      if row.None? || row.value.attemptCount in stored.ledger then stored
      else stored.(row := row.value, ledger := stored.ledger[row.value.attemptCount := R.Attempt(None, None, None)])
    case Transition(expected, changes) =>
      stored.(row := R.ApplyTransition(stored.row, expected, changes).GetOr(stored.row))
    case ResolveOne(attempt, resolved) => stored.(ledger := R.Resolve(stored.ledger, attempt, resolved))
    case RecordSent(changes, attempt, resolved) =>
      if stored.row.status != Processing then stored
      else stored.(row := R.Write(stored.row, changes), ledger := R.Resolve(stored.ledger, attempt, resolved))
  }

  function Execute(table: Table, application: nat, id: nat, statement: Statement): Table {
    if IsOwned(table, application, id) then table[id := Affect(table[id], statement)] else table
  }

  /** Another tenant's row, and any other row, is as it was; an owner never changes. */
  ghost predicate OnlyTouches(before: Table, after: Table, application: nat, id: nat) {
    && after.Keys == before.Keys
    && (forall other :: other in before && (other != id || before[other].application != application) ==>
          after[other] == before[other])
    && forall other :: other in before ==>
         after[other].application == before[other].application && after[other].session == before[other].session
  }

  // ----- cancelling -----

  predicate IsWaiting(stored: Stored, application: nat, session: Option<nat>) {
    && stored.application == application
    && stored.row.status in {Queued, Retrying}
    && (session.Some? ==> stored.session == session.value)
  }

  /** What waits, but for the rows a worker holds locked. */
  function Waiting(table: Table, application: nat, session: Option<nat>, locked: set<nat>): set<nat> {
    set id | id in table && id !in locked && IsWaiting(table[id], application, session)
  }

  /** Only what is QUEUED or RETRYING waits to be cancelled. */
  lemma OnlyWaitingIsCancelled(row: R.Notification, now: int)
    ensures R.CancelWaitingRow(row, now).Some? <==> row.status == Queued || row.status == Retrying
  {
  }

  function CancelAll(table: Table, ids: set<nat>, now: int): Table {
    map id | id in table ::
      if id in ids then table[id].(row := R.CancelWaitingRow(table[id].row, now).GetOr(table[id].row)) else table[id]
  }

  function CancelledEvents(table: Table, ids: seq<nat>): seq<Event>
    requires forall id | id in ids :: id in table
  {
    seq(|ids|, i requires 0 <= i < |ids| => Event(ids[i], table[ids[i]].row.status, Cancelled))
  }

  /** One notification cancelled on its own, with its event. */
  function CancelOne(table: Table, id: nat, now: int): Table
    requires id in table
  {
    Updated(table, id, R.ApplyTransition(table[id].row, table[id].row.status, R.ToCancelled(now)))
  }

  function CancelOneByOne(table: Table, ids: seq<nat>, now: int): (result: Table)
    requires forall id | id in ids :: id in table
    ensures result.Keys == table.Keys
  {
    if ids == [] then table else CancelOne(CancelOneByOne(table, ids[..|ids| - 1], now), ids[|ids| - 1], now)
  }

  /** The members of a set, each once, in some order. */
  ghost predicate Enumerates(ids: seq<nat>, members: set<nat>) {
    IsDistinct(ids) && forall id :: id in ids <==> id in members
  }

  lemma {:induction false} OneByOneRow(table: Table, ids: seq<nat>, now: int, id: nat)
    requires id in table && forall other | other in ids :: other in table
    ensures CancelOneByOne(table, ids, now)[id]
            == if id in ids then table[id].(row := table[id].row.(status := Cancelled, cancelledAt := Some(now)))
              else table[id]
    decreases |ids|
  {
    if ids != [] {
      var earlier := ids[..|ids| - 1];
      OneByOneRow(table, earlier, now, id);
      assert ids == earlier + [ids[|ids| - 1]];
    }
  }

  /** Cancelling in bulk is cancelling one after another, except that it also forgets when the next attempt was due. */
  lemma BulkIsOneByOne(table: Table, ids: seq<nat>, members: set<nat>, now: int, id: nat)
    requires Enumerates(ids, members) && id in table && forall other | other in ids ::
      other in table && table[other].row.status in {Queued, Retrying}
    ensures var bulk := CancelAll(table, members, now);
            var single := CancelOneByOne(table, ids, now);
            bulk[id] == if id in ids then single[id].(row := single[id].row.(nextAttemptAt := None)) else single[id]
  {
    OneByOneRow(table, ids, now, id);
  }

  datatype CancelResult = CancelledNow(row: R.Notification) | NotFound | NotCancellable(status: Status)

  class NotificationRepository {
    var notifications: Table
    var events: seq<Event>

    constructor (notifications: Table)
      ensures this.notifications == notifications && events == []
    {
      this.notifications, events := notifications, [];
    }

    /** A notification is found by its own application, and never by another. */
    method FindById(application: nat, id: nat) returns (found: Option<Stored>)
      ensures found.Some? <==> IsOwned(notifications, application, id)
      ensures found.Some? ==> found.value == notifications[id] && found.value.application == application
    {
      found := if IsOwned(notifications, application, id) then Some(notifications[id]) else None;
    }

    method ClaimForDispatch(application: nat, id: nat, token: R.Token, now: int)
      returns (claimed: Option<R.Notification>)
      modifies this`notifications
      ensures OnlyTouches(old(notifications), notifications, application, id)
      ensures claimed.Some?
        <==> IsOwned(old(notifications), application, id)
             && (old(notifications)[id].row.status == Queued
                 || (old(notifications)[id].row.status == Retrying
                     && old(notifications)[id].row.nextAttemptAt.Some?
                     && old(notifications)[id].row.nextAttemptAt.value <= now))
      ensures claimed.Some? ==>
                && notifications[id].row == claimed.value
                && claimed.value == old(notifications)[id].row.(status := Processing, claimToken := Some(token),
                                                                claimedAt := Some(now))
      ensures notifications == Execute(old(notifications), application, id, Claim(token, now))
    {
      claimed := None;
      if IsOwned(notifications, application, id) {
        claimed := R.ClaimForDispatch(notifications[id].row, token, now);
        notifications := Updated(notifications, id, claimed);
      }
    }

    method PromoteScheduled(application: nat, id: nat, now: int) returns (promoted: Option<R.Notification>)
      modifies this`notifications
      ensures OnlyTouches(old(notifications), notifications, application, id)
      ensures promoted.Some? <==>
                && IsOwned(old(notifications), application, id)
                && old(notifications)[id].row.status == Scheduled
                && old(notifications)[id].row.scheduledAt.Some? && old(notifications)[id].row.scheduledAt.value <= now
      ensures promoted.Some? ==>
                notifications[id].row == promoted.value == old(notifications)[id].row.(status := Queued)
      ensures promoted.None? ==> notifications == old(notifications)
      ensures notifications == Execute(old(notifications), application, id, Promote(now))
    {
      promoted := None;
      if IsOwned(notifications, application, id) {
        promoted := R.PromoteScheduled(notifications[id].row, now);
        notifications := Updated(notifications, id, promoted);
      }
    }

    /** The status alone is compared; whoever holds the claim is not asked. */
    method ApplyTransition(application: nat, id: nat, expected: Status, changes: R.Changes)
      returns (updated: Option<R.Notification>)
      modifies this`notifications
      ensures OnlyTouches(old(notifications), notifications, application, id)
      ensures updated.Some? <==>
                IsOwned(old(notifications), application, id) && old(notifications)[id].row.status == expected
      ensures updated.Some? ==>
                && notifications[id].row == updated.value && updated.value.status == R.NextStatus(changes)
                && updated.value.attemptCount == old(notifications)[id].row.attemptCount
                && notifications[id].ledger == old(notifications)[id].ledger
                && (R.NextStatus(changes) in {Sent, Retrying, Failed} && !changes.ToAcknowledged? ==>
                      updated.value.claimToken.None? && updated.value.claimedAt.None?)
      ensures updated.None? ==> notifications == old(notifications)
      ensures notifications == Execute(old(notifications), application, id, Transition(expected, changes))
    {
      updated := None;
      if IsOwned(notifications, application, id) {
        updated := R.ApplyTransition(notifications[id].row, expected, changes);
        notifications := Updated(notifications, id, updated);
      }
    }

    /** One transaction: the attempt is counted and its ledger row inserted, or the insert fails and neither is. */
    method BeginAttempt(application: nat, id: nat, token: R.Token, chat: string) returns (attempt: Option<nat>)
      modifies this`notifications
      ensures OnlyTouches(old(notifications), notifications, application, id)
      ensures attempt.Some? <==>
                && IsOwned(old(notifications), application, id)
                && old(notifications)[id].row.status == Processing
                  && old(notifications)[id].row.claimToken == Some(token)
                && old(notifications)[id].row.attemptCount + 1 !in old(notifications)[id].ledger
      ensures attempt.Some? ==>
                && attempt.value == old(notifications)[id].row.attemptCount + 1 == notifications[id].row.attemptCount
                && notifications[id].ledger
                  == old(notifications)[id].ledger[attempt.value := R.Attempt(None, None, None)]
                && notifications[id].row.recipientChat == Some(chat)
                && notifications[id].row.status == Processing && notifications[id].row.claimToken == Some(token)
      ensures attempt.None? ==> notifications == old(notifications)
      ensures notifications == Execute(old(notifications), application, id, BeginOne(token, chat))
    {
      attempt := None;
      if IsOwned(notifications, application, id) {
        var stored := notifications[id];
        var row := R.BeginAttempt(stored.row, token, chat);
        if row.Some? {
          var ledger := R.Begin(stored.ledger, row.value.attemptCount);
          if ledger.Some? {
            notifications := notifications[id := stored.(row := row.value, ledger := ledger.value)];
            attempt := Some(row.value.attemptCount);
          }
        }
      }
    }

    /** Overwrites whatever outcome the attempt has; an attempt that is not there is passed over. */
    method ResolveAttempt(application: nat, id: nat, attempt: nat, resolved: R.Attempt)
      modifies this`notifications
      ensures OnlyTouches(old(notifications), notifications, application, id)
      ensures IsOwned(old(notifications), application, id) && attempt in old(notifications)[id].ledger ==>
                && notifications[id].ledger == old(notifications)[id].ledger[attempt := resolved]
                && notifications[id].row == old(notifications)[id].row
      ensures !(IsOwned(old(notifications), application, id) && attempt in old(notifications)[id].ledger) ==>
                notifications == old(notifications)
      ensures notifications == Execute(old(notifications), application, id, ResolveOne(attempt, resolved))
    {
      if IsOwned(notifications, application, id) {
        var ledger := R.Resolve(notifications[id].ledger, attempt, resolved);
        notifications := notifications[id := notifications[id].(ledger := ledger)];
      }
    }

    /** One transaction: the row becomes SENT and its attempt SUCCEEDED, or neither does. */
    method RecordSend(application: nat, id: nat, changes: R.Changes, attempt: nat, resolved: R.Attempt)
      returns (wasRecorded: bool)
      requires changes.ToSent?
      modifies this`notifications
      ensures OnlyTouches(old(notifications), notifications, application, id)
      ensures wasRecorded
        <==> IsOwned(old(notifications), application, id) && old(notifications)[id].row.status == Processing
      ensures wasRecorded ==>
                && notifications[id].row.status == Sent
                && notifications[id].row.providerMessageId == Some(changes.providerMessageId)
                && notifications[id].ledger == R.Resolve(old(notifications)[id].ledger, attempt, resolved)
      ensures !wasRecorded ==> notifications == old(notifications)
      ensures notifications == Execute(old(notifications), application, id, RecordSent(changes, attempt, resolved))
    {
      var transitioned := ApplyTransition(application, id, Processing, changes);
      if transitioned.None? {
        return false;
      }
      ResolveAttempt(application, id, attempt, resolved);
      wasRecorded := true;
    }

    /** A bounded number of events per statement; all of them, in order, whatever their number. */
    method AppendEvents(inputs: seq<Event>)
      modifies this`events
      ensures events == old(events) + inputs
    {
      var start := 0;
      while start < |inputs|
        invariant 0 <= start
        invariant events == old(events) + inputs[..if start <= |inputs| then start else |inputs|]
      {
        var end := if start + EVENT_INSERT_BATCH_SIZE <= |inputs| then start + EVENT_INSERT_BATCH_SIZE else |inputs|;
        assert inputs[..end] == inputs[..start] + inputs[start..end];
        events := events + inputs[start..end];
        start := start + EVENT_INSERT_BATCH_SIZE;
      }
      assert inputs[..|inputs|] == inputs;
    }

    /** The one statement; the rows come back in whatever order they were found. */
    method CancelWaiting(application: nat, session: Option<nat>, locked: set<nat>, now: int)
      returns (cancelled: seq<Event>, ghost ids: seq<nat>)
      modifies this`notifications
      ensures Enumerates(ids, Waiting(old(notifications), application, session, locked))
      ensures forall id :: id in ids <==>
                && id in old(notifications) && id !in locked && old(notifications)[id].application == application
                && (old(notifications)[id].row.status == Queued || old(notifications)[id].row.status == Retrying)
                && (session.None? || session == Some(old(notifications)[id].session))
      ensures notifications.Keys == old(notifications).Keys
      ensures forall id :: id in old(notifications) ==>
                notifications[id] == if id in ids
                  then old(notifications)[id].(row := old(notifications)[id].row.(status := Cancelled,
                         cancelledAt := Some(now), nextAttemptAt := None))
                  else old(notifications)[id]
      ensures cancelled == CancelledEvents(old(notifications), ids)
      ensures |cancelled| == |ids| && forall i :: 0 <= i < |ids| ==>
                ids[i] in old(notifications)
                && cancelled[i] == Event(ids[i], old(notifications)[ids[i]].row.status, Cancelled)
      ensures notifications
        == CancelAll(old(notifications), Waiting(old(notifications), application, session, locked), now)
    {
      var table := notifications;
      var left := Waiting(table, application, session, locked);
      cancelled, ids := [], [];
      while left != {}
        invariant left <= Waiting(table, application, session, locked)
        invariant Enumerates(ids, Waiting(table, application, session, locked) - left)
        invariant cancelled == CancelledEvents(table, ids)
        decreases |left|
      {
        var id :| id in left;
        cancelled := cancelled + [Event(id, table[id].row.status, Cancelled)];
        ids := ids + [id];
        left := left - {id};
      }
      notifications := CancelAll(table, Waiting(table, application, session, locked), now);
    }

    /** Cancels what waits, of the application or of one of its connections, with an event for each. */
    method CancelEverythingWaiting(application: nat, session: Option<nat>, locked: set<nat>, now: int)
      returns (count: nat)
      modifies this`notifications, this`events
      ensures count == |Waiting(old(notifications), application, session, locked)|
      ensures notifications
        == CancelAll(old(notifications), Waiting(old(notifications), application, session, locked), now)
      ensures exists ids: seq<nat> ::
                && Enumerates(ids, Waiting(old(notifications), application, session, locked))
                && events == old(events) + CancelledEvents(old(notifications), ids)
    {
      ghost var ids;
      var cancelled;
      cancelled, ids := CancelWaiting(application, session, locked, now);
      AppendEvents(cancelled);
      count := |cancelled|;
      EnumerationSize(ids, Waiting(old(notifications), application, session, locked));
    }

    /** `existing` was read before the update, and may be out of date by the time of it. */
    method Cancel(application: nat, id: nat, existing: Option<R.Notification>, now: int) returns (result: CancelResult)
      modifies this`notifications, this`events
      ensures result.CancelledNow? <==>
                && existing.Some? && existing.value.status in {Scheduled, Queued, Retrying}
                && IsOwned(old(notifications), application, id)
                && old(notifications)[id].row.status == existing.value.status
      ensures result.CancelledNow? ==>
                && notifications == CancelOne(old(notifications), id, now)
                && notifications == old(notifications)[id := old(notifications)[id].(row :=
                     old(notifications)[id].row.(status := Cancelled, cancelledAt := Some(now)))]
                && result.row == notifications[id].row
                && events == old(events) + [Event(id, old(notifications)[id].row.status, Cancelled)]
      ensures !result.CancelledNow? ==> notifications == old(notifications) && events == old(events)
      ensures result.NotFound? <==> existing.None?
      ensures result.NotCancellable? ==> existing.Some? && result.status == existing.value.status
    {
      if existing.None? {
        return NotFound;
      }
      var status := existing.value.status;
      if !IsCancellable(status) {
        return NotCancellable(status);
      }
      var cancelled := ApplyTransition(application, id, status, R.ToCancelled(now));
      if cancelled.None? {
        return NotCancellable(status);
      }
      events := events + [Event(id, status, Cancelled)];
      result := CancelledNow(cancelled.value);
    }
  }

  lemma {:induction false} EnumerationSize(ids: seq<nat>, members: set<nat>)
    requires Enumerates(ids, members)
    ensures |members| == |ids|
    decreases |ids|
  {
    if ids == [] {
      assert members == {};
    } else {
      var n := |ids| - 1;
      assert ids == ids[..n] + [ids[n]] && ids[n] in members;
      EnumerationSize(ids[..n], members - {ids[n]});
    }
  }
}
