/**
 * Creating notifications, one or a batch, under an optional idempotency key. A
 * request is one transaction: it claims the key, writes the rows, their first events
 * and their jobs, and completes the key, or it leaves no trace.
 */
module Creation {
  import opened Wrappers
  import opened Lifecycle
  import opened Rows

  /** One recipient and a list of one are different requests. */
  datatype Addressing = Single(recipient: string) | Batch(recipients: seq<string>) {
    function All(): seq<string> {
      if Single? then [recipient] else recipients
    }
  }

  datatype Request = Request(
    application: nat,
    addressing: Addressing,
    body: string,
    sessionId: Option<nat>,
    scheduledAt: Option<int>,
    maximumAttempts: Option<nat>,
    metadata: map<string, string>,
    key: Option<string>)

  /** The digest of a request, taken to be as good as what it digests: all but the key. */
  datatype Fingerprint = Fingerprint(
    application: nat,
    addressing: Addressing,
    body: string,
    sessionId: Option<nat>,
    scheduledAt: Option<int>,
    maximumAttempts: Option<nat>,
    metadata: map<string, string>)

  function FingerprintRequest(request: Request): Fingerprint {
    Fingerprint(request.application, request.addressing, request.body, request.sessionId,
                request.scheduledAt, request.maximumAttempts, request.metadata)
  }

  /** The digest tells any two requests apart that differ in more than the key they came under. */
  lemma FingerprintTellsRequestsApart(a: Request, b: Request)
    ensures FingerprintRequest(a) == FingerprintRequest(b) <==> a.(key := None) == b.(key := None)
  {
  }

  /** The digest of this very request, field by field. */
  predicate IsDigestOf(fingerprint: Fingerprint, request: Request) {
    && fingerprint.application == request.application && fingerprint.addressing == request.addressing
    && fingerprint.body == request.body && fingerprint.sessionId == request.sessionId
    && fingerprint.scheduledAt == request.scheduledAt
    && fingerprint.maximumAttempts == request.maximumAttempts && fingerprint.metadata == request.metadata
  }

  // ----- the session a notification is bound to -----

  datatype SessionStatus = Stopped | Starting | ScanQrCode | Working | SessionFailed | SessionUnknown

  datatype Session = Session(id: nat, status: SessionStatus)

  predicate CanSend(session: Session) {
    session.status == Working
  }

  predicate IsConnecting(session: Session) {
    session.status in {Starting, ScanQrCode}
  }

  function FindById(sessions: seq<Session>, id: nat): Option<Session> {
    if sessions == [] then None else if sessions[0].id == id then Some(sessions[0]) else FindById(sessions[1..], id)
  }

  function FindSending(sessions: seq<Session>): Option<Session> {
    if sessions == [] then None else if CanSend(sessions[0]) then Some(sessions[0]) else FindSending(sessions[1..])
  }

  function FindLastConnecting(sessions: seq<Session>): Option<Session> {
    if sessions == [] then None
    else if IsConnecting(sessions[|sessions| - 1]) then Some(sessions[|sessions| - 1])
    else FindLastConnecting(sessions[..|sessions| - 1])
  }

  /** The sessions of the application, oldest first. */
  function ResolveSession(sessions: seq<Session>, requested: Option<nat>): Option<Session> {
    if requested.Some? then FindById(sessions, requested.value)
    else if FindSending(sessions).Some? then FindSending(sessions)
    else if FindLastConnecting(sessions).Some? then FindLastConnecting(sessions)
    else if sessions != [] then Some(sessions[|sessions| - 1])
    else None
  }

  /** How good a session is to bind to when none was asked for. */
  function Preference(session: Session): nat {
    if session.status == Working then 2 else if session.status in {Starting, ScanQrCode} then 1 else 0
  }

  lemma {:induction false} FoundById(sessions: seq<Session>, id: nat)
    ensures FindById(sessions, id).Some? <==> exists i :: 0 <= i < |sessions| && sessions[i].id == id
    ensures FindById(sessions, id).Some?
      ==> FindById(sessions, id).value in sessions && FindById(sessions, id).value.id == id
  {
    if sessions != [] {
      FoundById(sessions[1..], id);
      assert forall i :: 0 < i < |sessions| ==> sessions[i] == sessions[1..][i - 1];
    }
  }

  /** The first that can send. */
  lemma {:induction false} FoundSending(sessions: seq<Session>)
    ensures FindSending(sessions).None? ==> forall i :: 0 <= i < |sessions| ==> !CanSend(sessions[i])
    ensures FindSending(sessions).Some? ==>
              exists i :: 0 <= i < |sessions| && sessions[i] == FindSending(sessions).value && CanSend(sessions[i])
                          && forall j :: 0 <= j < i ==> !CanSend(sessions[j])
  {
    if sessions != [] && !CanSend(sessions[0]) {
      var rest := sessions[1..];
      FoundSending(rest);
      assert forall i :: 0 < i < |sessions| ==> sessions[i] == rest[i - 1];
      if FindSending(rest).Some? {
        var i :| 0 <= i < |rest| && rest[i] == FindSending(rest).value && CanSend(rest[i])
              && forall j :: 0 <= j < i ==> !CanSend(rest[j]);
        assert sessions[i + 1] == FindSending(sessions).value;
      }
    }
  }

  /** The last that is being paired. */
  lemma {:induction false} FoundConnecting(sessions: seq<Session>)
    ensures FindLastConnecting(sessions).None? ==> forall i :: 0 <= i < |sessions| ==> !IsConnecting(sessions[i])
    ensures FindLastConnecting(sessions).Some? ==>
              exists i :: 0 <= i < |sessions| && sessions[i] == FindLastConnecting(sessions).value
                && IsConnecting(sessions[i])
                          && forall j :: i < j < |sessions| ==> !IsConnecting(sessions[j])
  {
    if sessions != [] {
      var n := |sessions| - 1;
      if IsConnecting(sessions[n]) {
        assert sessions[n] == FindLastConnecting(sessions).value;
      } else {
        FoundConnecting(sessions[..n]);
        assert forall i :: 0 <= i < n ==> sessions[..n][i] == sessions[i];
      }
    }
  }

  /**
   * Without a wish, any application with a session gets one, and none preferable to it exists.
   * Among equals it is the oldest that can send, or else the newest.
   */
  lemma SessionIsBest(sessions: seq<Session>)
    ensures ResolveSession(sessions, None).Some? <==> sessions != []
    ensures sessions != [] ==>
              exists i :: 0 <= i < |sessions| && ResolveSession(sessions, None) == Some(sessions[i])
                && (forall j :: 0 <= j < |sessions| ==> Preference(sessions[j]) <= Preference(sessions[i]))
                && (forall j :: 0 <= j < |sessions| && Preference(sessions[j]) == Preference(sessions[i]) ==>
                      if sessions[i].status == Working then i <= j else j <= i)
  {
    FoundSending(sessions);
    FoundConnecting(sessions);
    if sessions != [] {
      var chosen := ResolveSession(sessions, None).value;
      if CanSend(chosen) {
        var i :| 0 <= i < |sessions| && sessions[i] == chosen && forall j :: 0 <= j < i ==> !CanSend(sessions[j]);
      } else if IsConnecting(chosen) {
        var i :| 0 <= i < |sessions| && sessions[i] == chosen && forall j :: i < j < |sessions| ==>
          !IsConnecting(sessions[j]);
      } else {
        assert sessions[|sessions| - 1] == chosen;
      }
    }
  }

  // ----- the tables -----

  datatype KeyName = KeyName(application: nat, key: string)

  /** Completed by a single request with the one resource, by a batch with the list. */
  datatype KeyRecord = KeyRecord(
    lockToken: nat,
    fingerprint: Fingerprint,
    isCompleted: bool,
    resourceId: Option<nat>,
    notificationIds: Option<seq<nat>>)

  datatype Created = Created(
    application: nat, sessionId: nat, recipient: string, body: string, keyName: Option<KeyName>, row: Notification)

  datatype CreatedEvent = CreatedEvent(notificationId: nat, toStatus: Status)

  datatype Job = Job(notificationId: nat, startAfter: Option<int>)

  /** Only freshness of identifiers matters: each request draws its own block of them. */
  datatype Database = Database(
    keys: map<KeyName, KeyRecord>,
    notifications: map<nat, Created>,
    events: seq<CreatedEvent>,
    jobs: seq<Job>,
    nextId: nat)

  const EMPTY := Database(map[], map[], [], [], 0)
  const DEFAULT_MAXIMUM_ATTEMPTS := 5

  datatype Refusal =
    | InvalidPhoneNumber | InvalidSchedule | SessionNotFound | NoSession | KeyReused | KeyInFlight | Corrupted

  datatype Outcome = Answered(ids: seq<nat>, wasReplayed: bool) | Refused(reason: Refusal)

  /** A request, with what it meets: the application's sessions and the time. */
  datatype Call = Call(request: Request, sessions: seq<Session>, now: int)

  function NameOf(request: Request): Option<KeyName> {
    if request.key.Some? then Some(KeyName(request.application, request.key.value)) else None
  }

  /** Refusals that come before the key is looked at; `numbers` holds the texts that are phone numbers. */
  function Precheck(numbers: map<string, string>, call: Call): Option<Refusal> {
    var request := call.request;
    if exists recipient | recipient in request.addressing.All() :: recipient !in numbers then Some(InvalidPhoneNumber)
    else if request.scheduledAt.Some? && request.scheduledAt.value <= call.now then Some(InvalidSchedule)
    else if ResolveSession(call.sessions, request.sessionId).None? then
      Some(if request.sessionId.Some? then SessionNotFound else NoSession)
    else None
  }

  datatype Claim = Fresh | Replay(record: KeyRecord) | Conflict(reason: Refusal)

  function ClaimOf(keys: map<KeyName, KeyRecord>, request: Request): Claim {
    var name := NameOf(request);
    if name.None? || name.value !in keys then Fresh
    else
      var record := keys[name.value];
      if record.fingerprint != FingerprintRequest(request) then Conflict(KeyReused)
      else if record.isCompleted then Replay(record)
      else Conflict(KeyInFlight)
  }

  function WriteNotification(db: Database, id: nat, recipient: string, sessionId: nat, request: Request,
                             now: int): Database {
    var row := NewNotification(now, request.scheduledAt, request.maximumAttempts.GetOr(DEFAULT_MAXIMUM_ATTEMPTS));
    db.(notifications := db.notifications[id := Created(request.application, sessionId, recipient, request.body,
                                                        NameOf(request), row)],
        events := db.events + [CreatedEvent(id, row.status)],
        jobs := db.jobs + [Job(id, request.scheduledAt)])
  }

  /** The drafts up to `count`, in request order; draft k has identifier `first + k`. */
  function WriteDrafts(db: Database, first: nat, recipients: seq<string>, count: nat, sessionId: nat,
                       request: Request, now: int): Database
    requires count <= |recipients|
  {
    if count == 0 then db
    else WriteNotification(WriteDrafts(db, first, recipients, count - 1, sessionId, request, now),
                           first + count - 1, recipients[count - 1], sessionId, request, now)
  }

  function InsertKey(keys: map<KeyName, KeyRecord>, request: Request, token: nat): map<KeyName, KeyRecord> {
    if request.key.None? then keys
    else keys[NameOf(request).value := KeyRecord(token, FingerprintRequest(request), false, None, None)]
  }

  /** Guarded by the lock token the claim wrote. */
  function CompleteKey(keys: map<KeyName, KeyRecord>, request: Request, token: nat,
                       ids: seq<nat>): map<KeyName, KeyRecord> {
    var name := NameOf(request);
    if name.None? || name.value !in keys || keys[name.value].lockToken != token then keys
    else
      var record := keys[name.value];
      keys[name.value :=
        if request.addressing.Single? && |ids| == 1
        then record.(isCompleted := true, resourceId := Some(ids[0]))
        else record.(isCompleted := true, notificationIds := Some(ids))]
  }

  function Block(first: nat, count: nat): seq<nat> {
    seq(count, k requires 0 <= k < count => first + k)
  }

  function Numbers(numbers: map<string, string>, recipients: seq<string>): seq<string>
    requires forall recipient | recipient in recipients :: recipient in numbers
  {
    seq(|recipients|, k requires 0 <= k < |recipients| => numbers[recipients[k]])
  }

  /** What a replay reads back; a record without the identifiers its kind of request stores is corrupt. */
  function ReadBack(db: Database, addressing: Addressing, record: KeyRecord): Outcome {
    var ids := if addressing.Single?
               then (if record.resourceId.Some? then Some([record.resourceId.value]) else None)
               else record.notificationIds;
    if ids.None? || exists id | id in ids.value :: id !in db.notifications then Refused(Corrupted)
    else Answered(ids.value, true)
  }

  function Draw(db: Database, request: Request): Database {
    db.(nextId := db.nextId + |request.addressing.All()| + 1)
  }

  /** A fresh request: the claim, the drafts and the completion, with the identifiers drawn from `first`. */
  function WriteAll(db: Database, first: nat, numbers: map<string, string>, call: Call): Database
    requires Precheck(numbers, call).None?
  {
    var request := call.request;
    var recipients := Numbers(numbers, request.addressing.All());
    var token := first + |recipients|;
    var claimed := db.(keys := InsertKey(db.keys, request, token));
    var sessionId := ResolveSession(call.sessions, request.sessionId).value.id;
    var written := WriteDrafts(claimed, first, recipients, |recipients|, sessionId, request, call.now);
    written.(keys := CompleteKey(written.keys, request, token, Block(first, |recipients|)))
  }

  function After(db: Database, numbers: map<string, string>, call: Call): Database {
    if Precheck(numbers, call).None? && ClaimOf(db.keys, call.request).Fresh?
    then WriteAll(Draw(db, call.request), db.nextId, numbers, call)
    else Draw(db, call.request)
  }

  function OutcomeOf(db: Database, numbers: map<string, string>, call: Call): Outcome {
    if Precheck(numbers, call).Some? then Refused(Precheck(numbers, call).value)
    else match ClaimOf(db.keys, call.request)
      case Fresh => Answered(Block(db.nextId, |call.request.addressing.All()|), false)
      case Replay(record) => ReadBack(db, call.request.addressing, record)
      case Conflict(reason) => Refused(reason)
  }

  // ----- the service -----

  class CreateNotification {
    var keys: map<KeyName, KeyRecord>
    var notifications: map<nat, Created>
    var events: seq<CreatedEvent>
    var jobs: seq<Job>
    var nextId: nat
    const numbers: map<string, string>

    constructor (numbers: map<string, string>)
      ensures Contents() == EMPTY && this.numbers == numbers
    {
      this.numbers := numbers;
      keys, notifications, events, jobs, nextId := map[], map[], [], [], 0;
    }

    ghost function Contents(): Database
      reads this
    {
      Database(keys, notifications, events, jobs, nextId)
    }

    method Insert(id: nat, recipient: string, sessionId: nat, request: Request, now: int)
      modifies this`notifications, this`events, this`jobs
      ensures Contents() == WriteNotification(old(Contents()), id, recipient, sessionId, request, now)
    {
      var status := if request.scheduledAt.Some? then Scheduled else Queued;
      var row := NewNotification(now, request.scheduledAt, request.maximumAttempts.GetOr(DEFAULT_MAXIMUM_ATTEMPTS));
      notifications := notifications[id := Created(request.application, sessionId, recipient, request.body,
                                                   NameOf(request), row)];
      events := events + [CreatedEvent(id, status)];
      jobs := jobs + [Job(id, request.scheduledAt)];
    }

    method ClaimIdempotencyKey(request: Request, fingerprint: Fingerprint, token: nat) returns (claim: Claim)
      requires fingerprint == FingerprintRequest(request)
      modifies this`keys
      ensures claim == ClaimOf(old(keys), request)
      ensures keys == if claim.Fresh? then InsertKey(old(keys), request, token) else old(keys)
      ensures request.key.None? ==> claim.Fresh? && keys == old(keys)
      ensures request.key.Some? ==>
                var name := KeyName(request.application, request.key.value);
                && (claim.Fresh? <==> name !in old(keys))
                && (claim.Fresh? ==>
                      && IsDigestOf(fingerprint, request)
                      && keys == old(keys)[name := KeyRecord(token, fingerprint, false, None, None)])
                && (claim == Conflict(KeyReused)
                    <==> name in old(keys) && !IsDigestOf(old(keys)[name].fingerprint, request))
                && (claim.Replay? <==> name in old(keys) && IsDigestOf(old(keys)[name].fingerprint, request)
                                       && old(keys)[name].isCompleted)
                && (claim.Replay? ==> claim.record == old(keys)[name])
                && (claim.Conflict? ==> claim.reason in {KeyReused, KeyInFlight})
    {
      if request.key.None? {
        return Fresh;
      }
      var name := KeyName(request.application, request.key.value);
      if name !in keys {
        keys := keys[name := KeyRecord(token, fingerprint, false, None, None)];
        return Fresh;
      }
      var record := keys[name];
      if record.fingerprint != fingerprint {
        return Conflict(KeyReused);
      }
      if record.isCompleted {
        return Replay(record);
      }
      claim := Conflict(KeyInFlight);
    }

    method CompleteSingle(request: Request, token: nat, id: nat)
      requires request.addressing.Single?
      modifies this`keys
      ensures keys == CompleteKey(old(keys), request, token, [id])
      ensures forall name :: name in old(keys) && (request.key.None? || old(keys)[name].lockToken != token) ==>
                name in keys && keys[name] == old(keys)[name]
    {
      if request.key.Some? {
        var name := KeyName(request.application, request.key.value);
        if name in keys && keys[name].lockToken == token {
          keys := keys[name := keys[name].(isCompleted := true, resourceId := Some(id))];
        }
      }
    }

    method CompleteBatch(request: Request, token: nat, ids: seq<nat>)
      requires request.addressing.Batch?
      modifies this`keys
      ensures keys == CompleteKey(old(keys), request, token, ids)
      ensures forall name :: name in old(keys) && (request.key.None? || old(keys)[name].lockToken != token) ==>
                name in keys && keys[name] == old(keys)[name]
    {
      if request.key.Some? {
        var name := KeyName(request.application, request.key.value);
        if name in keys && keys[name].lockToken == token {
          keys := keys[name := keys[name].(isCompleted := true, notificationIds := Some(ids))];
        }
      }
    }

    /** A completed batch is answered with the notifications it recorded, all of them or none. */
    method ReadAll(record: KeyRecord) returns (outcome: Outcome)
      ensures outcome.Answered? ==>
                && record.notificationIds == Some(outcome.ids) && outcome.wasReplayed
                && forall id :: id in outcome.ids ==> id in notifications
      ensures forall recipients :: outcome == ReadBack(Contents(), Batch(recipients), record)
    {
      if record.notificationIds.None? || exists id | id in record.notificationIds.value :: id !in notifications {
        return Refused(Corrupted);
      }
      outcome := Answered(record.notificationIds.value, true);
    }

    method Create(call: Call) returns (outcome: Outcome)
      requires call.request.addressing.Single?
      modifies this
      ensures Contents() == After(old(Contents()), numbers, call)
      ensures outcome == OutcomeOf(old(Contents()), numbers, call)
    {
      var request := call.request;
      var notificationId, lockToken := nextId, nextId + 1;
      nextId := nextId + 2;
      assert request.addressing.All() == [request.addressing.recipient];
      if request.addressing.recipient !in numbers {
        return Refused(InvalidPhoneNumber);
      }
      if request.scheduledAt.Some? && request.scheduledAt.value <= call.now {
        return Refused(InvalidSchedule);
      }
      var session := ResolveSession(call.sessions, request.sessionId);
      if session.None? {
        return Refused(if request.sessionId.Some? then SessionNotFound else NoSession);
      }
      var claim := ClaimIdempotencyKey(request, FingerprintRequest(request), lockToken);
      if claim.Conflict? {
        return Refused(claim.reason);
      }
      if claim.Replay? {
        if claim.record.resourceId.None? || claim.record.resourceId.value !in notifications {
          return Refused(Corrupted);
        }
        return Answered([claim.record.resourceId.value], true);
      }
      ghost var claimed := Contents();
      var recipient := numbers[request.addressing.recipient];
      assert Numbers(numbers, request.addressing.All()) == [recipient];
      Insert(notificationId, recipient, session.value.id, request, call.now);
      assert Contents() == WriteDrafts(claimed, notificationId, [recipient], 1, session.value.id, request,
                                       call.now) by {
        assert WriteDrafts(claimed, notificationId, [recipient], 0, session.value.id, request, call.now) == claimed;
      }
      CompleteSingle(request, lockToken, notificationId);
      assert Block(notificationId, 1) == [notificationId];
      outcome := Answered([notificationId], false);
    }

    /** The drafts, one after another: every write shares the transaction's one connection. */
    method WriteBatch(call: Call, ids: seq<nat>, recipients: seq<string>, sessionId: nat)
      requires |ids| == |recipients| && (|ids| > 0 ==> ids == Block(ids[0], |ids|))
      modifies this`notifications, this`events, this`jobs
      ensures Contents() == WriteDrafts(old(Contents()), if ids == [] then 0 else ids[0], recipients, |recipients|,
                                        sessionId, call.request, call.now)
    {
      ghost var first := if ids == [] then 0 else ids[0];
      for i := 0 to |recipients|
        invariant Contents() == WriteDrafts(old(Contents()), first, recipients, i, sessionId, call.request, call.now)
      {
        Insert(ids[i], recipients[i], sessionId, call.request, call.now);
      }
    }

    method CreateBatch(call: Call) returns (outcome: Outcome)
      requires call.request.addressing.Batch?
      modifies this
      ensures Contents() == After(old(Contents()), numbers, call)
      ensures outcome == OutcomeOf(old(Contents()), numbers, call)
    {
      var request := call.request;
      var recipients := request.addressing.recipients;
      var ids := Block(nextId, |recipients|);
      var lockToken := nextId + |recipients|;
      nextId := lockToken + 1;
      if exists recipient | recipient in recipients :: recipient !in numbers {
        return Refused(InvalidPhoneNumber);
      }
      if request.scheduledAt.Some? && request.scheduledAt.value <= call.now {
        return Refused(InvalidSchedule);
      }
      var session := ResolveSession(call.sessions, request.sessionId);
      if session.None? {
        return Refused(if request.sessionId.Some? then SessionNotFound else NoSession);
      }
      var claim := ClaimIdempotencyKey(request, FingerprintRequest(request), lockToken);
      if claim.Conflict? {
        return Refused(claim.reason);
      }
      if claim.Replay? {
        outcome := ReadAll(claim.record);
        return;
      }
      WriteBatch(call, ids, Numbers(numbers, recipients), session.value.id);
      CompleteBatch(request, lockToken, ids);
      outcome := Answered(ids, false);
    }
  }
}
