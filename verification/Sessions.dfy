/** One WhatsApp connection: when it may send next, and until when it is paused. */
module Sessions {
  import opened Wrappers

  datatype Timelock = Timelock(isActive: bool, endsAt: Option<int>)

  /** What a report says; a missing timelock is one not known to be in force. */
  datatype AccountLimits = AccountLimits(timelock: Option<Timelock>)

  /**
   * The session row. Pauses are written from a program's millisecond dates;
   * the pacing instant is computed by the database, in microseconds.
   */
  datatype Session = Session(
    minimumSeconds: nat,
    maximumSeconds: nat,
    nextSendAllowedAt: int,
    pausedUntil: Option<int>,
    limitsCheckedAt: Option<int>)

  const MICROS_PER_MILLISECOND := 1000
  const MICROS_PER_SECOND := 1_000_000

  function Later(x: int, y: int): int {
    if x < y then y else x
  }

  // ----- deciding a pause -----

  function FindPauseEnd(limits: Option<AccountLimits>, refused: bool, now: int, fallbackMs: nat): Option<int> {
    var fallback := now + fallbackMs;
    if limits.Some? && limits.value.timelock.Some? && limits.value.timelock.value.isActive then
      var endsAt := limits.value.timelock.value.endsAt;
      if endsAt.Some? && endsAt.value > now then endsAt else Some(fallback)
    else if refused then Some(fallback)
    else None
  }

  function ResolveSendingPause(limits: Option<AccountLimits>, refused: bool, current: Option<int>, now: int,
                               fallbackMs: nat): Option<int>
  {
    match FindPauseEnd(limits, refused, now, fallbackMs)
    case None => None
    case Some(candidate) =>
      Some(if current.Some? && current.value > candidate then current.value else candidate)
  }

  predicate IsSendingPaused(pausedUntil: Option<int>, now: int) {
    pausedUntil.Some? && pausedUntil.value > now
  }

  /** A pause is called for exactly by an active timelock or a refusal; it ends after now and shortens nothing. */
  lemma PauseEndsLater(limits: Option<AccountLimits>, refused: bool, current: Option<int>, now: int, fallbackMs: nat)
    requires fallbackMs > 0
    ensures var pause := ResolveSendingPause(limits, refused, current, now, fallbackMs);
            && (pause.Some? <==>
                  refused || (limits.Some? && limits.value.timelock.Some? && limits.value.timelock.value.isActive))
            && (pause.Some? ==> pause.value > now)
            && (pause.Some? && current.Some? ==> pause.value >= current.value)
  {
  }

  /**
   * Until when a report or a refusal stops the connection: to the end WhatsApp gave for an active
   * timelock, if that is still to come; for the fallback, if it gave none or refused without one;
   * not at all otherwise. A pause already in force for longer stays.
   */
  lemma PauseLastsAsReported(limits: Option<AccountLimits>, refused: bool, current: Option<int>, now: int,
                             fallbackMs: nat)
    ensures var pause := ResolveSendingPause(limits, refused, current, now, fallbackMs);
            var isActive := limits.Some? && limits.value.timelock.Some? && limits.value.timelock.value.isActive;
            var endsAt := if isActive then limits.value.timelock.value.endsAt else None;
            && (pause.None? <==> !isActive && !refused)
            && (endsAt.Some? && endsAt.value > now ==> IsLater(pause, endsAt.value, current))
            && (pause.Some? && !(endsAt.Some? && endsAt.value > now) ==> IsLater(pause, now + fallbackMs, current))
  {
  }

  /** The later of an instant and the one in force, if there is one. */
  predicate IsLater(pause: Option<int>, end: int, current: Option<int>) {
    && pause.Some? && end <= pause.value
    && (current.Some? ==> current.value <= pause.value)
    && (pause.value == end || pause == current)
  }

  // ----- statements on the session row -----

  /** The later of the end in force and the new one, in the statement itself. */
  function RecordLimits(row: Session, reported: bool, pause: Option<int>, now: int): Session {
    row.(limitsCheckedAt := if reported then Some(now) else row.limitsCheckedAt,
         pausedUntil := if pause.None? then row.pausedUntil
                        else Some(Later(row.pausedUntil.GetOr(pause.value), pause.value)))
  }

  function EndPause(row: Session, observed: int): Session {
    if row.pausedUntil == Some(observed) then row.(pausedUntil := None) else row
  }

  predicate IsSlotFree(row: Session, now: int) {
    row.nextSendAllowedAt <= now * MICROS_PER_MILLISECOND
  }

  /** `databaseNow` is the database's own reading, in microseconds. */
  function ReserveSlot(row: Session, now: int, databaseNow: int, jitterSeconds: nat): Option<Session> {
    if IsSlotFree(row, now)
    then Some(row.(nextSendAllowedAt := databaseNow + (row.minimumSeconds + jitterSeconds) * MICROS_PER_SECOND))
    else None
  }

  /** The row as its repository updates it in place. */
  class SessionRecord {
    var row: Session

    constructor (row: Session)
      ensures this.row == row
    {
      this.row := row;
    }

    method RecordAccountLimits(limits: Option<AccountLimits>, pause: Option<int>, now: int)
      modifies this
      ensures row == RecordLimits(old(row), limits.Some?, pause, now)
      ensures row == old(row).(limitsCheckedAt := row.limitsCheckedAt, pausedUntil := row.pausedUntil)
      ensures row.limitsCheckedAt == if limits.Some? then Some(now) else old(row.limitsCheckedAt)
      ensures if pause.None? then row.pausedUntil == old(row.pausedUntil)
              else IsLater(row.pausedUntil, pause.value, old(row.pausedUntil))
      ensures pause.Some? ==> row.pausedUntil.Some? && row.pausedUntil.value >= pause.value
      ensures old(row.pausedUntil).Some?
        ==> row.pausedUntil.Some? && row.pausedUntil.value >= old(row.pausedUntil.value)
    {
      if limits.Some? {
        row := row.(limitsCheckedAt := Some(now));
      }
      if pause.Some? {
        var inForce := row.pausedUntil.GetOr(pause.value);
        row := row.(pausedUntil := Some(if inForce < pause.value then pause.value else inForce));
      }
    }

    /**
     * Clears the pause that was observed, and only that one: from its end on, the session is
     * paused exactly when it was, so a pause recorded in the meantime stays in force.
     */
    method EndSendingPause(observed: int)
      modifies this
      ensures forall now :: now >= observed ==>
        IsSendingPaused(row.pausedUntil, now) == IsSendingPaused(old(row.pausedUntil), now)
      ensures old(row.pausedUntil) != Some(observed) ==> row == old(row)
      ensures row.pausedUntil != Some(observed) && row == old(row).(pausedUntil := row.pausedUntil)
      ensures row == EndPause(old(row), observed)
    {
      if row.pausedUntil == Some(observed) {
        row := row.(pausedUntil := None);
      }
    }

    method ReserveSendSlot(now: int, databaseNow: int, jitterSeconds: nat) returns (reserved: bool, next: int)
      requires now * MICROS_PER_MILLISECOND <= databaseNow && jitterSeconds <= row.maximumSeconds - row.minimumSeconds
      modifies this
      ensures reserved <==> ReserveSlot(old(row), now, databaseNow, jitterSeconds).Some?
      ensures reserved <==> old(row.nextSendAllowedAt) <= now * 1000
      ensures row == old(row).(nextSendAllowedAt := next)
      ensures reserved ==> next == databaseNow + (row.minimumSeconds + jitterSeconds) * 1_000_000
      ensures !reserved ==> next == old(row.nextSendAllowedAt)
      ensures row == ReserveSlot(old(row), now, databaseNow, jitterSeconds).GetOr(old(row))
      ensures next == row.nextSendAllowedAt
      ensures !reserved ==> next > now * MICROS_PER_MILLISECOND
      ensures reserved ==> next >= databaseNow + row.minimumSeconds * MICROS_PER_SECOND
    {
      reserved := row.nextSendAllowedAt <= now * MICROS_PER_MILLISECOND;
      if reserved {
        row := row.(nextSendAllowedAt := databaseNow + (row.minimumSeconds + jitterSeconds) * MICROS_PER_SECOND);
      }
      next := row.nextSendAllowedAt;
    }
  }
}

/**
 * Any number of dispatchers, reports, refusals and expired-pause checks on one
 * session, each a sequence of separate statements, under one monotone clock.
 */
module SessionRuns {
  import opened Wrappers
  import opened Sessions

  /**
   * Where an actor stands: it has read the row; or it has seen that the pause it
   * read is over; or that the row it read is not paused. `known` is history: the
   * pauses that had been recorded when it read.
   */
  datatype Actor =
    | Read(pausedUntil: Option<int>, at: int, known: set<int>)
    | SawExpired(endedAt: int)
    | SawOpen(checkedAt: int, known: set<int>)

  datatype Reservation = Reservation(at: int, databaseAt: int, checkedAt: int, known: set<int>)

  datatype State = State(
    clock: int,                      // microseconds
    row: Session,
    actors: map<nat, Actor>,
    recorded: set<int>,              // history: every pause end ever recorded
    reservations: seq<Reservation>)  // history: every slot reserved, in order

  datatype Action =
    | Tick(micros: nat)
    | ReadRow(actor: nat)
    | Report(actor: nat, limits: Option<AccountLimits>, refused: bool, fallbackMs: nat, now: int)
    | ObserveExpired(actor: nat, now: int)
    | ReportAfterExpiry(actor: nat, confirmed: AccountLimits, fallbackMs: nat, now: int)
    | EndExpired(actor: nat)
    | ObserveOpen(actor: nat, now: int)
    | Reserve(actor: nat, now: int, databaseNow: int, jitterSeconds: nat)

  /** A millisecond reading taken by now, of the clock that runs in microseconds. */
  predicate IsPast(s: State, now: int) {
    now * MICROS_PER_MILLISECOND <= s.clock
  }

  function Record(s: State, limits: Option<AccountLimits>, refused: bool, current: Option<int>, fallbackMs: nat,
                  now: int): State {
    var pause := ResolveSendingPause(limits, refused, current, now, fallbackMs);
    s.(row := RecordLimits(s.row, limits.Some?, pause, now),
       recorded := if pause.Some? then s.recorded + {pause.value} else s.recorded)
  }

  function Step(s: State, a: Action): State {
    match a
    case Tick(d) => s.(clock := s.clock + d)
    case ReadRow(actor) =>
      s.(actors := s.actors[actor := Read(s.row.pausedUntil, s.clock / MICROS_PER_MILLISECOND, s.recorded)])
    case Report(actor, limits, refused, fallbackMs, now) =>
      if actor in s.actors && s.actors[actor].Read? && s.actors[actor].at <= now && IsPast(s, now) && fallbackMs > 0
      then Record(s, limits, refused, s.actors[actor].pausedUntil, fallbackMs, now)
      else s
    case ObserveExpired(actor, now) =>
      if actor in s.actors && s.actors[actor].Read? && s.actors[actor].at <= now && IsPast(s, now)
         && s.actors[actor].pausedUntil.Some? && s.actors[actor].pausedUntil.value <= now
      then s.(actors := s.actors[actor := SawExpired(s.actors[actor].pausedUntil.value)])
      else s
    case ReportAfterExpiry(actor, limits, fallbackMs, now) =>
      // WhatsApp says the timelock still holds: a fresh pause, measured against none.
      if actor in s.actors && s.actors[actor].SawExpired? && IsPast(s, now) && fallbackMs > 0
         && limits.timelock.Some? && limits.timelock.value.isActive
      then Record(s.(actors := s.actors - {actor}), Some(limits), false, None, fallbackMs, now)
      else s
    case EndExpired(actor) =>
      if actor in s.actors && s.actors[actor].SawExpired?
      then s.(row := EndPause(s.row, s.actors[actor].endedAt), actors := s.actors - {actor})
      else s
    case ObserveOpen(actor, now) =>
      if actor in s.actors && s.actors[actor].Read? && s.actors[actor].at <= now && IsPast(s, now)
         && !IsSendingPaused(s.actors[actor].pausedUntil, now)
      then s.(actors := s.actors[actor := SawOpen(now, s.actors[actor].known)])
      else s
    case Reserve(actor, now, databaseNow, jitter) =>
      if actor in s.actors && s.actors[actor].SawOpen? && s.actors[actor].checkedAt <= now
         && now * MICROS_PER_MILLISECOND <= databaseNow <= s.clock
         && jitter <= s.row.maximumSeconds - s.row.minimumSeconds
      then StepReserve(s, actor, now, databaseNow, jitter)
      else s
  }

  function StepReserve(s: State, actor: nat, now: int, databaseNow: int, jitter: nat): State
    requires actor in s.actors && s.actors[actor].SawOpen?
  {
    var pc := s.actors[actor];
    var done := s.(actors := s.actors - {actor});
    match ReserveSlot(s.row, now, databaseNow, jitter)
    case None => done
    case Some(row) =>
      done.(row := row, reservations := s.reservations + [Reservation(now, databaseNow, pc.checkedAt, pc.known)])
  }

  function Run(s: State, actions: seq<Action>): State
    decreases |actions|
  {
    if actions == [] then s else Run(Step(s, actions[0]), actions[1..])
  }

  /** A session on which no pause was recorded yet. */
  function Initial(clock: int, minimumSeconds: nat, maximumSeconds: nat, nextSendAllowedAt: int): State {
    State(clock, Session(minimumSeconds, maximumSeconds, nextSendAllowedAt, None, None), map[], {}, [])
  }

  // ----- pauses -----

  /** Every recorded pause that is not over is covered by the stored one. */
  ghost predicate Covers(pausedUntil: Option<int>, recorded: set<int>, clock: int) {
    forall p | p in recorded && clock < p * MICROS_PER_MILLISECOND :: pausedUntil.Some? && pausedUntil.value >= p
  }

  ghost predicate ActorInv(s: State, actor: Actor) {
    match actor
    case Read(pausedUntil, at, known) =>
      IsPast(s, at) && known <= s.recorded && forall p | p in known && at < p ::
        pausedUntil.Some? && pausedUntil.value >= p
    case SawExpired(endedAt) => IsPast(s, endedAt)
    case SawOpen(checkedAt, known) => IsPast(s, checkedAt) && forall p | p in known :: p <= checkedAt
  }

  /** Reservations in order, a minimum apart, and none under a pause it could know of. */
  ghost predicate ReservationsInv(s: State) {
    && (forall i, j :: 0 <= i < j < |s.reservations| ==>
          s.reservations[i].databaseAt + s.row.minimumSeconds * MICROS_PER_SECOND
          <= s.reservations[j].at * MICROS_PER_MILLISECOND)
    && (forall i :: 0 <= i < |s.reservations| ==>
          && s.reservations[i].checkedAt <= s.reservations[i].at
          && s.reservations[i].at * MICROS_PER_MILLISECOND <= s.reservations[i].databaseAt <= s.clock
          && forall p | p in s.reservations[i].known :: p <= s.reservations[i].checkedAt)
    && (s.reservations != [] ==>
          s.reservations[|s.reservations| - 1].databaseAt + s.row.minimumSeconds * MICROS_PER_SECOND
          <= s.row.nextSendAllowedAt)
  }

  ghost predicate Inv(s: State) {
    && Covers(s.row.pausedUntil, s.recorded, s.clock)
    && (s.row.pausedUntil.Some? ==> s.row.pausedUntil.value in s.recorded)
    && (forall a | a in s.actors :: ActorInv(s, s.actors[a]))
    && ReservationsInv(s)
  }

  lemma RecordInv(s: State, limits: Option<AccountLimits>, refused: bool, current: Option<int>, fallbackMs: nat,
                  now: int)
    requires Inv(s) && fallbackMs > 0
    ensures Inv(Record(s, limits, refused, current, fallbackMs, now))
  {
  }

  lemma ReservedInv(s: State, t: State, row: Session, next: Reservation)
    requires Inv(s) && next.at * MICROS_PER_MILLISECOND <= next.databaseAt <= s.clock
    requires s.row.nextSendAllowedAt <= next.at * MICROS_PER_MILLISECOND
    requires next.checkedAt <= next.at && forall p | p in next.known :: p <= next.checkedAt
    requires row.minimumSeconds == s.row.minimumSeconds
    requires next.databaseAt + s.row.minimumSeconds * MICROS_PER_SECOND <= row.nextSendAllowedAt
    requires t.row == row && t.clock == s.clock && t.reservations == s.reservations + [next]
    ensures ReservationsInv(t)
  {
    forall i | 0 <= i < |s.reservations|
      ensures s.reservations[i].databaseAt
        + s.row.minimumSeconds * MICROS_PER_SECOND <= next.at * MICROS_PER_MILLISECOND
    {
      var last := s.reservations[|s.reservations| - 1];
      assert i == |s.reservations| - 1
        || s.reservations[i].databaseAt <= last.at * MICROS_PER_MILLISECOND <= last.databaseAt;
    }
  }

  lemma ReserveInv(s: State, a: Action)
    requires Inv(s) && a.Reserve?
    ensures Inv(Step(s, a))
  {
    if a.actor in s.actors && s.actors[a.actor].SawOpen? {
      var pc := s.actors[a.actor];
      assert ActorInv(s, pc);
      var t := Step(s, a);
      if t.reservations != s.reservations {
        ReservedInv(s, t, t.row, Reservation(a.now, a.databaseNow, pc.checkedAt, pc.known));
      }
    }
  }

  lemma ObserveInv(s: State, a: Action)
    requires Inv(s) && (a.ReadRow? || a.ObserveExpired? || a.ObserveOpen? || a.Tick?)
    ensures Inv(Step(s, a)) && s.clock <= Step(s, a).clock && Step(s, a).recorded == s.recorded
  {
    if !a.Tick? && a.actor in s.actors { assert ActorInv(s, s.actors[a.actor]); }
  }

  lemma EndInv(s: State, actor: nat)
    requires Inv(s)
    ensures Inv(Step(s, EndExpired(actor)))
  {
    if actor in s.actors { assert ActorInv(s, s.actors[actor]); }
  }

  lemma StepInv(s: State, a: Action)
    requires Inv(s)
    ensures Inv(Step(s, a)) && s.clock <= Step(s, a).clock
    ensures s.recorded <= Step(s, a).recorded
  {
    match a
    case Report(actor, limits, refused, fallbackMs, now) =>
      if actor in s.actors && s.actors[actor].Read? && fallbackMs > 0 {
        RecordInv(s, limits, refused, s.actors[actor].pausedUntil, fallbackMs, now);
      }
    case ReportAfterExpiry(actor, limits, fallbackMs, now) =>
      if fallbackMs > 0 {
        RecordInv(s.(actors := s.actors - {actor}), Some(limits), false, None, fallbackMs, now);
      }
    case EndExpired(actor) => EndInv(s, actor);
    case Reserve(_, _, _, _) => ReserveInv(s, a);
    case _ => ObserveInv(s, a);
  }

  lemma {:induction false} RunInv(s: State, actions: seq<Action>)
    requires Inv(s)
    ensures Inv(Run(s, actions)) && s.clock <= Run(s, actions).clock && s.recorded <= Run(s, actions).recorded
    decreases |actions|
  {
    if actions != [] {
      StepInv(s, actions[0]);
      RunInv(Step(s, actions[0]), actions[1..]);
    }
  }

  /**
   * Until its time runs out, no interleaving shortens or lifts a recorded pause;
   * and while any is running, the stored end is the latest ever recorded.
   */
  lemma PausesAreKept(clock: int, minimum: nat, maximum: nat, next: int, actions: seq<Action>)
    ensures var s := Run(Initial(clock, minimum, maximum, next), actions);
            forall p | p in s.recorded && s.clock < p * MICROS_PER_MILLISECOND ::
              && s.row.pausedUntil.Some? && s.row.pausedUntil.value >= p
              && s.row.pausedUntil.value in s.recorded
              && forall q | q in s.recorded :: q <= s.row.pausedUntil.value
  {
    var s0 := Initial(clock, minimum, maximum, next);
    RunInv(s0, actions);
    var s := Run(s0, actions);
    forall p, q | p in s.recorded && s.clock < p * MICROS_PER_MILLISECOND && q in s.recorded
      ensures q <= s.row.pausedUntil.value
    {
      if s.clock < q * MICROS_PER_MILLISECOND {
        assert s.row.pausedUntil.value >= q;
      }
    }
  }

  /** No slot is reserved by a dispatch that had read a pause still in force when it checked. */
  lemma ReservationsHeedPauses(clock: int, minimum: nat, maximum: nat, next: int, actions: seq<Action>)
    ensures var s := Run(Initial(clock, minimum, maximum, next), actions);
            forall i :: 0 <= i < |s.reservations| ==>
              && s.reservations[i].checkedAt <= s.reservations[i].at
              && forall p | p in s.reservations[i].known :: p <= s.reservations[i].checkedAt
  {
    RunInv(Initial(clock, minimum, maximum, next), actions);
  }

  // ----- a reported end is waited for -----

  /** The reading was made by an actor before `t`, and not since. */
  ghost predicate WasReadBefore(t: State, known: set<int>) {
    exists a :: a in t.actors && !t.actors[a].SawExpired? && t.actors[a].known == known
  }

  /** Whatever was read or reserved between `t` and `u` knows all that was recorded by `t`, or was read before. */
  ghost predicate KnowsSince(t: State, u: State) {
    && t.recorded <= u.recorded && |t.reservations| <= |u.reservations|
    && (forall a :: a in u.actors && !u.actors[a].SawExpired? ==>
          WasReadBefore(t, u.actors[a].known) || t.recorded <= u.actors[a].known)
    && forall i :: |t.reservations| <= i < |u.reservations| ==>
         WasReadBefore(t, u.reservations[i].known) || t.recorded <= u.reservations[i].known
  }

  lemma StepKnowsSince(t: State, u: State, a: Action)
    requires KnowsSince(t, u)
    ensures KnowsSince(t, Step(u, a))
  {
  }

  lemma {:induction false} RunKnowsSince(t: State, u: State, actions: seq<Action>)
    requires KnowsSince(t, u)
    ensures KnowsSince(t, Run(u, actions))
    decreases |actions|
  {
    if actions != [] {
      StepKnowsSince(t, u, actions[0]);
      RunKnowsSince(t, Step(u, actions[0]), actions[1..]);
    }
  }

  /** The step is a report that is applied, of a timelock that WhatsApp lifts at `end`, still to come. */
  predicate ReportsTimelock(s: State, a: Action, end: int) {
    match a
    case Report(actor, limits, refused, fallbackMs, now) =>
      && actor in s.actors && s.actors[actor].Read? && s.actors[actor].at <= now && IsPast(s, now) && fallbackMs > 0
      && limits.Some? && limits.value.timelock == Some(Timelock(true, Some(end))) && end > now
    case ReportAfterExpiry(actor, limits, fallbackMs, now) =>
      && actor in s.actors && s.actors[actor].SawExpired? && IsPast(s, now) && fallbackMs > 0
      && limits.timelock == Some(Timelock(true, Some(end))) && end > now
    case _ => false
  }

  lemma TimelockIsRecorded(s: State, a: Action, end: int) returns (pause: int)
    requires ReportsTimelock(s, a, end)
    ensures var t := Step(s, a);
            && end <= pause && pause in t.recorded
            && t.row.pausedUntil.Some? && t.row.pausedUntil.value >= pause
  {
    var current := if a.Report? then s.actors[a.actor].pausedUntil else None;
    var limits := if a.Report? then a.limits else Some(a.confirmed);
    var refused := a.Report? && a.refused;
    PauseLastsAsReported(limits, refused, current, a.now, a.fallbackMs);
    pause := ResolveSendingPause(limits, refused, current, a.now, a.fallbackMs).value;
  }

  /**
   * Once a timelock is reported with its end, the stored pause covers that end for as long as it
   * is to come; and every slot reserved from then on was found open at that end or later, unless
   * its dispatch had read the session before the report.
   */
  lemma TimelockIsWaitedFor(clock: int, minimum: nat, maximum: nat, next: int, before: seq<Action>, report: Action,
                            end: int, after: seq<Action>)
    requires ReportsTimelock(Run(Initial(clock, minimum, maximum, next), before), report, end)
    ensures var t := Step(Run(Initial(clock, minimum, maximum, next), before), report);
            var u := Run(t, after);
            && t.row.pausedUntil.Some? && t.row.pausedUntil.value >= end
            && (u.clock < end * MICROS_PER_MILLISECOND ==>
                  u.row.pausedUntil.Some? && u.row.pausedUntil.value >= end)
            && forall i :: |t.reservations| <= i < |u.reservations| ==>
                 u.reservations[i].checkedAt >= end || WasReadBefore(t, u.reservations[i].known)
  {
    var s := Run(Initial(clock, minimum, maximum, next), before);
    RunInv(Initial(clock, minimum, maximum, next), before);
    StepInv(s, report);
    var pause := TimelockIsRecorded(s, report, end);
    var t := Step(s, report);
    RunInv(t, after);
    RunKnowsSince(t, t, after);
  }

  // ----- pacing -----

  lemma {:induction false} MinimumIsFixed(s: State, actions: seq<Action>)
    ensures Run(s, actions).row.minimumSeconds == s.row.minimumSeconds
    decreases |actions|
  {
    if actions != [] {
      MinimumIsFixed(Step(s, actions[0]), actions[1..]);
    }
  }

  lemma {:induction false} GapsAddUp(s: State, i: nat, j: nat)
    requires ReservationsInv(s) && i <= j < |s.reservations|
    ensures s.reservations[i].databaseAt + (j - i) * (s.row.minimumSeconds * MICROS_PER_SECOND)
            <= s.reservations[j].databaseAt
    decreases j
  {
    if i < j {
      GapsAddUp(s, i, j - 1);
      var gap := s.row.minimumSeconds * MICROS_PER_SECOND;
      assert (j - i) * gap == (j - 1 - i) * gap + gap;
    }
  }

  /** Any two reservations, by any workers, are at least the pacing minimum apart. */
  lemma ReservationsArePaced(clock: int, minimum: nat, maximum: nat, next: int, actions: seq<Action>, i: nat, j: nat)
    requires i < j < |Run(Initial(clock, minimum, maximum, next), actions).reservations|
    ensures var s := Run(Initial(clock, minimum, maximum, next), actions);
            s.reservations[i].databaseAt + minimum * MICROS_PER_SECOND <= s.reservations[j].databaseAt
  {
    RunInv(Initial(clock, minimum, maximum, next), actions);
    MinimumIsFixed(Initial(clock, minimum, maximum, next), actions);
  }

  /** With a positive minimum, a stretch of `span` seconds from reservation i to j holds at most span / minimum + 1. */
  lemma WindowHoldsFew(clock: int, minimum: nat, maximum: nat, next: int, actions: seq<Action>, i: nat, j: nat,
                       span: nat)
    requires minimum > 0
    requires i <= j < |Run(Initial(clock, minimum, maximum, next), actions).reservations|
    requires var s := Run(Initial(clock, minimum, maximum, next), actions);
             s.reservations[j].databaseAt - s.reservations[i].databaseAt <= span * MICROS_PER_SECOND
    ensures j - i + 1 <= span / minimum + 1
  {
    RunInv(Initial(clock, minimum, maximum, next), actions);
    MinimumIsFixed(Initial(clock, minimum, maximum, next), actions);
    var s := Run(Initial(clock, minimum, maximum, next), actions);
    GapsAddUp(s, i, j);
    CountFits(j - i, minimum, span);
  }

  lemma CountFits(count: nat, minimum: nat, span: nat)
    requires minimum > 0 && count * (minimum * MICROS_PER_SECOND) <= span * MICROS_PER_SECOND
    ensures count <= span / minimum
  {
    assert count * (minimum * MICROS_PER_SECOND) == (count * minimum) * MICROS_PER_SECOND;
    var fits := span / minimum;
    assert span < (fits + 1) * minimum;
    if fits + 1 <= count {
      ProductGrows(fits + 1, count, minimum);
    }
  }

  lemma ProductGrows(small: nat, large: nat, factor: nat)
    requires small <= large
    ensures small * factor <= large * factor
  {
    assert large * factor == small * factor + (large - small) * factor;
  }
}
