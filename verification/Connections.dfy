/**
 * A connection and the notifications that go out through it, together. A dispatch that is clear
 * to send reads the session, finds it open and reserves a slot before it begins its attempt, each
 * a statement of its own; meanwhile reports, refusals and expired pauses move the session, and
 * everything else the notifications. What is proved of either side holds of both at once, and
 * with it what only both can say: which calls the provider gets, and when.
 */
module Connections {
  import opened Wrappers
  import opened Delivery
  import DeliverySafety
  import Fleet
  import Sessions
  import SessionRuns

  /** How far a dispatch has got with the session. `heard` is history: the pauses recorded when it claimed. */
  datatype Stage =
    | Took(heard: set<int>)
    | Asked(heard: set<int>)
    | Holding(heard: set<int>, slot: nat)

  /** History: a call, the reservation it was made under, and when. */
  datatype Sent = Sent(id: nat, call: Call, heard: set<int>, slot: nat, at: int)

  datatype World = World(
    connection: nat,
    fleet: Fleet.Fleet,
    session: SessionRuns.State,
    stages: map<nat, Stage>,
    sent: seq<Sent>)

  datatype Move =
    | OnNotification(id: nat, action: Action)
    | OnTable(move: Fleet.Move)
    | OnSession(step: SessionRuns.Action)

  predicate IsOurs(x: World, id: nat) {
    id in x.fleet.table && x.fleet.table[id].session == x.connection
  }

  predicate HoldsSlot(x: World, w: nat) {
    w in x.stages && x.stages[w].Holding? && x.stages[w].slot < |x.session.reservations|
  }

  // ----- the steps -----

  /** A dispatch on this connection begins its attempt, and calls, with its slot reserved. */
  predicate IsAdmitted(x: World, id: nat, a: Action) {
    && Fleet.IsAllowed(x.fleet, id, a)
    && (IsOurs(x, id) && a.Deliver? && (a.delivering.Start? || a.delivering.Send?) ==> HoldsSlot(x, a.worker))
    && (IsOurs(x, id) && a.Deliver? && a.delivering.Start? ==>
          x.session.reservations[x.stages[a.worker].slot].at <= a.delivering.now)
  }

  predicate Claims(x: World, id: nat, a: Action)
    requires id in x.fleet.table
  {
    a.Prepare? && a.preparation.Claim? && At(Fleet.View(x.fleet, id), a.worker).ReadyToClaim?
  }

  /** Whether the step is a call to the provider. */
  predicate IsCalling(s: State, a: Action) {
    && a.Deliver? && a.delivering.Send? && At(s, a.worker).Begun?
    && At(s, a.worker).attempt <= At(s, a.worker).snapshot.maximumAttempts
    && IsPossible(a.delivering.answer, a.delivering.accepted)
  }

  function MoveNotification(cfg: Config, x: World, id: nat, a: Action): World {
    if !IsAdmitted(x, id, a) then x
    else
      var s := Fleet.View(x.fleet, id);
      var moved := x.(fleet := Fleet.MoveOne(cfg, x.fleet, id, a));
      if !IsOurs(x, id) then moved
      else if Claims(x, id, a) then moved.(stages := x.stages[a.worker := Took(x.session.recorded)])
      else if IsCalling(s, a) then
        var stage := x.stages[a.worker];
        var call := Call(At(s, a.worker).attempt, a.delivering.accepted, a.delivering.answer);
        moved.(stages := x.stages - {a.worker},
               sent := x.sent + [Sent(id, call, stage.heard, stage.slot, x.fleet.clock)])
      else moved
  }

  /** A worker of this connection that is clear to send. */
  predicate IsClear(x: World, w: nat) {
    w in x.fleet.workers && x.fleet.workers[w].pc.Clear? && IsOurs(x, x.fleet.workers[w].id)
  }

  /** The clock of the dispatches keeps the whole milliseconds of the session's. */
  function Milliseconds(micros: int): int {
    micros / Sessions.MICROS_PER_MILLISECOND
  }

  function MoveSession(cfg: Config, x: World, a: SessionRuns.Action): World {
    var moved := x.(session := SessionRuns.Step(x.session, a));
    match a
    case Tick(micros) => moved.(fleet := x.fleet.(clock := Milliseconds(moved.session.clock)))
    case ReadRow(w) =>
      if IsClear(x, w) && w in x.stages && !x.stages[w].Holding?
      then moved.(stages := x.stages[w := Asked(x.stages[w].heard)]) else moved
    case Reserve(w, _, _, _) =>
      if !IsClear(x, w) || w !in x.stages || !x.stages[w].Asked? then x
      else if moved.session.reservations == x.session.reservations then moved
      else moved.(stages := x.stages[w := Holding(x.stages[w].heard, |x.session.reservations|)])
    case _ => moved
  }

  function MoveWorld(cfg: Config, x: World, move: Move): World {
    match move
    case OnNotification(id, a) => MoveNotification(cfg, x, id, a)
    case OnTable(m) => if m.CancelAllWaiting? then x.(fleet := Fleet.MoveFleet(cfg, x.fleet, m)) else x
    case OnSession(a) => MoveSession(cfg, x, a)
  }

  function RunWorld(cfg: Config, x: World, moves: seq<Move>): World
    decreases |moves|
  {
    if moves == [] then x else RunWorld(cfg, MoveWorld(cfg, x, moves[0]), moves[1..])
  }

  /** Notifications as creation writes them, a session on which no pause was recorded, one clock, nobody at work. */
  ghost predicate IsFresh(x: World) {
    && Fleet.IsFresh(x.fleet)
    && x.session == SessionRuns.Initial(x.session.clock, x.session.row.minimumSeconds, x.session.row.maximumSeconds,
                                        x.session.row.nextSendAllowedAt)
    && x.fleet.clock == Milliseconds(x.session.clock)
    && x.stages == map[] && x.sent == []
  }

  // ----- both sides are runs of their own -----

  lemma {:induction false} FleetRunAppend(cfg: Config, f: Fleet.Fleet, moves: seq<Fleet.Move>, more: seq<Fleet.Move>)
    ensures Fleet.RunFleet(cfg, f, moves + more) == Fleet.RunFleet(cfg, Fleet.RunFleet(cfg, f, moves), more)
    decreases |moves|
  {
    if moves == [] {
      assert moves + more == more;
    } else {
      assert (moves + more)[1..] == moves[1..] + more;
      FleetRunAppend(cfg, Fleet.MoveFleet(cfg, f, moves[0]), moves[1..], more);
    }
  }

  /** The fleet's moves behind one of the world's. */
  function FleetMoves(cfg: Config, x: World, move: Move): seq<Fleet.Move> {
    match move
    case OnNotification(id, a) => if IsAdmitted(x, id, a) then [Fleet.On(id, a)] else []
    case OnTable(m) => if m.CancelAllWaiting? then [m] else []
    case OnSession(a) =>
      if a.Tick? && x.fleet.clock <= Milliseconds(x.session.clock + a.micros)
      then [Fleet.TickAll(Milliseconds(x.session.clock + a.micros) - x.fleet.clock)] else []
  }

  function AllFleetMoves(cfg: Config, x: World, moves: seq<Move>): seq<Fleet.Move>
    decreases |moves|
  {
    if moves == [] then []
    else FleetMoves(cfg, x, moves[0]) + AllFleetMoves(cfg, MoveWorld(cfg, x, moves[0]), moves[1..])
  }

  /** The session's steps behind one move. */
  function SessionSteps(x: World, move: Move): seq<SessionRuns.Action> {
    if !move.OnSession? then []
    else if move.step.Reserve? && (!IsClear(x, move.step.actor) || move.step.actor !in x.stages
                                     || !x.stages[move.step.actor].Asked?) then []
    else [move.step]
  }

  function AllSessionSteps(cfg: Config, x: World, moves: seq<Move>): seq<SessionRuns.Action>
    decreases |moves|
  {
    if moves == [] then []
    else SessionSteps(x, moves[0]) + AllSessionSteps(cfg, MoveWorld(cfg, x, moves[0]), moves[1..])
  }

  lemma {:induction false} SessionRunAppend(s: SessionRuns.State, steps: seq<SessionRuns.Action>,
                                            more: seq<SessionRuns.Action>)
    ensures SessionRuns.Run(s, steps + more) == SessionRuns.Run(SessionRuns.Run(s, steps), more)
    decreases |steps|
  {
    if steps == [] {
      assert steps + more == more;
    } else {
      assert (steps + more)[1..] == steps[1..] + more;
      SessionRunAppend(SessionRuns.Step(s, steps[0]), steps[1..], more);
    }
  }

  lemma MoveIsBoth(cfg: Config, x: World, move: Move)
    requires x.fleet.clock == Milliseconds(x.session.clock)
    ensures var y := MoveWorld(cfg, x, move);
            && y.fleet == Fleet.RunFleet(cfg, x.fleet, FleetMoves(cfg, x, move))
            && y.session == SessionRuns.Run(x.session, SessionSteps(x, move))
            && y.fleet.clock == Milliseconds(y.session.clock) && y.connection == x.connection
  {
    var moves, steps := FleetMoves(cfg, x, move), SessionSteps(x, move);
    if moves != [] { assert Fleet.RunFleet(cfg, x.fleet, moves) == Fleet.MoveFleet(cfg, x.fleet, moves[0]); }
    if steps != [] { assert SessionRuns.Run(x.session, steps) == SessionRuns.Step(x.session, steps[0]); }
  }

  /** So all that holds of every run of the fleet, and of every run of a session, holds here of both. */
  lemma {:induction false} WorldProjects(cfg: Config, x: World, moves: seq<Move>)
    requires x.fleet.clock == Milliseconds(x.session.clock)
    ensures var y := RunWorld(cfg, x, moves);
            && y.fleet == Fleet.RunFleet(cfg, x.fleet, AllFleetMoves(cfg, x, moves))
            && y.session == SessionRuns.Run(x.session, AllSessionSteps(cfg, x, moves))
            && y.fleet.clock == Milliseconds(y.session.clock) && y.connection == x.connection
    decreases |moves|
  {
    if moves != [] {
      var next := MoveWorld(cfg, x, moves[0]);
      MoveIsBoth(cfg, x, moves[0]);
      WorldProjects(cfg, next, moves[1..]);
      FleetRunAppend(cfg, x.fleet, FleetMoves(cfg, x, moves[0]), AllFleetMoves(cfg, next, moves[1..]));
      SessionRunAppend(x.session, SessionSteps(x, moves[0]), AllSessionSteps(cfg, next, moves[1..]));
    }
  }

  // ----- the invariant -----

  /** What was recorded by the claim was known at the reading the slot was reserved after. */
  ghost predicate StageInv(x: World, w: nat, stage: Stage) {
    && stage.heard <= x.session.recorded
    && (stage.Asked? && w in x.session.actors ==>
          match x.session.actors[w]
          case Read(_, _, known) => stage.heard <= known
          case SawOpen(_, known) => stage.heard <= known
          case SawExpired(_) => true)
    && (stage.Holding? ==>
          stage.slot < |x.session.reservations| && stage.heard <= x.session.reservations[stage.slot].known)
  }

  ghost predicate StagesInv(x: World) {
    && (forall w | w in x.stages :: StageInv(x, w, x.stages[w]))
    && (forall v, w | v in x.stages && w in x.stages && v != w && x.stages[v].Holding? && x.stages[w].Holding? ::
          x.stages[v].slot != x.stages[w].slot)
    && (forall w, k | w in x.stages && x.stages[w].Holding? && 0 <= k < |x.sent| :: x.sent[k].slot != x.stages[w].slot)
  }

  ghost predicate SentInv(x: World) {
    && (forall k :: 0 <= k < |x.sent| ==>
          && x.sent[k].slot < |x.session.reservations|
          && x.sent[k].heard <= x.session.reservations[x.sent[k].slot].known
          && x.session.reservations[x.sent[k].slot].at <= x.sent[k].at)
    && (forall i, k :: 0 <= i < k < |x.sent| ==> x.sent[i].slot != x.sent[k].slot)
  }

  /** Where the dispatch stands with the notification and where with the session go together. */
  predicate IsInStep(x: World, w: nat, pc: Worker) {
    && (pc.Claimed? || pc.Clear? ==> w in x.stages)
    && (pc.Begun? ==> HoldsSlot(x, w))
  }

  ghost predicate WorkersInv(x: World) {
    forall w | w in x.fleet.workers && IsOurs(x, x.fleet.workers[w].id) :: IsInStep(x, w, x.fleet.workers[w].pc)
  }

  /** The calls this history has for one notification. */
  function CallsOf(sent: seq<Sent>, id: nat): seq<Call> {
    if sent == [] then []
    else
      var last := sent[|sent| - 1];
      CallsOf(sent[..|sent| - 1], id) + if last.id == id then [last.call] else []
  }

  ghost predicate CallsInv(x: World) {
    forall id | IsOurs(x, id) :: CallsOf(x.sent, id) == Fleet.HistoryOf(x.fleet, id).calls
  }

  ghost predicate Inv(x: World) {
    && SessionRuns.Inv(x.session) && x.fleet.clock == Milliseconds(x.session.clock)
    && StagesInv(x) && SentInv(x) && WorkersInv(x) && CallsInv(x)
  }

  // ----- what a step does to the workers and the calls -----

  /** How a worker comes to hold a claim, to be clear, and to have begun. */
  lemma WorkerChanges(cfg: Config, s: State, a: Action, w: nat)
    ensures var t := Step(cfg, s, a);
            && (At(t, w).Claimed? || At(t, w).Clear? || At(t, w).Begun? ==>
                  || At(t, w) == At(s, w)
                  || (a.Prepare? && a.preparation.Claim? && a.worker == w
                      && At(s, w).ReadyToClaim? && At(t, w).Claimed?)
                  || (At(s, w).Claimed? && At(t, w).Clear?)
                  || (a.Deliver? && a.delivering.Start? && a.worker == w && At(s, w).Clear? && At(t, w).Begun?))
            && (IsCalling(s, a) ==> !At(t, a.worker).Claimed? && !At(t, a.worker).Clear? && !At(t, a.worker).Begun?)
            && t.calls == s.calls + if IsCalling(s, a)
                 then [Call(At(s, a.worker).attempt, a.delivering.accepted, a.delivering.answer)] else []
  {
    match a
    case Prepare(v, preparation) => PrepareChanges(cfg, s, v, preparation, w);
    case Deliver(v, delivering) => DeliverChanges(s, v, delivering, w);
    case Conclude(_, _, _) =>
    case Outside(event) =>
  }

  lemma PrepareChanges(cfg: Config, s: State, v: nat, preparation: Preparation, w: nat)
    ensures var t := StepPrepare(cfg, s, v, preparation);
            && t.calls == s.calls
            && (At(t, w).Claimed? || At(t, w).Clear? || At(t, w).Begun? ==>
                  || At(t, w) == At(s, w)
                  || (preparation.Claim? && v == w && At(s, w).ReadyToClaim? && At(t, w).Claimed?)
                  || (At(s, w).Claimed? && At(t, w).Clear?))
  {
  }

  lemma DeliverChanges(s: State, v: nat, delivering: Delivering, w: nat)
    ensures var t := StepDeliver(s, v, delivering);
            && (At(t, w).Claimed? || At(t, w).Clear? || At(t, w).Begun? ==>
                  || At(t, w) == At(s, w)
                  || (delivering.Start? && v == w && At(s, w).Clear? && At(t, w).Begun?))
            && (IsCalling(s, Deliver(v, delivering)) ==>
                  !At(t, v).Claimed? && !At(t, v).Clear? && !At(t, v).Begun?)
            && t.calls == s.calls + if IsCalling(s, Deliver(v, delivering))
                 then [Call(At(s, v).attempt, delivering.accepted, delivering.answer)] else []
  {
  }

  lemma AffectKeepsSession(cfg: Config, f: Fleet.Fleet, id: nat, a: Action)
    requires Fleet.IsAllowed(f, id, a)
    ensures var g := Fleet.MoveOne(cfg, f, id, a);
            && g.table.Keys == f.table.Keys
            && forall other :: other in f.table ==> g.table[other].session == f.table[other].session
  {
  }

  lemma FleetWorkers(cfg: Config, f: Fleet.Fleet, id: nat, a: Action, w: nat)
    requires Fleet.IsAllowed(f, id, a) && w in Fleet.MoveOne(cfg, f, id, a).workers
    ensures var task := Fleet.MoveOne(cfg, f, id, a).workers[w];
            if task.id == id then task.pc == At(Step(cfg, Fleet.View(f, id), a), w)
            else w in f.workers && task == f.workers[w]
    ensures At(Fleet.View(f, id), w) == if w in f.workers && f.workers[w].id == id then f.workers[w].pc else Idle
  {
  }

  lemma CallsOfOneMore(sent: seq<Sent>, last: Sent, id: nat)
    ensures CallsOf(sent + [last], id) == CallsOf(sent, id) + if last.id == id then [last.call] else []
  {
    assert (sent + [last])[..|sent|] == sent;
  }

  // ----- preservation -----

  /** The table's sessions, the clock and the other notifications' calls stay when one notification moves. */
  lemma NotificationFrame(cfg: Config, x: World, id: nat, a: Action)
    requires IsAdmitted(x, id, a)
    ensures var y := MoveNotification(cfg, x, id, a);
            && y.session == x.session && y.fleet.clock == x.fleet.clock && y.connection == x.connection
            && (forall other :: IsOurs(y, other) <==> IsOurs(x, other))
            && (forall other :: other != id ==> Fleet.HistoryOf(y.fleet, other) == Fleet.HistoryOf(x.fleet, other))
  {
    AffectKeepsSession(cfg, x.fleet, id, a);
  }

  lemma NotificationKeepsStages(cfg: Config, x: World, id: nat, a: Action)
    requires Inv(x) && IsAdmitted(x, id, a)
    ensures StagesInv(MoveNotification(cfg, x, id, a)) && SentInv(MoveNotification(cfg, x, id, a))
  {
    NotificationFrame(cfg, x, id, a);
    var y := MoveNotification(cfg, x, id, a);
    if !IsOurs(x, id) {
      SameStages(x, y);
    } else if Claims(x, id, a) {
      TakingKeepsStages(x, y, a.worker);
    } else if IsCalling(Fleet.View(x.fleet, id), a) {
      CallingKeepsStages(x, y, a.worker);
    } else {
      SameStages(x, y);
    }
  }

  lemma SameStages(x: World, y: World)
    requires Inv(x) && y.session == x.session && y.stages == x.stages && y.sent == x.sent
    ensures StagesInv(y) && SentInv(y)
  {
    forall w | w in y.stages ensures StageInv(y, w, y.stages[w]) {
      assert StageInv(x, w, x.stages[w]);
    }
  }

  lemma TakingKeepsStages(x: World, y: World, w: nat)
    requires Inv(x) && y.session == x.session && y.stages == x.stages[w := Took(x.session.recorded)] && y.sent == x.sent
    ensures StagesInv(y) && SentInv(y)
  {
    forall v | v in y.stages ensures StageInv(y, v, y.stages[v]) {
      assert v != w ==> StageInv(x, v, x.stages[v]);
    }
  }

  /** A call uses up the slot. */
  lemma CallingKeepsStages(x: World, y: World, w: nat)
    requires Inv(x) && HoldsSlot(x, w) && y.session == x.session && y.stages == x.stages - {w}
    requires |y.sent| == |x.sent| + 1 && y.sent[..|x.sent|] == x.sent
    requires var last := y.sent[|x.sent|];
             last.heard == x.stages[w].heard && last.slot == x.stages[w].slot && last.at == x.fleet.clock
    ensures StagesInv(y) && SentInv(y)
  {
    SlotWasReserved(x, w);
    forall k | 0 <= k < |x.sent| ensures y.sent[k] == x.sent[k] {
      assert y.sent[..|x.sent|][k] == y.sent[k];
    }
    forall v | v in y.stages ensures StageInv(y, v, y.stages[v]) {
      assert StageInv(x, v, x.stages[v]);
    }
  }

  /** A slot that is held was reserved by now. */
  lemma SlotWasReserved(x: World, w: nat)
    requires Inv(x) && HoldsSlot(x, w)
    ensures StageInv(x, w, x.stages[w]) && x.session.reservations[x.stages[w].slot].at <= x.fleet.clock
  {
    assert StageInv(x, w, x.stages[w]);
    var reservation := x.session.reservations[x.stages[w].slot];
    assert reservation.at * Sessions.MICROS_PER_MILLISECOND <= x.session.clock;
  }

  lemma NotificationKeepsStep(cfg: Config, x: World, id: nat, a: Action)
    requires Inv(x) && IsAdmitted(x, id, a)
    ensures WorkersInv(MoveNotification(cfg, x, id, a))
  {
    NotificationFrame(cfg, x, id, a);
    var y := MoveNotification(cfg, x, id, a);
    forall w | w in y.fleet.workers && IsOurs(y, y.fleet.workers[w].id)
      ensures IsInStep(y, w, y.fleet.workers[w].pc)
    {
      FleetWorkers(cfg, x.fleet, id, a, w);
      if y.fleet.workers[w].id == id {
        WorkerChanges(cfg, Fleet.View(x.fleet, id), a, w);
        if w in x.fleet.workers && x.fleet.workers[w].id == id { assert IsInStep(x, w, x.fleet.workers[w].pc); }
      } else {
        assert IsInStep(x, w, x.fleet.workers[w].pc);
      }
    }
  }

  lemma NotificationKeepsCalls(cfg: Config, x: World, id: nat, a: Action)
    requires Inv(x) && IsAdmitted(x, id, a)
    ensures CallsInv(MoveNotification(cfg, x, id, a))
  {
    NotificationFrame(cfg, x, id, a);
    WorkerChanges(cfg, Fleet.View(x.fleet, id), a, 0);
    var y := MoveNotification(cfg, x, id, a);
    forall other | IsOurs(y, other)
      ensures CallsOf(y.sent, other) == Fleet.HistoryOf(y.fleet, other).calls
    {
      if y.sent != x.sent { CallsOfOneMore(x.sent, y.sent[|x.sent|], other); }
    }
  }

  lemma NotificationKeepsInv(cfg: Config, x: World, id: nat, a: Action)
    requires Inv(x)
    ensures Inv(MoveNotification(cfg, x, id, a))
  {
    if IsAdmitted(x, id, a) {
      NotificationFrame(cfg, x, id, a);
      NotificationKeepsStages(cfg, x, id, a);
      NotificationKeepsStep(cfg, x, id, a);
      NotificationKeepsCalls(cfg, x, id, a);
    }
  }

  /** What the session's own step may do to the actors and the reservations. */
  lemma SessionMoves(s: SessionRuns.State, a: SessionRuns.Action, w: nat)
    requires SessionRuns.Inv(s)
    ensures var t := SessionRuns.Step(s, a);
            && s.recorded <= t.recorded && s.reservations <= t.reservations
            && (t.reservations != s.reservations ==>
                  && a.Reserve? && |t.reservations| == |s.reservations| + 1
                  && a.actor in s.actors && s.actors[a.actor].SawOpen?
                  && t.reservations[|s.reservations|].known == s.actors[a.actor].known)
            && (a.ReadRow? && a.actor == w ==> w in t.actors && t.actors[w].Read? && t.actors[w].known == s.recorded)
            && (w in t.actors && !(a.ReadRow? && a.actor == w) ==>
                  && w in s.actors
                  && (|| t.actors[w] == s.actors[w] || t.actors[w].SawExpired?
                      || (s.actors[w].Read? && t.actors[w].SawOpen? && t.actors[w].known == s.actors[w].known)))
  {
    SessionRuns.StepInv(s, a);
  }

  lemma SessionKeepsStage(cfg: Config, x: World, a: SessionRuns.Action, w: nat)
    requires Inv(x) && w in MoveSession(cfg, x, a).stages
    ensures StageInv(MoveSession(cfg, x, a), w, MoveSession(cfg, x, a).stages[w])
  {
    assert StageInv(x, w, x.stages[w]);
    SessionMoves(x.session, a, w);
  }

  lemma SessionKeepsStages(cfg: Config, x: World, a: SessionRuns.Action)
    requires Inv(x)
    ensures StagesInv(MoveSession(cfg, x, a))
  {
    var y := MoveSession(cfg, x, a);
    forall w | w in y.stages ensures StageInv(y, w, y.stages[w]) {
      SessionKeepsStage(cfg, x, a, w);
    }
    forall v | v in x.stages && x.stages[v].Holding? ensures x.stages[v].slot < |x.session.reservations| {
      assert StageInv(x, v, x.stages[v]);
    }
  }

  lemma SessionKeepsSent(cfg: Config, x: World, a: SessionRuns.Action)
    requires Inv(x)
    ensures SentInv(MoveSession(cfg, x, a))
  {
    SessionMoves(x.session, a, 0);
  }

  lemma SessionKeepsInv(cfg: Config, x: World, a: SessionRuns.Action)
    requires Inv(x)
    ensures Inv(MoveSession(cfg, x, a))
  {
    SessionRuns.StepInv(x.session, a);
    SessionKeepsStages(cfg, x, a);
    SessionKeepsSent(cfg, x, a);
    SessionKeepsStep(cfg, x, a);
    MoveIsBoth(cfg, x, OnSession(a));
    SessionKeepsCalls(cfg, x, a);
  }

  lemma SessionKeepsStep(cfg: Config, x: World, a: SessionRuns.Action)
    requires Inv(x)
    ensures WorkersInv(MoveSession(cfg, x, a))
  {
    SessionMoves(x.session, a, 0);
    var y := MoveSession(cfg, x, a);
    forall w | w in y.fleet.workers && IsOurs(y, y.fleet.workers[w].id)
      ensures IsInStep(y, w, y.fleet.workers[w].pc)
    {
      assert IsInStep(x, w, x.fleet.workers[w].pc);
    }
  }

  lemma SessionKeepsCalls(cfg: Config, x: World, a: SessionRuns.Action)
    requires Inv(x)
    ensures CallsInv(MoveSession(cfg, x, a))
  {
    var y := MoveSession(cfg, x, a);
    assert forall id :: Fleet.HistoryOf(y.fleet, id) == Fleet.HistoryOf(x.fleet, id);
    assert forall id :: IsOurs(y, id) <==> IsOurs(x, id);
  }

  lemma TableKeepsInv(cfg: Config, x: World, move: Fleet.Move)
    requires Inv(x) && move.CancelAllWaiting?
    ensures Inv(MoveWorld(cfg, x, OnTable(move)))
  {
    var y := MoveWorld(cfg, x, OnTable(move));
    assert forall id :: IsOurs(y, id) <==> IsOurs(x, id);
    assert forall id :: Fleet.HistoryOf(y.fleet, id) == Fleet.HistoryOf(x.fleet, id);
    forall w | w in y.stages ensures StageInv(y, w, y.stages[w]) {
      assert StageInv(x, w, x.stages[w]);
    }
    forall w | w in y.fleet.workers && IsOurs(y, y.fleet.workers[w].id)
      ensures IsInStep(y, w, y.fleet.workers[w].pc)
    {
      assert IsInStep(x, w, x.fleet.workers[w].pc);
    }
  }

  lemma {:induction false} RunKeepsInv(cfg: Config, x: World, moves: seq<Move>)
    requires Inv(x)
    ensures Inv(RunWorld(cfg, x, moves))
    decreases |moves|
  {
    if moves != [] {
      match moves[0] {
        case OnNotification(id, a) => NotificationKeepsInv(cfg, x, id, a);
        case OnTable(m) => if m.CancelAllWaiting? { TableKeepsInv(cfg, x, m); }
        case OnSession(a) => SessionKeepsInv(cfg, x, a);
      }
      RunKeepsInv(cfg, MoveWorld(cfg, x, moves[0]), moves[1..]);
    }
  }

  // ----- the results -----

  /** Nothing went out yet. */
  lemma FreshInv(x: World)
    requires IsFresh(x)
    ensures Inv(x)
  {
  }

  /**
   * The calls on a connection are those of its notifications, each made under a reservation of its
   * own that was there before it; whoever has begun an attempt has one.
   */
  lemma EveryCallHasItsSlot(cfg: Config, x: World, moves: seq<Move>)
    requires IsFresh(x)
    ensures var y := RunWorld(cfg, x, moves);
            && (forall id | IsOurs(y, id) :: CallsOf(y.sent, id) == Fleet.HistoryOf(y.fleet, id).calls)
            && (forall k :: 0 <= k < |y.sent| ==>
                  && y.sent[k].slot < |y.session.reservations|
                  && y.session.reservations[y.sent[k].slot].at <= y.sent[k].at)
            && (forall i, k :: 0 <= i < k < |y.sent| ==> y.sent[i].slot != y.sent[k].slot)
            && (forall w | w in y.fleet.workers && IsOurs(y, y.fleet.workers[w].id) && y.fleet.workers[w].pc.Begun? ::
                  HoldsSlot(y, w))
  {
    FreshInv(x);
    RunKeepsInv(cfg, x, moves);
    var y := RunWorld(cfg, x, moves);
    forall w | w in y.fleet.workers && IsOurs(y, y.fleet.workers[w].id) && y.fleet.workers[w].pc.Begun?
      ensures HoldsSlot(y, w)
    {
      assert IsInStep(y, w, y.fleet.workers[w].pc);
    }
  }

  /**
   * No call is made under a pause recorded before its notification was claimed: a refusal that
   * one dispatch records is over before any that claims after it calls the provider.
   */
  lemma CallsHeedPauses(cfg: Config, x: World, moves: seq<Move>, k: nat, pause: int)
    requires IsFresh(x)
    requires var y := RunWorld(cfg, x, moves); k < |y.sent| && pause in y.sent[k].heard
    ensures var y := RunWorld(cfg, x, moves); pause <= y.sent[k].at
  {
    FreshInv(x);
    RunKeepsInv(cfg, x, moves);
  }

  lemma SessionIsARun(cfg: Config, x: World, moves: seq<Move>)
    requires IsFresh(x)
    ensures RunWorld(cfg, x, moves).session == SessionRuns.Run(x.session, AllSessionSteps(cfg, x, moves))
    ensures RunWorld(cfg, x, moves).session.row.minimumSeconds == x.session.row.minimumSeconds
  {
    WorldProjects(cfg, x, moves);
    SessionRuns.MinimumIsFixed(x.session, AllSessionSteps(cfg, x, moves));
  }

  /** The reservations any two calls were made under are at least the minimum apart. */
  lemma CallsArePaced(cfg: Config, x: World, moves: seq<Move>, i: nat, k: nat)
    requires IsFresh(x)
    requires var y := RunWorld(cfg, x, moves); i < |y.sent| && k < |y.sent| && i != k
    ensures var y := RunWorld(cfg, x, moves);
            && y.sent[i].slot < |y.session.reservations| && y.sent[k].slot < |y.session.reservations|
            && var a := y.session.reservations[y.sent[i].slot].databaseAt;
               var b := y.session.reservations[y.sent[k].slot].databaseAt;
               var gap := x.session.row.minimumSeconds * Sessions.MICROS_PER_SECOND;
               a + gap <= b || b + gap <= a
  {
    FreshInv(x);
    RunKeepsInv(cfg, x, moves);
    SessionIsARun(cfg, x, moves);
    var y := RunWorld(cfg, x, moves);
    var v, w := y.sent[i].slot, y.sent[k].slot;
    assert v != w;
    SessionRuns.ReservationsArePaced(x.session.clock, x.session.row.minimumSeconds, x.session.row.maximumSeconds,
                                     x.session.row.nextSendAllowedAt, AllSessionSteps(cfg, x, moves),
                                     if v < w then v else w, if v < w then w else v);
  }

  /** Distinct slots are as many as there were reservations, at most. */
  lemma SlotsAreFew(x: World)
    requires SentInv(x)
    ensures |x.sent| <= |x.session.reservations|
  {
    DeliverySafety.DistinctAreFew(seq(|x.sent|, k requires 0 <= k < |x.sent| => x.sent[k].slot + 1),
                                  |x.session.reservations|);
  }

  /** However many workers, crashes and stale claims there are, the calls never outrun the pacing. */
  lemma CallsAreFew(cfg: Config, x: World, moves: seq<Move>)
    requires IsFresh(x)
    ensures var y := RunWorld(cfg, x, moves);
            y.sent != [] ==>
              && y.session.reservations != []
              && (|y.sent| - 1) * (x.session.row.minimumSeconds * Sessions.MICROS_PER_SECOND)
                 <= y.session.clock - y.session.reservations[0].databaseAt
  {
    FreshInv(x);
    RunKeepsInv(cfg, x, moves);
    SessionIsARun(cfg, x, moves);
    var y := RunWorld(cfg, x, moves);
    SlotsAreFew(y);
    if y.sent != [] {
      var gap := x.session.row.minimumSeconds * Sessions.MICROS_PER_SECOND;
      SessionRuns.GapsAddUp(y.session, 0, |y.sent| - 1);
      assert y.session.reservations[|y.sent| - 1].databaseAt <= y.session.clock;
    }
  }

  // ----- and it does go out -----

  lemma RunTwo(cfg: Config, x: World, a: Move, b: Move)
    ensures RunWorld(cfg, x, [a, b]) == MoveWorld(cfg, MoveWorld(cfg, x, a), b)
  {
    assert [a, b][1..] == [b] && [b][1..] == [];
    assert RunWorld(cfg, MoveWorld(cfg, x, a), [b]) == MoveWorld(cfg, MoveWorld(cfg, x, a), b);
  }

  lemma RunThree(cfg: Config, x: World, a: Move, b: Move, c: Move)
    ensures RunWorld(cfg, x, [a, b, c]) == MoveWorld(cfg, MoveWorld(cfg, MoveWorld(cfg, x, a), b), c)
  {
    assert [a, b, c][1..] == [b, c];
    RunTwo(cfg, MoveWorld(cfg, x, a), b, c);
  }

  /** On an open session with its slot free, a dispatch that is clear gets the slot. */
  lemma ClearGetsSlot(cfg: Config, x: World, w: nat) returns (moves: seq<Move>)
    requires Inv(x) && IsClear(x, w) && !HoldsSlot(x, w)
    requires !Sessions.IsSendingPaused(x.session.row.pausedUntil, x.fleet.clock)
    requires Sessions.IsSlotFree(x.session.row, x.fleet.clock)
    requires x.session.row.minimumSeconds <= x.session.row.maximumSeconds
    ensures var y := RunWorld(cfg, x, moves);
            && y == x.(session := y.session, stages := y.stages) && HoldsSlot(y, w)
            && y.session.reservations[y.stages[w].slot].at == x.fleet.clock
  {
    var now := x.fleet.clock;
    assert IsInStep(x, w, x.fleet.workers[w].pc);
    assert StageInv(x, w, x.stages[w]);
    var read := OnSession(SessionRuns.ReadRow(w));
    var open := OnSession(SessionRuns.ObserveOpen(w, now));
    var reserve := OnSession(SessionRuns.Reserve(w, now, x.session.clock, 0));
    moves := [read, open, reserve];
    RunThree(cfg, x, read, open, reserve);
  }

  /** Under a claim that holds and within the budget, an attempt begins. */
  lemma ClearBegins(s: State, w: nat, chat: string)
    requires DeliverySafety.Inv(s) && At(s, w).Clear? && s.row.claimToken == Some(At(s, w).token)
    requires At(s, w).seen <= s.clock && s.row.attemptCount < s.row.maximumAttempts
    ensures var t := StepStart(s, w, chat, s.clock);
            && At(t, w).Begun? && At(t, w).attempt == s.row.attemptCount + 1
            && At(t, w).attempt <= At(t, w).snapshot.maximumAttempts
  {
    assert DeliverySafety.WorkerInv(s, s.workers[w]);
  }

  lemma BegunIsRecorded(cfg: Config, x: World, w: nat, id: nat, answer: Answer, accepted: bool)
    requires IsOurs(x, id) && HoldsSlot(x, w) && IsPossible(answer, accepted)
    requires w in x.fleet.workers && x.fleet.workers[w].id == id && x.fleet.workers[w].pc.Begun?
    requires x.fleet.workers[w].pc.attempt <= x.fleet.workers[w].pc.snapshot.maximumAttempts
    ensures var y := MoveNotification(cfg, x, id, Deliver(w, Send(answer, accepted)));
            y.sent == x.sent + [Sent(id, Call(x.fleet.workers[w].pc.attempt, accepted, answer), x.stages[w].heard,
                                     x.stages[w].slot, x.fleet.clock)]
  {
    assert At(Fleet.View(x.fleet, id), w) == x.fleet.workers[w].pc;
  }

  lemma SlotBegins(cfg: Config, x: World, w: nat, id: nat, start: Action)
    requires IsClear(x, w) && HoldsSlot(x, w) && id == x.fleet.workers[w].id
    requires x.session.reservations[x.stages[w].slot].at <= x.fleet.clock
    requires start.Deliver? && start.worker == w && start.delivering.Start? && start.delivering.now == x.fleet.clock
    ensures var s, y := Fleet.View(x.fleet, id), MoveNotification(cfg, x, id, start);
            && At(s, w) == x.fleet.workers[w].pc
            && y.session == x.session && y.stages == x.stages && y.sent == x.sent && y.fleet.clock == x.fleet.clock
            && IsOurs(y, id) && w in y.fleet.workers
            && y.fleet.workers[w] == Fleet.Task(id, At(StepDeliver(s, w, start.delivering), w))
  {
    NotificationFrame(cfg, x, id, start);
    var t := StepDeliver(Fleet.View(x.fleet, id), w, start.delivering);
    assert w in t.workers;
  }

  lemma SlotBegun(cfg: Config, x: World, w: nat, id: nat, chat: string)
    requires IsClear(x, w) && HoldsSlot(x, w) && id == x.fleet.workers[w].id
    requires x.session.reservations[x.stages[w].slot].at <= x.fleet.clock
    requires DeliverySafety.Inv(Fleet.View(x.fleet, id))
    requires var pc, row := x.fleet.workers[w].pc, x.fleet.table[id].row;
             && row.claimToken == Some(pc.token) && pc.seen <= x.fleet.clock
             && row.attemptCount < row.maximumAttempts
    ensures var y := MoveNotification(cfg, x, id, Deliver(w, Start(chat, x.fleet.clock)));
            && IsOurs(y, id) && HoldsSlot(y, w)
            && y.sent == x.sent && y.stages == x.stages && y.fleet.clock == x.fleet.clock
            && w in y.fleet.workers && y.fleet.workers[w].id == id && y.fleet.workers[w].pc.Begun?
            && y.fleet.workers[w].pc.attempt == x.fleet.table[id].row.attemptCount + 1
            && y.fleet.workers[w].pc.attempt <= y.fleet.workers[w].pc.snapshot.maximumAttempts
  {
    SlotBegins(cfg, x, w, id, Deliver(w, Start(chat, x.fleet.clock)));
    ClearBegins(Fleet.View(x.fleet, id), w, chat);
  }

  /** And with its slot, its claim and an attempt left, the provider is called. */
  lemma SlotGetsCall(cfg: Config, x: World, w: nat, id: nat, chat: string, answer: Answer, accepted: bool)
    returns (moves: seq<Move>)
    requires IsClear(x, w) && HoldsSlot(x, w) && IsPossible(answer, accepted) && id == x.fleet.workers[w].id
    requires x.session.reservations[x.stages[w].slot].at <= x.fleet.clock
    requires DeliverySafety.Inv(Fleet.View(x.fleet, id))
    requires var pc, row := x.fleet.workers[w].pc, x.fleet.table[id].row;
             && row.claimToken == Some(pc.token) && pc.seen <= x.fleet.clock
             && row.attemptCount < row.maximumAttempts
    ensures moves == [OnNotification(id, Deliver(w, Start(chat, x.fleet.clock))),
                      OnNotification(id, Deliver(w, Send(answer, accepted)))]
    ensures RunWorld(cfg, x, moves).sent == x.sent + [
              Sent(id, Call(x.fleet.table[id].row.attemptCount + 1, accepted, answer), x.stages[w].heard,
                   x.stages[w].slot, x.fleet.clock)]
  {
    var start, send := Deliver(w, Start(chat, x.fleet.clock)), Deliver(w, Send(answer, accepted));
    SlotBegun(cfg, x, w, id, chat);
    BegunIsRecorded(cfg, MoveNotification(cfg, x, id, start), w, id, answer, accepted);
    moves := [OnNotification(id, start), OnNotification(id, send)];
    RunTwo(cfg, x, OnNotification(id, start), OnNotification(id, send));
  }
}
