/**
 * All notifications at once. Workers, callbacks, cancellations and the reaper move the
 * rows of one table by the repositories' statements; the clock and the claim tokens are
 * shared. Seen from any one notification it is a run of the delivery protocol, in which
 * what concerns the others does not occur; so what holds in every run holds for each.
 */
module Fleet {
  import opened Wrappers
  import opened Lifecycle
  import opened Failures
  import opened Rows
  import opened Acknowledgements
  import opened Delivery
  import opened DeliverySafety
  import opened FailStop
  import Repositories

  type Table = Repositories.Table

  /** A worker here is one dispatch: it serves one notification from its arrival on. */
  datatype Task = Task(id: nat, pc: Worker)

  datatype Reading = Reading(id: nat, callback: Callback)

  datatype History = History(calls: seq<Call>, beginnings: seq<Ledger>, claimTimes: seq<int>, lostWindows: nat)

  datatype Fleet = Fleet(
    clock: int,
    table: Table,
    workers: map<nat, Task>,
    callbacks: map<nat, Reading>,
    tokens: map<Token, nat>,        // every token drawn, and for which notification
    histories: map<nat, History>)

  datatype Move =
    | On(id: nat, action: Action)
    | TickAll(milliseconds: nat)
    | CancelAllWaiting(application: nat, session: Option<nat>, locked: set<nat>, now: int)

  const NO_HISTORY := History([], [], [], 0)

  function HistoryOf(f: Fleet, id: nat): History {
    if id in f.histories then f.histories[id] else NO_HISTORY
  }

  // ----- one notification's part -----

  function WorkersOn(workers: map<nat, Task>, id: nat): map<nat, Worker> {
    map w | w in workers && workers[w].id == id :: workers[w].pc
  }

  function CallbacksOn(callbacks: map<nat, Reading>, id: nat): map<nat, Callback> {
    map c | c in callbacks && callbacks[c].id == id :: callbacks[c].callback
  }

  function TokensOn(tokens: map<Token, nat>, id: nat): set<Token> {
    set token | token in tokens && tokens[token] == id
  }

  function View(f: Fleet, id: nat): State
    requires id in f.table
  {
    var history := HistoryOf(f, id);
    State(f.clock, f.table[id].row, f.table[id].ledger, WorkersOn(f.workers, id), CallbacksOn(f.callbacks, id),
          TokensOn(f.tokens, id), history.calls, history.beginnings, history.claimTimes, history.lostWindows)
  }

  // ----- the statement behind each step -----

  /** What a step of the protocol asks of the table, where it stands; nothing for the steps that only read. */
  function StatementOf(cfg: Config, s: State, a: Action): Option<Repositories.Statement> {
    match a
    case Prepare(w, Promote) => if At(s, w).Arrived? then Some(Repositories.Promote(At(s, w).seen)) else None
    case Prepare(w, Claim(token)) =>
      if At(s, w).ReadyToClaim? && token !in s.usedTokens then Some(Repositories.Claim(token, At(s, w).seen)) else None
    case Deliver(w, delivering) => DeliveringStatement(s, At(s, w), delivering)
    case Conclude(w, conclusion, now) =>
      var changes := Concluding(cfg, At(s, w), conclusion, now);
      if now <= s.clock && changes.Some? then Some(Repositories.Transition(Processing, changes.value)) else None
    case Outside(event) => EventStatement(s, event)
    case _ => None
  }

  function DeliveringStatement(s: State, pc: Worker, delivering: Delivering): Option<Repositories.Statement> {
    match delivering
    case Start(chat, now) =>
      if pc.Clear? && pc.seen <= now <= s.clock then Some(Repositories.BeginOne(pc.token, chat)) else None
    case CommitSent(now) =>
      if pc.Answered? && pc.answer.Accepted? && pc.seen <= now <= s.clock
      then Some(Repositories.RecordSent(ToSent(pc.answer.providerMessageId, pc.chat, now), pc.attempt,
                                        Attempt(Some(AttemptSucceeded), Some(pc.answer.providerMessageId), None)))
      else None
    case RecordUnknown(_) =>
      if pc.Interrupted? || (pc.Answered? && pc.answer.Rejected? && HasUnknownOutcome(pc.answer.failure.code))
      then Some(Repositories.ResolveOne(pc.attempt, Attempt(Some(AttemptUnknown), None, Some(UnknownCause(pc)))))
      else None
    case RecordRefusal =>
      if pc.Answered? && pc.answer.Rejected? && !HasUnknownOutcome(pc.answer.failure.code)
      then Some(Repositories.ResolveOne(pc.attempt, Attempt(Some(AttemptFailed), None, Some(pc.answer.failure.code))))
      else None
    case Send(_, _) => None
  }

  function EventStatement(s: State, event: Event): Option<Repositories.Statement> {
    match event
    case Reap(now) => if now <= s.clock then Some(Repositories.Transition(Processing, ToDeferred(now))) else None
    case Cancel(expected, now) =>
      if IsCancellable(expected) then Some(Repositories.Transition(expected, ToCancelled(now))) else None
    case WriteCallback(c, now) =>
      if c !in s.callbacks then None
      else
        var changes := Acknowledge(s.callbacks[c].snapshot, s.callbacks[c].incoming, now);
        if changes.Some? then Some(Repositories.Transition(s.callbacks[c].snapshot.status, changes.value)) else None
    case _ => None
  }

  /** Ticks, and cancelling all that waits, are for every notification at once. */
  predicate IsForOne(a: Action) {
    a.Outside? ==> !a.event.Tick? && !a.event.CancelWaiting?
  }

  predicate HasEffect(before: Repositories.Stored, statement: Option<Repositories.Statement>, t: State) {
    var after := if statement.Some? then Repositories.Affect(before, statement.value) else before;
    after.row == t.row && after.ledger == t.ledger
  }

  lemma PreparingIsAStatement(cfg: Config, s: State, w: nat, preparation: Preparation, stored: Repositories.Stored)
    requires stored.row == s.row && stored.ledger == s.ledger
    ensures HasEffect(stored, StatementOf(cfg, s, Prepare(w, preparation)), StepPrepare(cfg, s, w, preparation))
  {
  }

  lemma DeliveringIsAStatement(s: State, w: nat, delivering: Delivering, stored: Repositories.Stored)
    requires stored.row == s.row && stored.ledger == s.ledger
    ensures HasEffect(stored, DeliveringStatement(s, At(s, w), delivering), StepDeliver(s, w, delivering))
  {
  }

  lemma EventIsAStatement(cfg: Config, s: State, event: Event, stored: Repositories.Stored)
    requires stored.row == s.row && stored.ledger == s.ledger && IsForOne(Outside(event))
    ensures HasEffect(stored, EventStatement(s, event), StepOutside(cfg, s, event))
  {
  }

  /** Each step of the protocol moves row and ledger by its one statement. */
  lemma StepIsAStatement(cfg: Config, s: State, a: Action, stored: Repositories.Stored)
    requires stored.row == s.row && stored.ledger == s.ledger && IsForOne(a)
    ensures HasEffect(stored, StatementOf(cfg, s, a), Step(cfg, s, a))
  {
    match a
    case Prepare(w, preparation) => PreparingIsAStatement(cfg, s, w, preparation, stored);
    case Deliver(w, delivering) => DeliveringIsAStatement(s, w, delivering, stored);
    case Conclude(w, conclusion, now) =>
    case Outside(event) => EventIsAStatement(cfg, s, event, stored);
  }

  // ----- the fleet's own steps -----

  function ActorOf(a: Action): Option<nat> {
    match a
    case Prepare(w, _) => Some(w)
    case Deliver(w, _) => Some(w)
    case Conclude(w, _, _) => Some(w)
    case Outside(event) => if event.Crash? then Some(event.worker) else None
  }

  function ReaderOf(a: Action): Option<nat> {
    if a.Outside? && a.event.ReadForCallback? then Some(a.event.callback) else None
  }

  /** A worker and a callback keep to one notification, and a token drawn for any is drawn for no other. */
  predicate IsAllowed(f: Fleet, id: nat, a: Action) {
    && id in f.table && IsForOne(a)
    && (ActorOf(a).Some? && ActorOf(a).value in f.workers ==> f.workers[ActorOf(a).value].id == id)
    && (ReaderOf(a).Some? && ReaderOf(a).value in f.callbacks ==> f.callbacks[ReaderOf(a).value].id == id)
    && (a.Prepare? && a.preparation.Claim? ==> a.preparation.token !in f.tokens)
  }

  function PutWorkers(workers: map<nat, Task>, id: nat, own: map<nat, Worker>): map<nat, Task> {
    map w | w in workers.Keys + own.Keys && (w in own || workers[w].id != id) ::
      if w in own then Task(id, own[w]) else workers[w]
  }

  function PutCallbacks(callbacks: map<nat, Reading>, id: nat, own: map<nat, Callback>): map<nat, Reading> {
    map c | c in callbacks.Keys + own.Keys && (c in own || callbacks[c].id != id) ::
      if c in own then Reading(id, own[c]) else callbacks[c]
  }

  function PutTokens(tokens: map<Token, nat>, id: nat, own: set<Token>): map<Token, nat> {
    map token | token in tokens.Keys + own :: if token in own then id else tokens[token]
  }

  /** The table moves by the statement; the worker, the callback and the history as the protocol says. */
  function MoveOne(cfg: Config, f: Fleet, id: nat, a: Action): Fleet
    requires IsAllowed(f, id, a)
  {
    var s := View(f, id);
    var t := Step(cfg, s, a);
    var statement := StatementOf(cfg, s, a);
    f.(table := if statement.Some? then Repositories.Execute(f.table, f.table[id].application, id, statement.value)
       else f.table,
       workers := PutWorkers(f.workers, id, t.workers),
       callbacks := PutCallbacks(f.callbacks, id, t.callbacks),
       tokens := PutTokens(f.tokens, id, t.usedTokens),
       histories := f.histories[id := History(t.calls, t.beginnings, t.claimTimes, t.lostWindows)])
  }

  function MoveFleet(cfg: Config, f: Fleet, move: Move): Fleet {
    match move
    case On(id, a) => if IsAllowed(f, id, a) then MoveOne(cfg, f, id, a) else f
    case TickAll(d) => f.(clock := f.clock + d)
    case CancelAllWaiting(application, session, locked, now) =>
      f.(table := Repositories.CancelAll(f.table, Repositories.Waiting(f.table, application, session, locked), now))
  }

  function RunFleet(cfg: Config, f: Fleet, moves: seq<Move>): Fleet
    decreases |moves|
  {
    if moves == [] then f else RunFleet(cfg, MoveFleet(cfg, f, moves[0]), moves[1..])
  }

  /** A move as one notification sees it: a step of its own, or none. */
  function Seen(f: Fleet, move: Move, id: nat): seq<Action> {
    match move
    case On(target, a) => if target == id && IsAllowed(f, target, a) then [a] else []
    case TickAll(d) => [Outside(Tick(d))]
    case CancelAllWaiting(application, session, locked, now) =>
      if id in Repositories.Waiting(f.table, application, session, locked) then [Outside(CancelWaiting(now))] else []
  }

  function SeenAll(cfg: Config, f: Fleet, moves: seq<Move>, id: nat): seq<Action>
    decreases |moves|
  {
    if moves == [] then [] else Seen(f, moves[0], id) + SeenAll(cfg, MoveFleet(cfg, f, moves[0]), moves[1..], id)
  }

  // ----- the projection -----

  /** Workers are never forgotten, and only the one that acts is new; the same for callbacks, which may go. */
  ghost predicate KeepsToActor(s: State, t: State, a: Action) {
    && s.workers.Keys <= t.workers.Keys
    && (forall w :: w in t.workers ==> w in s.workers || ActorOf(a) == Some(w))
    && (forall c :: c in t.callbacks ==> c in s.callbacks || ReaderOf(a) == Some(c))
    && s.usedTokens <= t.usedTokens
    && (forall token :: token in t.usedTokens && token !in s.usedTokens ==>
          a.Prepare? && a.preparation.Claim? && a.preparation.token == token)
  }

  lemma OwnKeys(cfg: Config, s: State, a: Action)
    ensures KeepsToActor(s, Step(cfg, s, a), a)
  {
    match a
    case Prepare(w, preparation) => PrepareKeys(cfg, s, w, preparation);
    case Deliver(w, delivering) => DeliverKeys(s, w, delivering);
    case Conclude(w, conclusion, now) =>
    case Outside(event) => OutsideKeys(cfg, s, event);
  }

  lemma PrepareKeys(cfg: Config, s: State, w: nat, preparation: Preparation)
    ensures var t := StepPrepare(cfg, s, w, preparation);
            && (t.workers == s.workers || t.workers.Keys == s.workers.Keys + {w})
            && t.callbacks == s.callbacks
            && (t.usedTokens == s.usedTokens
                || (preparation.Claim? && t.usedTokens == s.usedTokens + {preparation.token}))
  {
  }

  lemma DeliverKeys(s: State, w: nat, delivering: Delivering)
    ensures var t := StepDeliver(s, w, delivering);
            && (t.workers == s.workers || t.workers.Keys == s.workers.Keys + {w})
            && t.callbacks == s.callbacks && t.usedTokens == s.usedTokens
  {
  }

  lemma OutsideKeys(cfg: Config, s: State, event: Event)
    ensures var t := StepOutside(cfg, s, event);
            && t.usedTokens == s.usedTokens
            && (t.workers.Keys == s.workers.Keys || (event.Crash? && t.workers.Keys == s.workers.Keys + {event.worker}))
            && (t.callbacks.Keys <= s.callbacks.Keys
                || (event.ReadForCallback? && t.callbacks.Keys == s.callbacks.Keys + {event.callback}))
  {
  }

  lemma PutWorkersViews(workers: map<nat, Task>, id: nat, own: map<nat, Worker>, other: nat)
    requires WorkersOn(workers, id).Keys <= own.Keys
    requires forall w :: w in own && w in workers ==> workers[w].id == id
    ensures WorkersOn(PutWorkers(workers, id, own), other) == if other == id then own else WorkersOn(workers, other)
  {
  }

  lemma PutCallbacksViews(callbacks: map<nat, Reading>, id: nat, own: map<nat, Callback>, other: nat)
    requires forall c :: c in own && c in callbacks ==> callbacks[c].id == id
    ensures CallbacksOn(PutCallbacks(callbacks, id, own), other) == if other == id then own
      else CallbacksOn(callbacks, other)
  {
  }

  lemma PutTokensViews(tokens: map<Token, nat>, id: nat, own: set<Token>, other: nat)
    requires TokensOn(tokens, id) <= own
    requires forall token :: token in own && token in tokens ==> tokens[token] == id
    ensures TokensOn(PutTokens(tokens, id, own), other) == if other == id then own else TokensOn(tokens, other)
  {
  }

  /** What one notification's step brings back is its own. */
  ghost predicate IsOwn(f: Fleet, id: nat, t: State) {
    && WorkersOn(f.workers, id).Keys <= t.workers.Keys
    && (forall w :: w in t.workers && w in f.workers ==> f.workers[w].id == id)
    && (forall c :: c in t.callbacks && c in f.callbacks ==> f.callbacks[c].id == id)
    && TokensOn(f.tokens, id) <= t.usedTokens
    && (forall token :: token in t.usedTokens && token in f.tokens ==> f.tokens[token] == id)
  }

  lemma ActorsAreOwn(f: Fleet, id: nat, a: Action, t: State)
    requires IsAllowed(f, id, a) && KeepsToActor(View(f, id), t, a)
    ensures IsOwn(f, id, t)
  {
  }

  lemma StepBringsItsOwn(cfg: Config, f: Fleet, id: nat, a: Action)
    requires IsAllowed(f, id, a)
    ensures IsOwn(f, id, Step(cfg, View(f, id), a))
  {
    OwnKeys(cfg, View(f, id), a);
    ActorsAreOwn(f, id, a, Step(cfg, View(f, id), a));
  }

  /** The maps the fleet shares, as any notification sees them once one has put its own back. */
  lemma PutViews(f: Fleet, id: nat, t: State, other: nat)
    requires IsOwn(f, id, t)
    ensures WorkersOn(PutWorkers(f.workers, id, t.workers), other)
            == if other == id then t.workers else WorkersOn(f.workers, other)
    ensures CallbacksOn(PutCallbacks(f.callbacks, id, t.callbacks), other)
            == if other == id then t.callbacks else CallbacksOn(f.callbacks, other)
    ensures TokensOn(PutTokens(f.tokens, id, t.usedTokens), other)
            == if other == id then t.usedTokens else TokensOn(f.tokens, other)
  {
    PutWorkersViews(f.workers, id, t.workers, other);
    PutCallbacksViews(f.callbacks, id, t.callbacks, other);
    PutTokensViews(f.tokens, id, t.usedTokens, other);
  }

  lemma TableAfter(cfg: Config, f: Fleet, id: nat, a: Action)
    requires IsAllowed(f, id, a)
    ensures var g, t := MoveOne(cfg, f, id, a), Step(cfg, View(f, id), a);
            && g.table.Keys == f.table.Keys && g.table[id].row == t.row && g.table[id].ledger == t.ledger
            && g.clock == f.clock == t.clock
            && forall other :: other in f.table && other != id ==> g.table[other] == f.table[other]
  {
    StepIsAStatement(cfg, View(f, id), a, f.table[id]);
    ClockStands(cfg, View(f, id), a);
  }

  /** A move on one notification is its step. */
  lemma OwnView(cfg: Config, f: Fleet, id: nat, a: Action)
    requires IsAllowed(f, id, a)
    ensures id in MoveOne(cfg, f, id, a).table
    ensures View(MoveOne(cfg, f, id, a), id) == Step(cfg, View(f, id), a)
  {
    StepBringsItsOwn(cfg, f, id, a);
    PutViews(f, id, Step(cfg, View(f, id), a), id);
    TableAfter(cfg, f, id, a);
  }

  /** And no other notification sees anything of it. */
  lemma OtherView(cfg: Config, f: Fleet, id: nat, a: Action, other: nat)
    requires IsAllowed(f, id, a) && other in f.table && other != id
    ensures other in MoveOne(cfg, f, id, a).table
    ensures View(MoveOne(cfg, f, id, a), other) == View(f, other)
  {
    StepBringsItsOwn(cfg, f, id, a);
    PutViews(f, id, Step(cfg, View(f, id), a), other);
    TableAfter(cfg, f, id, a);
  }

  lemma ClockStands(cfg: Config, s: State, a: Action)
    requires IsForOne(a)
    ensures Step(cfg, s, a).clock == s.clock
  {
  }

  lemma RunOne(cfg: Config, s: State, a: Action)
    ensures Run(cfg, s, [a]) == Step(cfg, s, a)
  {
    assert [a][1..] == [];
  }

  lemma CancelAllView(cfg: Config, f: Fleet, move: Move, id: nat)
    requires id in f.table && move.CancelAllWaiting?
    ensures id in MoveFleet(cfg, f, move).table
    ensures View(MoveFleet(cfg, f, move), id) == Run(cfg, View(f, id), Seen(f, move, id))
  {
    RunOne(cfg, View(f, id), Outside(CancelWaiting(move.now)));
  }

  lemma MoveViews(cfg: Config, f: Fleet, move: Move, id: nat)
    requires id in f.table
    ensures id in MoveFleet(cfg, f, move).table
    ensures View(MoveFleet(cfg, f, move), id) == Run(cfg, View(f, id), Seen(f, move, id))
  {
    match move
    case On(target, a) =>
      RunOne(cfg, View(f, id), a);
      if IsAllowed(f, target, a) {
        if target == id { OwnView(cfg, f, id, a); } else { OtherView(cfg, f, target, a, id); }
      }
    case TickAll(d) => RunOne(cfg, View(f, id), Outside(Tick(d)));
    case CancelAllWaiting(_, _, _, _) => CancelAllView(cfg, f, move, id);
  }

  lemma {:induction false} RunJoin(cfg: Config, s: State, xs: seq<Action>, ys: seq<Action>)
    ensures Run(cfg, s, xs + ys) == Run(cfg, Run(cfg, s, xs), ys)
    decreases |xs|
  {
    if xs == [] {
      assert xs + ys == ys;
    } else {
      assert (xs + ys)[1..] == xs[1..] + ys;
      RunJoin(cfg, Step(cfg, s, xs[0]), xs[1..], ys);
    }
  }

  /** Seen from any notification, a run of the fleet is the run of the protocol made of the steps it sees. */
  lemma {:induction false} FleetProjects(cfg: Config, f: Fleet, moves: seq<Move>, id: nat)
    requires id in f.table
    ensures id in RunFleet(cfg, f, moves).table
    ensures View(RunFleet(cfg, f, moves), id) == Run(cfg, View(f, id), SeenAll(cfg, f, moves, id))
    decreases |moves|
  {
    if moves != [] {
      var next := MoveFleet(cfg, f, moves[0]);
      MoveViews(cfg, f, moves[0], id);
      FleetProjects(cfg, next, moves[1..], id);
      RunJoin(cfg, View(f, id), Seen(f, moves[0], id), SeenAll(cfg, next, moves[1..], id));
    }
  }

  // ----- what the fleet has from it -----

  /** Notifications as creation writes them, and nobody at work. */
  ghost predicate IsFresh(f: Fleet) {
    && f.workers == map[] && f.callbacks == map[] && f.tokens == map[] && f.histories == map[]
    && forall id :: id in f.table ==> IsNew(f.table[id].row) && f.table[id].ledger == map[]
  }

  lemma FreshViews(f: Fleet, id: nat)
    requires IsFresh(f) && id in f.table
    ensures View(f, id) == Initial(f.table[id].row, f.clock)
  {
  }

  /** Every notification's row, ledger and calls satisfy the protocol's invariant, whatever the others do. */
  lemma FleetKeepsInv(cfg: Config, f: Fleet, moves: seq<Move>, id: nat)
    requires IsFresh(f) && id in f.table
    ensures id in RunFleet(cfg, f, moves).table && Inv(View(RunFleet(cfg, f, moves), id))
  {
    FleetProjects(cfg, f, moves, id);
    FreshViews(f, id);
    InitialInv(f.table[id].row, f.clock);
    RunInv(cfg, View(f, id), SeenAll(cfg, f, moves, id));
  }

  /** In any fleet, each notification is sent within its own budget, under its own numbers. */
  lemma FleetSendsWithinBudget(cfg: Config, f: Fleet, moves: seq<Move>, id: nat)
    requires IsFresh(f) && id in f.table
    ensures var calls := HistoryOf(RunFleet(cfg, f, moves), id).calls;
            && |calls| <= f.table[id].row.maximumAttempts
            && (forall i, j :: 0 <= i < j < |calls| ==> calls[i].attempt != calls[j].attempt)
  {
    FleetProjects(cfg, f, moves, id);
    FreshViews(f, id);
    SendsWithinBudget(cfg, f.table[id].row, f.clock, SeenAll(cfg, f, moves, id));
  }

  /** No two notifications are ever claimed under the same token. */
  lemma ClaimsAreDistinct(cfg: Config, f: Fleet, moves: seq<Move>, a: nat, b: nat)
    requires IsFresh(f) && a in f.table && b in f.table && a != b
    ensures var table := RunFleet(cfg, f, moves).table;
            && a in table && b in table
            && (table[a].row.claimToken.Some? && table[b].row.claimToken.Some? ==>
                  table[a].row.claimToken != table[b].row.claimToken)
  {
    FleetKeepsInv(cfg, f, moves, a);
    FleetKeepsInv(cfg, f, moves, b);
    var after := RunFleet(cfg, f, moves);
    assert View(after, a).row == after.table[a].row && View(after, b).row == after.table[b].row;
  }

  /** A policy of failing closed, wherever it is read. */
  ghost predicate FailsClosedThroughout(moves: seq<Move>) {
    forall i :: 0 <= i < |moves| && moves[i].On? ==> FailsClosed(moves[i].action)
  }

  lemma {:induction false} SeenFailsClosed(cfg: Config, f: Fleet, moves: seq<Move>, id: nat)
    requires FailsClosedThroughout(moves)
    ensures forall i :: 0 <= i < |SeenAll(cfg, f, moves, id)| ==> FailsClosed(SeenAll(cfg, f, moves, id)[i])
    decreases |moves|
  {
    if moves != [] {
      SeenFailsClosed(cfg, MoveFleet(cfg, f, moves[0]), moves[1..], id);
    }
  }

  /** In a fleet of fail-stop workers that fails closed, each message goes out once, but for windows lost on it. */
  lemma FleetSendsOnce(cfg: Config, f: Fleet, moves: seq<Move>, id: nat)
    requires IsFresh(f) && id in f.table && cfg.failStop && FailsClosedThroughout(moves)
    ensures var history := HistoryOf(RunFleet(cfg, f, moves), id);
            Copies(history.calls) <= 1 + history.lostWindows
  {
    FleetProjects(cfg, f, moves, id);
    FreshViews(f, id);
    SeenFailsClosed(cfg, f, moves, id);
    FailClosedSendsOnce(cfg, f.table[id].row, f.clock, SeenAll(cfg, f, moves, id));
  }
}
