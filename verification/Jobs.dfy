/**
 * The dispatch jobs of one notification. A key holds at most one waiting job; a worker
 * takes it to start, and whatever puts the notification back to waiting sends the next
 * one in the same transaction. So a notification that waits is never forgotten, as long
 * as no job is lost: a crashed worker's job comes back.
 */
module Jobs {
  import opened Lifecycle
  import opened Rows
  import opened Delivery
  import opened DeliverySafety
  import opened Progress

  /**
   * The protocol, whether a job waits, and the workers whose claim matched no row and who have
   * yet to look why, with the time they claimed at.
   */
  datatype World = World(state: State, isWaiting: bool, asking: map<nat, int>)

  datatype Move = Protocol(action: Action) | Explain(worker: nat)

  predicate IsBusy(j: World, w: nat) {
    !At(j.state, w).Idle? || w in j.asking
  }

  /** A job is sent with every row that goes from PROCESSING back to waiting, in one transaction. */
  predicate SendsJob(s: State, t: State) {
    s.row.status == Processing && t.row.status == Retrying
  }

  function JobStep(cfg: Config, j: World, a: Action): World {
    var t := Step(cfg, j.state, a);
    match a
    case Prepare(w, Arrive) => if j.isWaiting && !IsBusy(j, w) then World(t, false, j.asking) else j
    case Prepare(w, Claim(token)) =>
      var pc := At(j.state, w);
      if pc.ReadyToClaim? && At(t, w).Idle? then World(t, j.isWaiting, j.asking[w := pc.seen])
        else World(t, j.isWaiting, j.asking)
    case Outside(Crash(w)) => World(t, j.isWaiting || IsBusy(j, w), j.asking - {w})
    case _ => World(t, j.isWaiting || SendsJob(j.state, t), j.asking)
  }

  /** Having claimed nothing, the worker reads the row again, and sends a job if it came early. */
  function ExplainStep(j: World, w: nat): World {
    if w !in j.asking then j
    else World(j.state, j.isWaiting || IsEarly(j.state.row, j.asking[w]), j.asking - {w})
  }

  function MoveJobs(cfg: Config, j: World, move: Move): World {
    match move
    case Protocol(a) => JobStep(cfg, j, a)
    case Explain(w) => ExplainStep(j, w)
  }

  function RunJobs(cfg: Config, j: World, moves: seq<Move>): World
    decreases |moves|
  {
    if moves == [] then j else RunJobs(cfg, MoveJobs(cfg, j, moves[0]), moves[1..])
  }

  // ----- nothing is stranded -----

  predicate Waits(row: Notification) {
    row.status in {Scheduled, Queued, Retrying}
  }

  predicate IsOnItsWay(pc: Worker) {
    pc.Arrived? || pc.ReadyToClaim?
  }

  /** A notification that waits has its job, or a worker that took it, or one about to send it anew. */
  ghost predicate HasJob(j: World) {
    Waits(j.state.row) ==>
      || j.isWaiting
      || (exists w :: w in j.state.workers && IsOnItsWay(j.state.workers[w]))
      || (exists w :: w in j.asking && IsEarly(j.state.row, j.asking[w]))
  }

  /** A waiting row knows when it is due; and whoever is ready to claim has promoted it if it could. */
  ghost predicate DueIsKnown(s: State) {
    && (s.row.status == Scheduled ==> s.row.scheduledAt.Some?)
    && (s.row.status == Retrying ==> s.row.nextAttemptAt.Some?)
    && forall w :: w in s.workers && s.workers[w].ReadyToClaim? ==> PromoteScheduled(s.row, s.workers[w].seen).None?
  }

  ghost predicate JobInv(j: World) {
    Inv(j.state) && DueIsKnown(j.state) && HasJob(j)
  }

  /** The waiting row is as it was, or it no longer waits, or a job goes with it. */
  ghost predicate KeepsWaiting(s: State, t: State) {
    Waits(t.row) ==>
      || SendsJob(s, t)
      || (t.row.status == s.row.status && t.row.nextAttemptAt == s.row.nextAttemptAt
          && t.row.scheduledAt == s.row.scheduledAt)
  }

  ghost predicate KeepsComers(s: State, t: State) {
    forall w :: w in s.workers && IsOnItsWay(s.workers[w]) ==> w in t.workers && t.workers[w] == s.workers[w]
  }

  lemma JobFrame(j: World, t: State)
    requires HasJob(j) && KeepsWaiting(j.state, t) && KeepsComers(j.state, t)
    ensures HasJob(World(t, j.isWaiting || SendsJob(j.state, t), j.asking))
  {
    if Waits(t.row) && !SendsJob(j.state, t) && !j.isWaiting {
      if w :| w in j.state.workers && IsOnItsWay(j.state.workers[w]) {
        assert IsOnItsWay(t.workers[w]);
      }
    }
  }

  /** No step makes a row scheduled, or one that waits due at a time unknown. */
  lemma DueFrame(s: State, t: State)
    requires DueIsKnown(s) && KeepsWaiting(s, t) && (SendsJob(s, t) ==> t.row.nextAttemptAt.Some?)
    requires forall w :: w in t.workers && t.workers[w].ReadyToClaim? ==> w in s.workers && t.workers[w] == s.workers[w]
    ensures DueIsKnown(t)
  {
  }

  lemma ArriveKeepsJob(cfg: Config, j: World, w: nat)
    requires JobInv(j)
    ensures JobInv(JobStep(cfg, j, Prepare(w, Arrive)))
  {
    StepInv(cfg, j.state, Prepare(w, Arrive));
    var k := JobStep(cfg, j, Prepare(w, Arrive));
    if k != j {
      assert IsOnItsWay(k.state.workers[w]);
    }
  }

  lemma PromoteKeepsJob(cfg: Config, j: World, w: nat)
    requires JobInv(j)
    ensures JobInv(JobStep(cfg, j, Prepare(w, Promote)))
  {
    StepInv(cfg, j.state, Prepare(w, Promote));
    var k := JobStep(cfg, j, Prepare(w, Promote));
    if k.state != j.state {
      assert IsOnItsWay(k.state.workers[w]);
    }
  }

  /** A claim that matches no row finds one that is early, or one that does not wait. */
  lemma FailedClaimIsEarly(row: Notification, token: Token, seen: int)
    requires ClaimForDispatch(row, token, seen).None? && PromoteScheduled(row, seen).None? && Waits(row)
    requires row.status == Scheduled ==> row.scheduledAt.Some?
    requires row.status == Retrying ==> row.nextAttemptAt.Some?
    ensures IsEarly(row, seen)
  {
  }

  lemma ClaimKeepsJob(cfg: Config, j: World, w: nat, token: Token)
    requires JobInv(j)
    ensures JobInv(JobStep(cfg, j, Prepare(w, Claim(token))))
  {
    StepClaimInv(j.state, w, token);
    var t := StepClaim(j.state, w, token);
    if t != j.state {
      ClaimMoves(j.state, w, token);
      if Waits(t.row) { FailedClaimLeavesAsking(j, w, token); }
    }
  }

  lemma ClaimMoves(s: State, w: nat, token: Token)
    requires StepClaim(s, w, token) != s && DueIsKnown(s)
    ensures DueIsKnown(StepClaim(s, w, token))
    ensures Waits(StepClaim(s, w, token).row) ==>
              At(s, w).ReadyToClaim? && ClaimForDispatch(s.row, token, At(s, w).seen).None?
                && StepClaim(s, w, token).row == s.row
  {
  }

  lemma FailedClaimLeavesAsking(j: World, w: nat, token: Token)
    requires DueIsKnown(j.state) && At(j.state, w).ReadyToClaim? && Waits(j.state.row)
    requires ClaimForDispatch(j.state.row, token, At(j.state, w).seen).None?
    ensures IsEarly(j.state.row, j.asking[w := At(j.state, w).seen][w])
  {
    FailedClaimIsEarly(j.state.row, token, j.state.workers[w].seen);
  }

  lemma CheckFrame(cfg: Config, s: State, w: nat, checkedAt: int)
    ensures var t := StepCheckLedger(cfg, s, w, checkedAt);
            && KeepsWaiting(s, t) && KeepsComers(s, t) && !SendsJob(s, t)
            && forall v ::
              v in t.workers && t.workers[v].ReadyToClaim? ==> v in s.workers && t.workers[v] == s.workers[v]
  {
  }

  lemma CheckKeepsJob(cfg: Config, j: World, w: nat, checkedAt: int)
    requires JobInv(j)
    ensures JobInv(JobStep(cfg, j, Prepare(w, CheckLedger(checkedAt))))
  {
    StepCheckLedgerInv(cfg, j.state, w, checkedAt);
    CheckFrame(cfg, j.state, w, checkedAt);
    JobFrame(j, StepCheckLedger(cfg, j.state, w, checkedAt));
    DueFrame(j.state, StepCheckLedger(cfg, j.state, w, checkedAt));
  }

  lemma DeliveringFrame(s: State, w: nat, delivering: Delivering)
    ensures var t := StepDeliver(s, w, delivering);
            && KeepsWaiting(s, t) && KeepsComers(s, t) && !SendsJob(s, t)
            && forall v ::
              v in t.workers && t.workers[v].ReadyToClaim? ==> v in s.workers && t.workers[v] == s.workers[v]
  {
  }

  lemma ConcludingFrame(cfg: Config, s: State, w: nat, conclusion: Conclusion, now: int)
    ensures var t := StepConclude(cfg, s, w, conclusion, now);
            && KeepsWaiting(s, t) && KeepsComers(s, t) && (SendsJob(s, t) ==> t.row.nextAttemptAt.Some?)
            && forall v ::
              v in t.workers && t.workers[v].ReadyToClaim? ==> v in s.workers && t.workers[v] == s.workers[v]
  {
    ConcludingMoves(cfg, At(s, w), conclusion, now);
  }

  lemma EventFrame(cfg: Config, s: State, event: Event)
    requires Inv(s) && !event.Crash?
    ensures var t := StepOutside(cfg, s, event);
            && KeepsWaiting(s, t) && KeepsComers(s, t) && (SendsJob(s, t) ==> t.row.nextAttemptAt.Some?)
            && forall v ::
              v in t.workers && t.workers[v].ReadyToClaim? ==> v in s.workers && t.workers[v] == s.workers[v]
  {
    if !event.Reap? { EventMoves(cfg, s, event); }
  }

  lemma CrashKeepsJob(cfg: Config, j: World, w: nat)
    requires JobInv(j)
    ensures JobInv(JobStep(cfg, j, Outside(Crash(w))))
  {
    StepInv(cfg, j.state, Outside(Crash(w)));
    var k := JobStep(cfg, j, Outside(Crash(w)));
    if Waits(k.state.row) && !k.isWaiting {
      if v :| v in j.state.workers && IsOnItsWay(j.state.workers[v]) {
        assert IsOnItsWay(k.state.workers[v]);
      } else {
        var v :| v in j.asking && IsEarly(j.state.row, j.asking[v]);
        assert v in k.asking;
      }
    }
  }

  lemma ExplainKeepsJob(j: World, w: nat)
    requires JobInv(j)
    ensures JobInv(ExplainStep(j, w))
  {
    var k := ExplainStep(j, w);
    if Waits(k.state.row) && !k.isWaiting {
      if !exists v :: v in j.state.workers && IsOnItsWay(j.state.workers[v]) {
        var v :| v in j.asking && IsEarly(j.state.row, j.asking[v]);
        assert v in k.asking;
      }
    }
  }

  lemma StepKeepsJob(cfg: Config, j: World, a: Action)
    requires JobInv(j)
    ensures JobInv(JobStep(cfg, j, a))
  {
    match a
    case Prepare(w, Arrive) => ArriveKeepsJob(cfg, j, w);
    case Prepare(w, Promote) => PromoteKeepsJob(cfg, j, w);
    case Prepare(w, Claim(token)) => ClaimKeepsJob(cfg, j, w, token);
    case Prepare(w, CheckLedger(checkedAt)) => CheckKeepsJob(cfg, j, w, checkedAt);
    case Deliver(w, delivering) =>
      StepInv(cfg, j.state, a);
      DeliveringFrame(j.state, w, delivering);
      JobFrame(j, StepDeliver(j.state, w, delivering));
      DueFrame(j.state, StepDeliver(j.state, w, delivering));
    case Conclude(w, conclusion, now) =>
      StepInv(cfg, j.state, a);
      ConcludingFrame(cfg, j.state, w, conclusion, now);
      JobFrame(j, StepConclude(cfg, j.state, w, conclusion, now));
      DueFrame(j.state, StepConclude(cfg, j.state, w, conclusion, now));
    case Outside(event) =>
      if event.Crash? {
        CrashKeepsJob(cfg, j, event.worker);
      } else {
        StepInv(cfg, j.state, a);
        EventFrame(cfg, j.state, event);
        JobFrame(j, StepOutside(cfg, j.state, event));
        DueFrame(j.state, StepOutside(cfg, j.state, event));
      }
  }

  lemma {:induction false} RunKeepsJob(cfg: Config, j: World, moves: seq<Move>)
    requires JobInv(j)
    ensures JobInv(RunJobs(cfg, j, moves))
    decreases |moves|
  {
    if moves != [] {
      match moves[0] {
        case Protocol(a) => StepKeepsJob(cfg, j, a);
        case Explain(w) => ExplainKeepsJob(j, w);
      }
      RunKeepsJob(cfg, MoveJobs(cfg, j, moves[0]), moves[1..]);
    }
  }

  /**
   * A job comes to wait for three reasons only: the row went from PROCESSING back to RETRYING, a
   * worker died and its own returned, or one that claimed too early found the row waiting for later.
   */
  lemma JobComesExactlyWhen(cfg: Config, j: World, move: Move)
    requires !j.isWaiting
    ensures MoveJobs(cfg, j, move).isWaiting <==>
              match move
              case Explain(w) =>
                && w in j.asking
                && ((j.state.row.status == Scheduled && j.state.row.scheduledAt.Some?
                     && j.state.row.scheduledAt.value > j.asking[w])
                    || (j.state.row.status == Retrying && j.state.row.nextAttemptAt.Some?
                        && j.state.row.nextAttemptAt.value > j.asking[w]))
              case Protocol(a) =>
                || (a.Outside? && a.event.Crash? && (!At(j.state, a.event.worker).Idle? || a.event.worker in j.asking))
                || (j.state.row.status == Processing && Step(cfg, j.state, a).row.status == Retrying)
  {
  }

  /**
   * In every run without lost jobs, a notification that waits has a job waiting for it, or a
   * worker on its way to it; and whenever nobody is at work, the job.
   */
  lemma NeverStranded(cfg: Config, row: Notification, clock: int, moves: seq<Move>)
    requires IsNew(row)
    ensures var j := RunJobs(cfg, World(Initial(row, clock), true, map[]), moves);
            && HasJob(j)
            && (Waits(j.state.row) && (forall w :: !IsBusy(j, w)) ==> j.isWaiting)
  {
    InitialInv(row, clock);
    RunKeepsJob(cfg, World(Initial(row, clock), true, map[]), moves);
    var j := RunJobs(cfg, World(Initial(row, clock), true, map[]), moves);
    if w :| w in j.state.workers && IsOnItsWay(j.state.workers[w]) {
      assert IsBusy(j, w);
    } else if w :| w in j.asking {
      assert IsBusy(j, w);
    }
  }
}
