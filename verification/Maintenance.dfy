/**
 * The repair pass over all notifications: it returns abandoned claims to the queue
 * and gives every due notification a dispatch job, at most 200 of each at a time.
 */
module Maintenance {
  import opened Wrappers
  import opened Identifiers
  import opened Lifecycle
  import opened Rows

  type Table = map<nat, Notification>

  /** The rows, and the notifications with a dispatch job waiting: a key accepts one at a time. */
  datatype World = World(notifications: Table, waiting: set<nat>)

  const BATCH_SIZE := 200

  // ----- the two scans -----

  predicate IsStuck(row: Notification, cutoff: int) {
    row.status == Processing && row.claimedAt.Some? && row.claimedAt.value < cutoff
  }

  predicate IsDue(row: Notification, now: int) {
    || row.status == Queued
    || (row.status == Retrying && row.nextAttemptAt.Some? && row.nextAttemptAt.value <= now)
    || (row.status == Scheduled && row.scheduledAt.Some? && row.scheduledAt.value <= now)
  }

  function StuckClaims(table: Table, cutoff: int): map<nat, int> {
    map id | id in table && IsStuck(table[id], cutoff) :: table[id].claimedAt.value
  }

  function DueForDispatch(table: Table, now: int): map<nat, int> {
    map id | id in table && IsDue(table[id], now) :: table[id].createdAt
  }

  /** What ordering by the key and taking a limited number may give; ties are broken anyhow. */
  ghost predicate IsOldest(batch: set<nat>, keys: map<nat, int>, limit: nat) {
    && batch <= keys.Keys
    && |batch| == (if |keys.Keys| <= limit then |keys.Keys| else limit)
    && forall taken, left :: taken in batch && left in keys && left !in batch ==> keys[taken] <= keys[left]
  }

  /** No key in `ids` is below that of `id`. */
  predicate IsLeast(id: nat, ids: set<nat>, keys: map<nat, int>)
    requires ids <= keys.Keys
  {
    id in ids && forall other :: other in ids ==> keys[id] <= keys[other]
  }

  lemma {:induction false} MinimumExists(keys: map<nat, int>, ids: set<nat>) returns (least: nat)
    requires ids != {} && ids <= keys.Keys
    ensures IsLeast(least, ids, keys)
    decreases |ids|
  {
    var some :| some in ids;
    var rest := ids - {some};
    least := some;
    if rest != {} {
      var id := MinimumExists(keys, rest);
      least := if keys[id] < keys[some] then id else some;
    }
    forall other | other in ids ensures keys[least] <= keys[other] {
      assert other == some || other in rest;
    }
  }

  ghost predicate IsSorted(batch: seq<nat>, keys: map<nat, int>) {
    && IsDistinct(batch)
    && (forall i :: 0 <= i < |batch| ==> batch[i] in keys)
    && forall i, j :: 0 <= i < j < |batch| ==> keys[batch[i]] <= keys[batch[j]]
  }

  /** Everything taken is in order, and nothing left is older. */
  ghost predicate IsTaken(batch: seq<nat>, left: set<nat>, keys: map<nat, int>) {
    && IsSorted(batch, keys)
    && left == keys.Keys - MembersOf(batch) && |left| + |batch| == |keys.Keys|
    && forall i, id :: 0 <= i < |batch| && id in left ==> keys[batch[i]] <= keys[id]
  }

  lemma SortedWithLast(batch: seq<nat>, keys: map<nat, int>, id: nat)
    requires IsSorted(batch, keys) && id in keys && id !in MembersOf(batch)
    requires forall i :: 0 <= i < |batch| ==> keys[batch[i]] <= keys[id]
    ensures IsSorted(batch + [id], keys)
  {
    assert forall i :: 0 <= i < |batch| ==> batch[i] in MembersOf(batch);
  }

  lemma TakeNext(batch: seq<nat>, left: set<nat>, keys: map<nat, int>, id: nat)
    requires IsTaken(batch, left, keys)
    requires id in left && IsLeast(id, left, keys)
    ensures IsTaken(batch + [id], left - {id}, keys)
  {
    SortedWithLast(batch, keys, id);
    LeftAfter(batch, left, keys.Keys, id);
  }

  lemma LeftAfter(batch: seq<nat>, left: set<nat>, all: set<nat>, id: nat)
    requires left == all - MembersOf(batch)
    ensures left - {id} == all - MembersOf(batch + [id])
  {
    assert MembersOf(batch + [id]) == MembersOf(batch) + {id};
  }

  lemma TakenIsOldest(batch: seq<nat>, left: set<nat>, keys: map<nat, int>, limit: nat)
    requires IsTaken(batch, left, keys) && |batch| <= limit && (|batch| == limit || left == {})
    ensures IsOldest(MembersOf(batch), keys, limit)
  {
    var taken := MembersOf(batch);
    assert taken <= keys.Keys && left + taken == keys.Keys && left * taken == {};
  }

  /** The ordered and limited scan. */
  method OldestFirst(keys: map<nat, int>, limit: nat) returns (batch: seq<nat>)
    ensures IsSorted(batch, keys)
    ensures IsOldest(MembersOf(batch), keys, limit)
  {
    batch := [];
    var left := keys.Keys;
    while |batch| < limit && left != {}
      invariant IsTaken(batch, left, keys) && |batch| <= limit
      decreases |left|
    {
      ghost var least := MinimumExists(keys, left);
      var id :| id in left && IsLeast(id, left, keys);
      TakeNext(batch, left, keys, id);
      batch := batch + [id];
      left := left - {id};
    }
    TakenIsOldest(batch, left, keys, limit);
  }

  // ----- the effect of a pass -----

  function ReleaseRow(row: Notification, now: int): Notification {
    ApplyTransition(row, Processing, ToDeferred(now)).GetOr(row)
  }

  function ReleaseAll(table: Table, ids: set<nat>, now: int): Table {
    map id | id in table :: if id in ids then ReleaseRow(table[id], now) else table[id]
  }

  /** What one pass chose: the claims it released, and the due notifications it offered jobs to. */
  datatype Pass = Pass(claims: set<nat>, jobs: set<nat>)

  /**
   * A pass with nothing else acting. It reads the clock at `now` to release claims older than
   * `timeout`, and again at `later` to look for what is due.
   */
  ghost predicate IsPass(world: World, pass: Pass, timeout: int, now: int, later: int) {
    && IsOldest(pass.claims, StuckClaims(world.notifications, now - timeout), BATCH_SIZE)
    && IsOldest(pass.jobs, DueForDispatch(ReleaseAll(world.notifications, pass.claims, now), later), BATCH_SIZE)
  }

  function AfterPass(world: World, pass: Pass, now: int): World {
    World(ReleaseAll(world.notifications, pass.claims, now), world.waiting + pass.claims + pass.jobs)
  }

  /** Offers the queue took: those with no job waiting, from before or from the claims just released. */
  function Requeued(world: World, pass: Pass): nat {
    |pass.jobs - (world.waiting + pass.claims)|
  }

  // ----- the service -----

  class NotificationMaintenance {
    var notifications: Table
    var waiting: set<nat>
    const stuckClaimTimeout: int

    constructor (notifications: Table, waiting: set<nat>, stuckClaimTimeout: int)
      ensures this.notifications == notifications && this.waiting == waiting
      ensures this.stuckClaimTimeout == stuckClaimTimeout
    {
      this.notifications := notifications;
      this.waiting := waiting;
      this.stuckClaimTimeout := stuckClaimTimeout;
    }

    ghost function Now(): World
      reads this
    {
      World(notifications, waiting)
    }

    /** The queue refuses a second waiting job for the same notification. */
    method EnqueueDispatch(id: nat) returns (isAccepted: bool)
      modifies this`waiting
      ensures isAccepted == (id !in old(waiting))
      ensures waiting == old(waiting) + {id}
    {
      isAccepted := id !in waiting;
      waiting := waiting + {id};
    }

    /** One transaction; `id` comes from a scan that may be out of date by now. */
    method ReleaseClaim(id: nat, now: int) returns (isReleased: bool)
      modifies this`notifications, this`waiting
      ensures isReleased == IsHeld(old(notifications), id)
      ensures Now() == ReleaseOne(old(Now()), id, now)
    {
      if id !in notifications {
        return false;
      }
      var released := ApplyTransition(notifications[id], Processing, ToDeferred(now));
      if released.None? {
        return false;
      }
      notifications := notifications[id := released.value];
      var _ := EnqueueDispatch(id);
      isReleased := true;
    }

    /** The loop of the reaper, over the rows a scan returned, whatever became of them since. */
    method ReleaseClaims(stuck: seq<nat>, now: int) returns (reaped: nat)
      requires IsDistinct(stuck)
      modifies this`notifications, this`waiting
      ensures notifications == ReleaseAll(old(notifications), MembersOf(stuck), now)
      ensures waiting == old(waiting) + Held(old(notifications), MembersOf(stuck))
      ensures reaped == |Held(old(notifications), MembersOf(stuck))|
    {
      reaped := 0;
      ghost var before := Now();
      for i := 0 to |stuck|
        invariant Now() == ReleaseEach(before, stuck[..i], now)
        invariant reaped == |Held(before.notifications, MembersOf(stuck[..i]))|
      {
        assert stuck[..i + 1][..i] == stuck[..i];
        EachIsHeldInTurn(before, stuck, i, now);
        var isReleased := ReleaseClaim(stuck[i], now);
        if isReleased {
          reaped := reaped + 1;
        }
      }
      assert stuck[..|stuck|] == stuck;
      ReleaseEachIsReleaseAll(before, stuck, now);
    }

    /**
     * Takes claims made before the cutoff only, and all of them if they are no more than a batch;
     * whatever was claimed later, or is not claimed, stays as it is.
     */
    method ReapStuckClaims(now: int) returns (reaped: nat, ghost claims: set<nat>)
      modifies this`notifications, this`waiting
      ensures IsOldest(claims, StuckClaims(old(notifications), now - stuckClaimTimeout), BATCH_SIZE)
      ensures notifications == ReleaseAll(old(notifications), claims, now)
      ensures waiting == old(waiting) + claims
      ensures reaped == |claims|
      ensures claims <= ClaimedBefore(old(notifications), now - stuckClaimTimeout)
      ensures OnlyReleases(old(notifications), notifications, claims, now)
      ensures |ClaimedBefore(old(notifications), now - stuckClaimTimeout)| <= 200 ==>
                NoneIsOlder(notifications, now - stuckClaimTimeout)
    {
      var cutoff := now - stuckClaimTimeout;
      var stuck := OldestFirst(StuckClaims(notifications, cutoff), BATCH_SIZE);
      claims := MembersOf(stuck);
      StuckAreHeld(notifications, claims, cutoff);
      ReapTakesTheOldest(notifications, claims, cutoff, now);
      ghost var released := ReleaseAll(notifications, claims, now);
      reaped := ReleaseClaims(stuck, now);
      assert notifications == released;
    }

    method EnqueueAll(due: seq<nat>) returns (requeued: nat)
      requires IsDistinct(due)
      modifies this`waiting
      ensures waiting == old(waiting) + MembersOf(due)
      ensures requeued == |MembersOf(due) - old(waiting)|
    {
      requeued := 0;
      ghost var jobs := waiting;
      for i := 0 to |due|
        invariant waiting == jobs + MembersOf(due[..i])
        invariant requeued == |MembersOf(due[..i]) - jobs|
      {
        TakeOneMore(due, i);
        OneMoreAccepted(MembersOf(due[..i]), jobs, due[i]);
        var isAccepted := EnqueueDispatch(due[i]);
        if isAccepted {
          requeued := requeued + 1;
        }
      }
      assert due[..|due|] == due;
    }

    method RequeueDueNotifications(now: int) returns (requeued: nat, ghost offered: set<nat>)
      modifies this`waiting
      ensures IsOldest(offered, DueForDispatch(notifications, now), BATCH_SIZE)
      ensures waiting == old(waiting) + offered
      ensures requeued == |offered - old(waiting)|
      ensures OffersTheOldest(notifications, offered, now)
    {
      var due := OldestFirst(DueForDispatch(notifications, now), BATCH_SIZE);
      offered := MembersOf(due);
      OfferTakesTheOldest(notifications, offered, now);
      requeued := EnqueueAll(due);
    }

    method RunOnce(now: int, later: int) returns (reapedClaims: nat, requeuedNotifications: nat, ghost pass: Pass)
      modifies this`notifications, this`waiting
      ensures IsPass(old(Now()), pass, stuckClaimTimeout, now, later)
      ensures Now() == AfterPass(old(Now()), pass, now)
      ensures reapedClaims == |pass.claims| && requeuedNotifications == Requeued(old(Now()), pass)
      ensures pass.claims <= ClaimedBefore(old(notifications), now - stuckClaimTimeout)
      ensures OnlyReleases(old(notifications), notifications, pass.claims, now)
      ensures |ClaimedBefore(old(notifications), now - stuckClaimTimeout)| <= 200 ==>
                NoneIsOlder(notifications, now - stuckClaimTimeout)
      ensures OffersTheOldest(notifications, pass.jobs, later)
      ensures waiting == old(waiting) + pass.claims + pass.jobs
    {
      ghost var claims, offered;
      reapedClaims, claims := ReapStuckClaims(now);
      requeuedNotifications, offered := RequeueDueNotifications(later);
      pass := Pass(claims, offered);
    }
  }

  // ----- what the scans choose, told by the rows -----

  /** Whoever has been held since before `cutoff`. */
  function ClaimedBefore(table: Table, cutoff: int): set<nat> {
    set id | id in table && table[id].status == Processing && table[id].claimedAt.Some?
             && table[id].claimedAt.value < cutoff
  }

  /** Nothing is held since before `cutoff`. */
  ghost predicate NoneIsOlder(table: Table, cutoff: int) {
    forall id :: id in table && table[id].status == Processing && table[id].claimedAt.Some? ==>
      table[id].claimedAt.value >= cutoff
  }

  /** These claims go back to waiting, due at `now`, with nothing else of their rows changed, and no other row is. */
  ghost predicate OnlyReleases(before: Table, after: Table, claims: set<nat>, now: int) {
    && after.Keys == before.Keys
    && (forall id :: id in before && id !in claims ==> after[id] == before[id])
    && forall id :: id in claims && id in before ==>
         after[id] == before[id].(status := Retrying, nextAttemptAt := Some(now), claimToken := None, claimedAt := None)
  }

  predicate MayBeSentAt(row: Notification, at: int) {
    match row.status
    case Queued => true
    case Retrying => row.nextAttemptAt.Some? && row.nextAttemptAt.value <= at
    case Scheduled => row.scheduledAt.Some? && row.scheduledAt.value <= at
    case _ => false
  }

  function SendableAt(table: Table, at: int): set<nat> {
    set id | id in table && MayBeSentAt(table[id], at)
  }

  /** Jobs go to notifications that may be sent, at most 200 and the oldest first, all of them if they are no more. */
  ghost predicate OffersTheOldest(table: Table, offered: set<nat>, at: int) {
    && |offered| <= 200
    && (forall id :: id in offered ==> id in table && MayBeSentAt(table[id], at))
    && (forall id, taken :: id in table && id !in offered && MayBeSentAt(table[id], at) && taken in offered ==>
          table[taken].createdAt <= table[id].createdAt)
    && (|SendableAt(table, at)| <= 200 ==>
          forall id :: id in table && MayBeSentAt(table[id], at) ==> id in offered)
    && (|offered| < 200 ==> forall id :: id in table && MayBeSentAt(table[id], at) ==> id in offered)
  }

  /** Everything is in the batch when the batch is not full, or what there is fits it. */
  lemma NotFullIsAll(batch: set<nat>, keys: map<nat, int>)
    requires IsOldest(batch, keys, BATCH_SIZE)
    ensures |batch| < 200 || |keys.Keys| <= 200 ==> batch == keys.Keys
  {
    if |keys.Keys| <= BATCH_SIZE { WholeBatch(batch, keys, BATCH_SIZE); }
  }

  /** The claims released are old ones, none older is passed over, and those that fit one batch are all released. */
  lemma ReapTakesTheOldest(table: Table, claims: set<nat>, cutoff: int, now: int)
    requires IsOldest(claims, StuckClaims(table, cutoff), BATCH_SIZE)
    ensures claims <= ClaimedBefore(table, cutoff) && |claims| <= 200
    ensures OnlyReleases(table, ReleaseAll(table, claims, now), claims, now)
    ensures forall taken, left :: taken in claims && left in ClaimedBefore(table, cutoff) && left !in claims ==>
              table[taken].claimedAt.value <= table[left].claimedAt.value
    ensures |claims| < 200 ==> claims == ClaimedBefore(table, cutoff)
    ensures |ClaimedBefore(table, cutoff)| <= 200 ==>
              NoneIsOlder(ReleaseAll(table, claims, now), cutoff)
  {
    var stuck := StuckClaims(table, cutoff);
    assert stuck.Keys == ClaimedBefore(table, cutoff);
    NotFullIsAll(claims, stuck);
  }

  lemma OfferTakesTheOldest(table: Table, offered: set<nat>, at: int)
    requires IsOldest(offered, DueForDispatch(table, at), BATCH_SIZE)
    ensures OffersTheOldest(table, offered, at)
  {
    assert DueForDispatch(table, at).Keys == SendableAt(table, at);
    NotFullIsAll(offered, DueForDispatch(table, at));
  }

  lemma TakeOneMore(ids: seq<nat>, i: nat)
    requires i < |ids| && IsDistinct(ids)
    ensures MembersOf(ids[..i + 1]) == MembersOf(ids[..i]) + {ids[i]}
    ensures ids[i] !in MembersOf(ids[..i])
  {
    assert ids[..i + 1] == ids[..i] + [ids[i]];
  }

  /** The claims among these that are still held. */
  function Held(table: Table, ids: set<nat>): set<nat> {
    set id | id in ids && IsHeld(table, id)
  }

  lemma StuckAreHeld(table: Table, ids: set<nat>, cutoff: int)
    requires ids <= StuckClaims(table, cutoff).Keys
    ensures Held(table, ids) == ids
  {
  }

  lemma ReleaseNone(world: World, now: int)
    ensures World(ReleaseAll(world.notifications, {}, now), world.waiting + Held(world.notifications, {})) == world
  {
    assert ReleaseAll(world.notifications, {}, now) == world.notifications;
    assert Held(world.notifications, {}) == {};
  }

  predicate IsHeld(table: Table, id: nat) {
    id in table && table[id].status == Processing
  }

  function ReleaseOne(world: World, id: nat, now: int): World {
    if IsHeld(world.notifications, id)
    then World(world.notifications[id := Write(world.notifications[id], ToDeferred(now))], world.waiting + {id})
    else world
  }

  function ReleaseEach(world: World, ids: seq<nat>, now: int): World {
    if ids == [] then world else ReleaseOne(ReleaseEach(world, ids[..|ids| - 1], now), ids[|ids| - 1], now)
  }

  lemma OneMoreReleased(table: Table, done: set<nat>, id: nat, now: int)
    requires id !in done
    ensures IsHeld(ReleaseAll(table, done, now), id) == IsHeld(table, id)
    ensures ReleaseAll(table, done + {id}, now)
            == if IsHeld(table, id) then ReleaseAll(table, done, now)[id := Write(table[id], ToDeferred(now))]
               else ReleaseAll(table, done, now)
  {
  }

  lemma OneMoreHeld(table: Table, done: set<nat>, id: nat)
    requires id !in done
    ensures Held(table, done + {id}) == if IsHeld(table, id) then Held(table, done) + {id} else Held(table, done)
    ensures |Held(table, done + {id})| == |Held(table, done)| + if IsHeld(table, id) then 1 else 0
  {
    assert id !in Held(table, done);
    assert Held(table, done + {id}) == if IsHeld(table, id) then Held(table, done) + {id} else Held(table, done);
  }

  lemma {:induction false} ReleaseEachIsReleaseAll(world: World, ids: seq<nat>, now: int)
    requires IsDistinct(ids)
    ensures ReleaseEach(world, ids, now)
            == World(ReleaseAll(world.notifications, MembersOf(ids), now),
                     world.waiting + Held(world.notifications, MembersOf(ids)))
    decreases |ids|
  {
    if ids == [] {
      ReleaseNone(world, now);
      assert MembersOf(ids) == {};
    } else {
      var n := |ids| - 1;
      ReleaseEachIsReleaseAll(world, ids[..n], now);
      TakeOneMore(ids, n);
      assert ids[..n + 1] == ids;
      ReleaseOneMore(world, MembersOf(ids[..n]), ids[n], now);
    }
  }

  lemma ReleaseOneMore(world: World, done: set<nat>, id: nat, now: int)
    requires id !in done
    ensures ReleaseOne(World(ReleaseAll(world.notifications, done, now),
                             world.waiting + Held(world.notifications, done)), id, now)
            == World(ReleaseAll(world.notifications, done + {id}, now),
                     world.waiting + Held(world.notifications, done + {id}))
  {
    OneMoreReleased(world.notifications, done, id, now);
    OneMoreHeld(world.notifications, done, id);
  }

  lemma EachIsHeldInTurn(world: World, ids: seq<nat>, i: nat, now: int)
    requires IsDistinct(ids) && i < |ids|
    ensures IsHeld(ReleaseEach(world, ids[..i], now).notifications, ids[i]) == IsHeld(world.notifications, ids[i])
    ensures |Held(world.notifications, MembersOf(ids[..i + 1]))|
            == |Held(world.notifications, MembersOf(ids[..i]))| + if IsHeld(world.notifications, ids[i]) then 1 else 0
  {
    TakeOneMore(ids, i);
    ReleaseEachIsReleaseAll(world, ids[..i], now);
    OneMoreReleased(world.notifications, MembersOf(ids[..i]), ids[i], now);
    OneMoreHeld(world.notifications, MembersOf(ids[..i]), ids[i]);
  }

  lemma OneMoreAccepted(done: set<nat>, waiting: set<nat>, id: nat)
    requires id !in done
    ensures |(done + {id}) - waiting| == |done - waiting| + if id in waiting then 0 else 1
  {
    if id in waiting {
      assert (done + {id}) - waiting == done - waiting;
    } else {
      assert (done + {id}) - waiting == (done - waiting) + {id};
    }
  }

  // ----- what a pass achieves -----

  /** The repair scan looks for exactly what a dispatch could claim, once promotion has had its turn. */
  lemma DueIsWhatDispatchCanClaim(row: Notification, token: Token, now: int)
    ensures IsDue(row, now) <==> ClaimForDispatch(PromoteScheduled(row, now).GetOr(row), token, now).Some?
  {
  }

  lemma WholeBatch(batch: set<nat>, keys: map<nat, int>, limit: nat)
    requires IsOldest(batch, keys, limit) && |keys.Keys| <= limit
    ensures batch == keys.Keys
  {
    SameSizeSubset(batch, keys.Keys);
  }

  lemma SameSizeSubset(a: set<nat>, b: set<nat>)
    requires a <= b && |a| == |b|
    ensures a == b
  {
    var rest := b - a;
    assert rest + a == b && rest * a == {};
    assert |rest| == 0;
  }

  lemma StuckAfterRelease(table: Table, batch: set<nat>, cutoff: int, now: int)
    requires batch <= StuckClaims(table, cutoff).Keys
    ensures StuckClaims(ReleaseAll(table, batch, now), cutoff).Keys == StuckClaims(table, cutoff).Keys - batch
  {
  }

  /** A claim that was returned is due at once, and counts among the due of the same pass. */
  lemma DueAfterRelease(table: Table, batch: set<nat>, cutoff: int, now: int, later: int)
    requires batch <= StuckClaims(table, cutoff).Keys && now <= later
    ensures DueForDispatch(ReleaseAll(table, batch, now), later).Keys == DueForDispatch(table, later).Keys + batch
    ensures DueForDispatch(table, later).Keys * batch == {}
  {
  }

  /** No claim older than `cutoff` is left, and all that is due at `at` has a job waiting. */
  ghost predicate IsRepaired(world: World, cutoff: int, at: int) {
    && StuckClaims(world.notifications, cutoff).Keys == {}
    && DueForDispatch(world.notifications, at).Keys <= world.waiting
  }

  // ----- when one pass is enough -----

  /** Those no younger than `id`, itself among them. */
  function NoYounger(keys: map<nat, int>, id: nat): set<nat>
    requires id in keys
  {
    set other | other in keys && keys[other] <= keys[id]
  }

  /**
   * The expired claims fit one batch; and once they are released, anything due that neither has a
   * job nor gets one with its release is among the oldest 200, however the ties are broken.
   */
  ghost predicate IsWithinReach(world: World, timeout: int, now: int, later: int) {
    var stuck := StuckClaims(world.notifications, now - timeout).Keys;
    var all := DueForDispatch(ReleaseAll(world.notifications, stuck, now), later);
    && |stuck| <= BATCH_SIZE
    && forall id :: id in all && id !in world.waiting && id !in stuck ==> |NoYounger(all, id)| <= BATCH_SIZE
  }

  lemma SubsetSize(a: set<nat>, b: set<nat>)
    requires a <= b
    ensures |a| <= |b|
  {
    assert a + (b - a) == b;
  }

  /** Whoever stays out of a full batch has the whole batch before it. */
  lemma LeftOutIsFarDown(batch: set<nat>, keys: map<nat, int>, limit: nat, id: nat)
    requires IsOldest(batch, keys, limit) && id in keys && id !in batch
    ensures |batch| == limit && |NoYounger(keys, id)| > limit
  {
    if |keys.Keys| <= limit { WholeBatch(batch, keys, limit); }
    assert |batch + {id}| == |batch| + 1;
    SubsetSize(batch + {id}, NoYounger(keys, id));
  }

  lemma OldestExists(keys: map<nat, int>, limit: nat) returns (batch: set<nat>)
    ensures IsOldest(batch, keys, limit)
  {
    var ids := OldestInOrder(keys, limit);
    batch := MembersOf(ids);
  }

  lemma {:induction false} OldestInOrder(keys: map<nat, int>, limit: nat) returns (ids: seq<nat>)
    ensures IsTaken(ids, keys.Keys - MembersOf(ids), keys)
    ensures |ids| <= limit && (|ids| == limit || keys.Keys - MembersOf(ids) == {})
    ensures IsOldest(MembersOf(ids), keys, limit)
    decreases limit
  {
    if limit == 0 {
      ids := [];
      assert MembersOf(ids) == {} && keys.Keys - {} == keys.Keys;
    } else {
      ids := OldestInOrder(keys, limit - 1);
      var left := keys.Keys - MembersOf(ids);
      if left != {} {
        var id := MinimumExists(keys, left);
        TakeNext(ids, left, keys, id);
        ids := ids + [id];
      }
    }
    TakenIsOldest(ids, keys.Keys - MembersOf(ids), keys, limit);
  }

  /** Whoever has more than a batch no younger than itself can be left out. */
  lemma FarDownCanBeLeftOut(keys: map<nat, int>, limit: nat, id: nat) returns (batch: set<nat>)
    requires id in keys && |NoYounger(keys, id)| > limit
    ensures IsOldest(batch, keys, limit) && id !in batch
  {
    var others := keys - {id};
    batch := OldestExists(others, limit);
    var before := NoYounger(keys, id) - {id};
    assert |before| >= limit && before <= others.Keys;
    SubsetSize(before, others.Keys);
    SubsetSize(NoYounger(keys, id), keys.Keys);
    assert |batch| == limit by { if |others.Keys| <= limit { assert |others.Keys| == limit; } }
    forall taken | taken in batch ensures keys[taken] <= keys[id] {
      TakenIsNoYounger(batch, others, before, keys[id], taken);
    }
  }

  lemma TakenIsNoYounger(batch: set<nat>, keys: map<nat, int>, before: set<nat>, bound: int, taken: nat)
    requires batch <= keys.Keys && before <= keys.Keys && |batch| <= |before| && taken in batch
    requires forall t, left :: t in batch && left in keys && left !in batch ==> keys[t] <= keys[left]
    requires forall id :: id in before ==> keys[id] <= bound
    ensures keys[taken] <= bound
  {
    if taken !in before {
      OutsideExists(before, batch, taken);
    }
  }

  lemma OutsideExists(a: set<nat>, b: set<nat>, x: nat)
    requires |b| <= |a| && x in b && x !in a
    ensures exists y :: y in a && y !in b
  {
    if a <= b { SubsetSize(a, b - {x}); }
  }

  /** A pass reaps exactly what has expired, if that fits one batch. */
  lemma ClaimsAreTheStuck(world: World, pass: Pass, timeout: int, now: int, later: int)
    requires IsPass(world, pass, timeout, now, later)
    requires |StuckClaims(world.notifications, now - timeout).Keys| <= BATCH_SIZE
    ensures pass.claims == StuckClaims(world.notifications, now - timeout).Keys
    ensures StuckClaims(AfterPass(world, pass, now).notifications, now - timeout).Keys == {}
  {
    WholeBatch(pass.claims, StuckClaims(world.notifications, now - timeout), BATCH_SIZE);
    StuckAfterRelease(world.notifications, pass.claims, now - timeout, now);
  }

  /** Within reach, a pass releases all that expired, and leaves a job for all that is due. */
  lemma PassRepairsEverything(world: World, pass: Pass, timeout: int, now: int, later: int)
    requires IsPass(world, pass, timeout, now, later) && IsWithinReach(world, timeout, now, later)
    ensures IsRepaired(AfterPass(world, pass, now), now - timeout, later)
    ensures pass.claims == StuckClaims(world.notifications, now - timeout).Keys
  {
    var after := AfterPass(world, pass, now);
    ClaimsAreTheStuck(world, pass, timeout, now, later);
    var all := DueForDispatch(after.notifications, later);
    forall id | id in all ensures id in after.waiting {
      if id !in pass.jobs { LeftOutIsFarDown(pass.jobs, all, BATCH_SIZE, id); }
    }
  }

  lemma UnreachedIsLeftOut(world: World, now: int, later: int, claims: set<nat>, id: nat) returns (jobs: set<nat>)
    requires var all := DueForDispatch(ReleaseAll(world.notifications, claims, now), later);
             id in all && id !in world.waiting && id !in claims && |NoYounger(all, id)| > BATCH_SIZE
    ensures IsOldest(jobs, DueForDispatch(ReleaseAll(world.notifications, claims, now), later), BATCH_SIZE)
    ensures !(DueForDispatch(ReleaseAll(world.notifications, claims, now), later).Keys <= world.waiting + claims + jobs)
  {
    jobs := FarDownCanBeLeftOut(DueForDispatch(ReleaseAll(world.notifications, claims, now), later), BATCH_SIZE, id);
  }

  lemma ReachIsNeeded(world: World, timeout: int, now: int, later: int) returns (pass: Pass)
    requires !IsWithinReach(world, timeout, now, later)
    ensures IsPass(world, pass, timeout, now, later)
    ensures !IsRepaired(AfterPass(world, pass, now), now - timeout, later)
  {
    var table, cutoff := world.notifications, now - timeout;
    var stuck := StuckClaims(table, cutoff);
    var claims := OldestExists(stuck, BATCH_SIZE);
    if |stuck.Keys| <= BATCH_SIZE {
      WholeBatch(claims, stuck, BATCH_SIZE);
      var all := DueForDispatch(ReleaseAll(table, claims, now), later);
      var id :| id in all && id !in world.waiting && id !in claims && |NoYounger(all, id)| > BATCH_SIZE;
      var jobs := UnreachedIsLeftOut(world, now, later, claims, id);
      pass := Pass(claims, jobs);
    } else {
      pass := TooManyExpired(world, timeout, now, later, claims);
    }
  }

  lemma TooManyExpired(world: World, timeout: int, now: int, later: int, claims: set<nat>) returns (pass: Pass)
    requires IsOldest(claims, StuckClaims(world.notifications, now - timeout), BATCH_SIZE)
    requires |StuckClaims(world.notifications, now - timeout).Keys| > BATCH_SIZE
    ensures IsPass(world, pass, timeout, now, later)
    ensures !IsRepaired(AfterPass(world, pass, now), now - timeout, later)
  {
    var jobs := OldestExists(DueForDispatch(ReleaseAll(world.notifications, claims, now), later), BATCH_SIZE);
    pass := Pass(claims, jobs);
    StuckAfterRelease(world.notifications, claims, now - timeout, now);
    SomeAreLeft(claims, StuckClaims(world.notifications, now - timeout).Keys);
  }

  lemma SomeAreLeft(a: set<nat>, b: set<nat>)
    requires a <= b && |a| < |b|
    ensures b - a != {}
  {
    assert b - a + a == b;
  }

  /**
   * Every pass over this world leaves no expired claim and a job waiting for all that is due,
   * exactly when what needs a job is within reach.
   */
  lemma PassRepairsExactlyWhen(world: World, timeout: int, now: int, later: int)
    ensures (forall pass | IsPass(world, pass, timeout, now, later) ::
               IsRepaired(AfterPass(world, pass, now), now - timeout, later))
            <==> IsWithinReach(world, timeout, now, later)
  {
    if IsWithinReach(world, timeout, now, later) {
      forall pass | IsPass(world, pass, timeout, now, later)
        ensures IsRepaired(AfterPass(world, pass, now), now - timeout, later)
      {
        PassRepairsEverything(world, pass, timeout, now, later);
      }
    } else {
      var pass := ReachIsNeeded(world, timeout, now, later);
    }
  }

  /** Every due row having its job is enough, however many there are. */
  lemma JobsAreEnough(world: World, timeout: int, now: int, later: int)
    requires now <= later && |StuckClaims(world.notifications, now - timeout).Keys| <= BATCH_SIZE
    requires DueForDispatch(world.notifications, later).Keys <= world.waiting
    ensures IsWithinReach(world, timeout, now, later)
  {
    DueAfterRelease(world.notifications, StuckClaims(world.notifications, now - timeout).Keys, now - timeout, now,
                    later);
  }

  /** So is what expired and what is due fitting one batch together. */
  lemma RoomIsEnough(world: World, timeout: int, now: int, later: int)
    requires now <= later
    requires |StuckClaims(world.notifications, now - timeout).Keys|
             + |DueForDispatch(world.notifications, later).Keys| <= BATCH_SIZE
    ensures IsWithinReach(world, timeout, now, later)
  {
    var stuck := StuckClaims(world.notifications, now - timeout).Keys;
    var all := DueForDispatch(ReleaseAll(world.notifications, stuck, now), later);
    DueAfterRelease(world.notifications, stuck, now - timeout, now, later);
    FewAreInReach(all, stuck, DueForDispatch(world.notifications, later).Keys);
  }

  lemma FewAreInReach(all: map<nat, int>, stuck: set<nat>, due: set<nat>)
    requires all.Keys == due + stuck && |stuck| + |due| <= BATCH_SIZE
    ensures forall id :: id in all ==> |NoYounger(all, id)| <= BATCH_SIZE
  {
    forall id | id in all ensures |NoYounger(all, id)| <= BATCH_SIZE {
      SubsetSize(NoYounger(all, id), all.Keys);
      SubsetSize(due - stuck, due);
      assert all.Keys == stuck + (due - stuck);
    }
  }

  // ----- one claim too many -----

  lemma {:induction false} SomeIds(n: nat) returns (ids: set<nat>)
    requires n > 0
    ensures 0 in ids && |ids| == n && forall id :: id in ids ==> id < n
  {
    if n == 1 {
      ids := {0};
    } else {
      ids := SomeIds(n - 1);
      ids := ids + {n - 1};
    }
  }

  /** An expired claim, numbered 0, and the others waiting since they were created, after it. */
  function ClaimAndCrowd(ids: set<nat>): Table {
    map id | id in ids ::
      if id == 0 then NewNotification(0, None, 5).(status := Processing, claimToken := Some(0), claimedAt := Some(0))
      else NewNotification(1, None, 5)
  }

  lemma ClaimAndCrowdScans(ids: set<nat>, cutoff: int, later: int)
    requires 0 in ids && 0 < cutoff
    ensures StuckClaims(ClaimAndCrowd(ids), cutoff).Keys == {0}
    ensures DueForDispatch(ClaimAndCrowd(ids), later).Keys == ids - {0}
  {
  }

  /** Once released, the claim is due with the crowd, and the oldest of all. */
  lemma ClaimJoinsCrowd(ids: set<nat>, now: int, later: int)
    requires 0 in ids && now <= later
    ensures DueForDispatch(ReleaseAll(ClaimAndCrowd(ids), {0}, now), later)
            == map id | id in ids :: if id == 0 then 0 else 1
  {
  }

  /** The oldest of all is in any batch that takes something. */
  lemma OldestIsTaken(batch: set<nat>, keys: map<nat, int>, limit: nat, id: nat)
    requires IsOldest(batch, keys, limit) && limit > 0 && id in keys
    requires forall other :: other in keys && other != id ==> keys[id] < keys[other]
    ensures id in batch
  {
    if id !in batch {
      SubsetSize({id}, keys.Keys);
      SomeAreLeft({}, batch);
    }
  }

  lemma JobIsMissing(table: Table, pass: Pass, cutoff: int, now: int, later: int, id: nat)
    requires id in DueForDispatch(ReleaseAll(table, pass.claims, now), later) && id !in pass.claims + pass.jobs
    ensures !IsRepaired(AfterPass(World(table, {}), pass, now), cutoff, later)
  {
  }

  lemma YoungerIsLeft(batch: set<nat>, keys: map<nat, int>) returns (id: nat)
    requires IsOldest(batch, keys, BATCH_SIZE) && |keys.Keys| == BATCH_SIZE + 1
    requires 0 in keys && forall other :: other in keys && other != 0 ==> keys[0] < keys[other]
    ensures id in keys && id !in batch && id != 0
  {
    OldestIsTaken(batch, keys, BATCH_SIZE, 0);
    SomeAreLeft(batch, keys.Keys);
    id :| id in keys.Keys - batch;
  }

  lemma CrowdLeavesOne(ids: set<nat>, jobs: set<nat>, now: int, later: int) returns (id: nat)
    requires 0 in ids && |ids| == BATCH_SIZE + 1 && now <= later
    requires IsOldest(jobs, DueForDispatch(ReleaseAll(ClaimAndCrowd(ids), {0}, now), later), BATCH_SIZE)
    ensures id in DueForDispatch(ReleaseAll(ClaimAndCrowd(ids), {0}, now), later) && id != 0 && id !in jobs
  {
    ClaimJoinsCrowd(ids, now, later);
    var all := DueForDispatch(ReleaseAll(ClaimAndCrowd(ids), {0}, now), later);
    assert all.Keys == ids;
    id := YoungerIsLeft(jobs, all);
  }

  lemma CrowdPass(ids: set<nat>, pass: Pass, timeout: int, now: int, later: int)
    requires 0 in ids && 0 < now - timeout
    requires IsPass(World(ClaimAndCrowd(ids), {}), pass, timeout, now, later)
    ensures pass.claims == {0}
    ensures IsOldest(pass.jobs, DueForDispatch(ReleaseAll(ClaimAndCrowd(ids), {0}, now), later), BATCH_SIZE)
  {
    ClaimAndCrowdScans(ids, now - timeout, later);
    ClaimsAreTheStuck(World(ClaimAndCrowd(ids), {}), pass, timeout, now, later);
  }

  /**
   * One expired claim, and 200 younger notifications due, without a job for any: at most a batch
   * of each, and yet no pass repairs it. The claim takes a place among the due of the same pass.
   */
  lemma OneClaimTooMany(ids: set<nat>, pass: Pass, timeout: int, now: int, later: int)
    requires 0 in ids && |ids| == 201 && 0 < now - timeout && now <= later
    requires IsPass(World(ClaimAndCrowd(ids), {}), pass, timeout, now, later)
    ensures |StuckClaims(ClaimAndCrowd(ids), now - timeout).Keys| == 1
    ensures |DueForDispatch(ClaimAndCrowd(ids), later).Keys| == BATCH_SIZE
    ensures !IsRepaired(AfterPass(World(ClaimAndCrowd(ids), {}), pass, now), now - timeout, later)
  {
    ClaimAndCrowdScans(ids, now - timeout, later);
    CrowdPass(ids, pass, timeout, now, later);
    var id := CrowdLeavesOne(ids, pass.jobs, now, later);
    JobIsMissing(ClaimAndCrowd(ids), pass, now - timeout, now, later, id);
  }

  /** There is such a table, and a pass over it. */
  lemma OneClaimTooManyHappens(timeout: int, now: int, later: int) returns (ids: set<nat>, pass: Pass)
    requires 0 < now - timeout && now <= later
    ensures 0 in ids && |ids| == 201 && IsPass(World(ClaimAndCrowd(ids), {}), pass, timeout, now, later)
    ensures !IsRepaired(AfterPass(World(ClaimAndCrowd(ids), {}), pass, now), now - timeout, later)
  {
    ids := SomeIds(201);
    var claims := OldestExists(StuckClaims(ClaimAndCrowd(ids), now - timeout), BATCH_SIZE);
    var jobs := OldestExists(DueForDispatch(ReleaseAll(ClaimAndCrowd(ids), claims, now), later), BATCH_SIZE);
    pass := Pass(claims, jobs);
    OneClaimTooMany(ids, pass, timeout, now, later);
  }

  // ----- a second pass -----

  /** On a repaired world a pass does nothing and says so. */
  lemma RepairedStaysUntouched(world: World, pass: Pass, timeout: int, now: int, later: int)
    requires IsPass(world, pass, timeout, now, later) && IsRepaired(world, now - timeout, later)
    ensures AfterPass(world, pass, now) == world && pass.claims == {} && Requeued(world, pass) == 0
  {
    assert pass.claims == {};
    ReleaseNone(world, now);
    assert pass.jobs - (world.waiting + pass.claims) == {};
    assert world.waiting + pass.claims + pass.jobs == world.waiting;
  }

  /** So a second pass at the same readings reaps and enqueues nothing. */
  lemma SecondPassIsIdle(world: World, first: Pass, second: Pass, timeout: int, now: int, later: int)
    requires IsWithinReach(world, timeout, now, later)
    requires IsPass(world, first, timeout, now, later)
      && IsPass(AfterPass(world, first, now), second, timeout, now, later)
    ensures AfterPass(AfterPass(world, first, now), second, now) == AfterPass(world, first, now)
    ensures second.claims == {} && Requeued(AfterPass(world, first, now), second) == 0
  {
    PassRepairsEverything(world, first, timeout, now, later);
    RepairedStaysUntouched(AfterPass(world, first, now), second, timeout, now, later);
  }

  /** Under overload, what stays without a job is younger than a whole batch that got one. */
  lemma OnlyTheYoungestWait(world: World, pass: Pass, timeout: int, now: int, later: int, id: nat)
    requires IsPass(world, pass, timeout, now, later)
    requires var after := AfterPass(world, pass, now);
             id in DueForDispatch(after.notifications, later) && id !in after.waiting
    ensures |pass.jobs| == BATCH_SIZE
    ensures var due := DueForDispatch(AfterPass(world, pass, now).notifications, later);
            forall placed :: placed in pass.jobs ==> placed in due && due[placed] <= due[id]
  {
    LeftOutIsFarDown(pass.jobs, DueForDispatch(ReleaseAll(world.notifications, pass.claims, now), later), BATCH_SIZE,
                     id);
  }

  // ----- draining a backlog -----

  /** The world after some passes, one after another. */
  function AfterPasses(world: World, passes: seq<Pass>, now: int): World {
    if passes == [] then world
      else AfterPass(AfterPasses(world, passes[..|passes| - 1], now), passes[|passes| - 1], now)
  }

  ghost predicate ArePasses(world: World, passes: seq<Pass>, timeout: int, now: int, later: int) {
    passes == [] ||
    (var earlier := passes[..|passes| - 1];
     ArePasses(world, earlier, timeout, now, later) &&
     IsPass(AfterPasses(world, earlier, now), passes[|passes| - 1], timeout, now, later))
  }

  function Backlog(table: Table, timeout: int, now: int): nat {
    |StuckClaims(table, now - timeout).Keys|
  }

  lemma ReleaseReducesBacklog(table: Table, claims: set<nat>, timeout: int, now: int)
    requires var stuck := StuckClaims(table, now - timeout).Keys;
             claims <= stuck && |claims| == if |stuck| <= BATCH_SIZE then |stuck| else BATCH_SIZE
    ensures Backlog(ReleaseAll(table, claims, now), timeout, now)
            == if Backlog(table, timeout, now) <= BATCH_SIZE then 0 else Backlog(table, timeout, now) - BATCH_SIZE
  {
    StuckAfterRelease(table, claims, now - timeout, now);
    DifferenceSize(StuckClaims(table, now - timeout).Keys, claims);
  }

  lemma DifferenceSize(a: set<nat>, b: set<nat>)
    requires b <= a
    ensures |a - b| == |a| - |b|
  {
    assert a - b + b == a;
  }

  lemma {:induction false} BacklogAfter(world: World, passes: seq<Pass>, timeout: int, now: int, later: int)
    requires ArePasses(world, passes, timeout, now, later)
    ensures var backlog := Backlog(world.notifications, timeout, now);
            Backlog(AfterPasses(world, passes, now).notifications, timeout, now)
            == if backlog <= |passes| * BATCH_SIZE then 0 else backlog - |passes| * BATCH_SIZE
    decreases |passes|
  {
    if passes != [] {
      var earlier := passes[..|passes| - 1];
      BacklogAfter(world, earlier, timeout, now, later);
      ReleaseReducesBacklog(AfterPasses(world, earlier, now).notifications, passes[|passes| - 1].claims, timeout, now);
    }
  }

  /** A backlog of N expired claims is gone after N/200 passes, rounded up, and no sooner. */
  lemma BacklogDrains(world: World, passes: seq<Pass>, timeout: int, now: int, later: int)
    requires ArePasses(world, passes, timeout, now, later)
    ensures StuckClaims(AfterPasses(world, passes, now).notifications, now - timeout).Keys == {}
            <==> |passes| >= (Backlog(world.notifications, timeout, now) + BATCH_SIZE - 1) / BATCH_SIZE
  {
    BacklogAfter(world, passes, timeout, now, later);
  }
}
