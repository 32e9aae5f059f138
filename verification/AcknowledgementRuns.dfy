/**
 * Any sequence of acknowledgements, repeated and in any order, applied one after
 * another to a notification that was sent.
 */
module AcknowledgementRuns {
  import opened Wrappers
  import opened Lifecycle
  import opened Failures
  import opened Rows
  import opened Acknowledgements
  import opened Delivery

  /** PENDING < SERVER < DEVICE < READ < PLAYED < ERROR. */
  function Rank(acknowledgement: int): int {
    if acknowledgement == ERROR then 5 else acknowledgement
  }

  /** Merging is the least upper bound in that order. */
  lemma MergeIsJoin(current: int, incoming: int)
    requires IsAcknowledgement(current) && IsAcknowledgement(incoming)
    ensures var merged := Merge(current, incoming);
            && merged in {current, incoming}
            && Rank(current) <= Rank(merged) && Rank(incoming) <= Rank(merged)
            && (forall bound | IsAcknowledgement(bound) && Rank(current) <= Rank(bound)
                && Rank(incoming) <= Rank(bound) ::
                  Rank(merged) <= Rank(bound))
  {
  }

  datatype Receipt = Receipt(acknowledgement: int, at: int)

  predicate AllKnown(receipts: seq<Receipt>) {
    forall i :: 0 <= i < |receipts| ==> IsAcknowledgement(receipts[i].acknowledgement)
  }

  /** One callback, read and written with none other in between. */
  function Absorb(row: Notification, receipt: Receipt): Notification {
    match Acknowledge(row, receipt.acknowledgement, receipt.at)
    case None => row
    case Some(changes) => ApplyTransition(row, row.status, changes).GetOr(row)
  }

  function AbsorbAll(row: Notification, receipts: seq<Receipt>): Notification {
    if receipts == [] then row
    else Absorb(AbsorbAll(row, receipts[..|receipts| - 1]), receipts[|receipts| - 1])
  }

  /** How many of the callbacks report APPLIED rather than IGNORED. */
  function AppliedCount(row: Notification, receipts: seq<Receipt>): nat {
    if receipts == [] then 0
    else
      var last := receipts[|receipts| - 1];
      var before := receipts[..|receipts| - 1];
      AppliedCount(row, before)
        + if Acknowledge(AbsorbAll(row, before), last.acknowledgement, last.at).Some? then 1 else 0
  }

  predicate JustSent(row: Notification) {
    row.status == Sent && row.acknowledgement == PENDING
  }

  predicate Decides(acknowledgement: int) {
    acknowledgement == ERROR || MeansDelivered(acknowledgement)
  }

  /** The status the first deciding acknowledgement calls for. */
  function FirstDecision(receipts: seq<Receipt>): Status {
    if receipts == [] then Sent
    else if Decides(receipts[0].acknowledgement) then
      if receipts[0].acknowledgement == ERROR then Failed else Delivered
    else FirstDecision(receipts[1..])
  }

  lemma {:induction false} FirstDecisionAppend(receipts: seq<Receipt>, last: Receipt)
    ensures FirstDecision(receipts + [last]) ==
            if FirstDecision(receipts) != Sent then FirstDecision(receipts) else FirstDecision([last])
  {
    if receipts != [] {
      assert (receipts + [last])[1..] == receipts[1..] + [last];
      FirstDecisionAppend(receipts[1..], last);
    }
  }

  /**
   * One receipt, column by column. One that ranks no higher changes nothing; any other is stored,
   * decides the status of a message still SENT, and stamps what happened for the first time.
   */
  lemma ReceiptWrites(row: Notification, receipt: Receipt)
    requires IsAcknowledgement(row.acknowledgement) && IsAcknowledgement(receipt.acknowledgement)
    ensures var a, after := receipt.acknowledgement, Absorb(row, receipt);
            if Rank(a) <= Rank(row.acknowledgement) then after == row
            else
              after == row.(
                acknowledgement := a,
                status := if row.status != Sent then row.status
                          else if a == -1 then Failed else if a >= 2 then Delivered else Sent,
                deliveredAt := if a >= 2 && row.deliveredAt.None? then Some(receipt.at) else row.deliveredAt,
                readAt := if a >= 3 && row.readAt.None? then Some(receipt.at) else row.readAt,
                failedAt := if a == -1 then Some(receipt.at) else row.failedAt,
                failureCode := if a == -1 then Some(ProviderAcknowledgementError) else row.failureCode)
  {
  }

  /** When the first receipt of at least this value came, unless an ERROR came before it. */
  function FirstAt(receipts: seq<Receipt>, least: int): Option<int> {
    if receipts == [] || receipts[0].acknowledgement == ERROR then None
    else if receipts[0].acknowledgement >= least then Some(receipts[0].at)
    else FirstAt(receipts[1..], least)
  }

  function FirstErrorAt(receipts: seq<Receipt>): Option<int> {
    if receipts == [] then None
    else if receipts[0].acknowledgement == ERROR then Some(receipts[0].at)
    else FirstErrorAt(receipts[1..])
  }

  lemma {:induction false} FirstAtAppend(receipts: seq<Receipt>, last: Receipt, least: int)
    ensures FirstAt(receipts + [last], least) ==
            if FirstAt(receipts, least).Some? then FirstAt(receipts, least)
            else if FirstErrorAt(receipts).Some? then None else FirstAt([last], least)
    ensures FirstErrorAt(receipts + [last]) ==
            if FirstErrorAt(receipts).Some? then FirstErrorAt(receipts) else FirstErrorAt([last])
  {
    if receipts != [] {
      assert (receipts + [last])[1..] == receipts[1..] + [last];
      FirstAtAppend(receipts[1..], last, least);
    }
  }

  /** Each stamp is of the first receipt that called for it, in every sequence. */
  lemma {:induction false} StampsAreOfTheFirst(row: Notification, receipts: seq<Receipt>)
    requires JustSent(row) && row.deliveredAt.None? && row.readAt.None? && row.failedAt.None? && AllKnown(receipts)
    ensures var after := AbsorbAll(row, receipts);
            && IsAcknowledgement(after.acknowledgement)
            && after.deliveredAt == FirstAt(receipts, DEVICE) && after.readAt == FirstAt(receipts, READ)
            && after.failedAt == FirstErrorAt(receipts)
            && (after.acknowledgement == ERROR <==> FirstErrorAt(receipts).Some?)
            && (after.acknowledgement >= DEVICE ==> FirstAt(receipts, DEVICE).Some?)
            && (after.acknowledgement >= READ ==> FirstAt(receipts, READ).Some?)
            && (after.acknowledgement in {PENDING, SERVER} ==> FirstAt(receipts, DEVICE).None?)
            && (after.acknowledgement in {PENDING, SERVER, DEVICE} ==> FirstAt(receipts, READ).None?)
  {
    if receipts != [] {
      var before, last := receipts[..|receipts| - 1], receipts[|receipts| - 1];
      StampsAreOfTheFirst(row, before);
      ReceiptWrites(AbsorbAll(row, before), last);
      assert receipts == before + [last];
      FirstAtAppend(before, last, DEVICE);
      FirstAtAppend(before, last, READ);
    }
  }

  /** The stored value is the join of everything received, whatever the order. */
  lemma {:induction false} StoredIsJoin(row: Notification, receipts: seq<Receipt>)
    requires JustSent(row) && AllKnown(receipts)
    ensures var stored := AbsorbAll(row, receipts).acknowledgement;
            && IsAcknowledgement(stored)
            && (stored == PENDING || exists i :: 0 <= i < |receipts| && receipts[i].acknowledgement == stored)
            && (forall i :: 0 <= i < |receipts| ==> Rank(receipts[i].acknowledgement) <= Rank(stored))
  {
    if receipts != [] {
      var before := receipts[..|receipts| - 1];
      StoredIsJoin(row, before);
      MergeIsJoin(AbsorbAll(row, before).acknowledgement, receipts[|receipts| - 1].acknowledgement);
    }
  }

  ghost predicate Received(receipts: seq<Receipt>, acknowledgement: int) {
    exists i :: 0 <= i < |receipts| && receipts[i].acknowledgement == acknowledgement
  }

  lemma MoreStoresNoLess(row: Notification, fewer: seq<Receipt>, more: seq<Receipt>)
    requires JustSent(row) && AllKnown(fewer) && AllKnown(more)
    requires forall a | Received(fewer, a) :: Received(more, a)
    ensures Rank(AbsorbAll(row, fewer).acknowledgement) <= Rank(AbsorbAll(row, more).acknowledgement)
  {
    StoredIsJoin(row, fewer);
    StoredIsJoin(row, more);
    var stored := AbsorbAll(row, fewer).acknowledgement;
    if stored != PENDING {
      assert Received(fewer, stored);
      var i :| 0 <= i < |more| && more[i].acknowledgement == stored;
    }
  }

  /** Two histories with the same acknowledgements in them, in any order and number, store the same value. */
  lemma OrderIsIrrelevant(row: Notification, xs: seq<Receipt>, ys: seq<Receipt>)
    requires JustSent(row) && AllKnown(xs) && AllKnown(ys)
    requires forall a :: Received(xs, a) <==> Received(ys, a)
    ensures AbsorbAll(row, xs).acknowledgement == AbsorbAll(row, ys).acknowledgement
  {
    MoreStoresNoLess(row, xs, ys);
    MoreStoresNoLess(row, ys, xs);
    StoredIsJoin(row, xs);
    StoredIsJoin(row, ys);
  }

  /** The status is what the first ERROR-or-at-least-DEVICE acknowledgement decided, and stays so. */
  lemma {:induction false} FirstDecisionStands(row: Notification, receipts: seq<Receipt>)
    requires JustSent(row) && AllKnown(receipts)
    ensures AbsorbAll(row, receipts).status == FirstDecision(receipts)
    ensures FirstDecision(receipts) == Sent ==> AbsorbAll(row, receipts).acknowledgement in {PENDING, SERVER}
    ensures FirstDecision(receipts) in {Sent, Delivered, Failed}
  {
    if receipts != [] {
      var before, last := receipts[..|receipts| - 1], receipts[|receipts| - 1];
      FirstDecisionStands(row, before);
      StoredIsJoin(row, before);
      assert receipts == before + [last];
      FirstDecisionAppend(before, last);
    }
  }

  /** Each applied callback moves the stored value strictly up an order of six, so at most five are. */
  lemma {:induction false} AppliedAtMostFive(row: Notification, receipts: seq<Receipt>)
    requires JustSent(row) && AllKnown(receipts)
    ensures AppliedCount(row, receipts) <= Rank(AbsorbAll(row, receipts).acknowledgement) <= 5
  {
    StoredIsJoin(row, receipts);
    if receipts != [] {
      var before, last := receipts[..|receipts| - 1], receipts[|receipts| - 1];
      AppliedAtMostFive(row, before);
      StoredIsJoin(row, before);
      MergeIsJoin(AbsorbAll(row, before).acknowledgement, last.acknowledgement);
    }
  }

  /**
   * A callback handled again, after a crash kept it from being marked as
   * processed, changes no column at all, whatever was received in between.
   */
  lemma ReprocessingChangesNothing(row: Notification, receipts: seq<Receipt>, i: nat, again: int)
    requires JustSent(row) && AllKnown(receipts) && i < |receipts|
    ensures var row' := AbsorbAll(row, receipts);
            && Acknowledge(row', receipts[i].acknowledgement, again).None?
            && Absorb(row', Receipt(receipts[i].acknowledgement, again)) == row'
  {
    StoredIsJoin(row, receipts);
    MergeIsJoin(AbsorbAll(row, receipts).acknowledgement, receipts[i].acknowledgement);
  }

  /** In the transition system, a callback that reads and writes undisturbed absorbs its receipt. */
  lemma SerialCallbackAbsorbs(cfg: Config, s: State, c: nat, incoming: int, now: int)
    requires s.row.providerMessageId.Some? && IsAcknowledgement(incoming)
    ensures var read := Step(cfg, s, Outside(ReadForCallback(c, incoming)));
            Step(cfg, read, Outside(WriteCallback(c, now))).row == Absorb(s.row, Receipt(incoming, now))
  {
  }

  // ----- the inbox -----

  const UNMATCHED_GRACE_MILLISECONDS := 60_000

  /** `Thrown` hands the callback back to the queue; the others settle it. */
  datatype WebhookOutcome = Applied | Ignored | Unmatched | Thrown

  datatype WebhookDelivery = WebhookDelivery(
    messageId: string,
    fromUs: bool,
    incoming: int,
    receivedAt: int,
    processedAt: Option<int>,
    attempts: nat,
    outcome: Option<WebhookOutcome>)

  predicate IsPending(deliveries: map<nat, WebhookDelivery>, event: nat) {
    event in deliveries && deliveries[event].processedAt.None?
  }

  /** What processing a delivery reports. */
  function OutcomeOf(row: Notification, delivery: WebhookDelivery, now: int): WebhookOutcome {
    if !delivery.fromUs then Ignored
    else if row.providerMessageId != Some(delivery.messageId) then
      if now - delivery.receivedAt < UNMATCHED_GRACE_MILLISECONDS then Thrown else Unmatched
    else if Acknowledge(row, delivery.incoming, now).Some? then Applied
    else Ignored
  }

  /** The callbacks received by a connection, and one notification they may be about. */
  class Inbox {
    var row: Notification
    var deliveries: map<nat, WebhookDelivery>

    constructor (row: Notification)
      ensures this.row == row && deliveries == map[]
    {
      this.row, this.deliveries := row, map[];
    }

    /** An event seen before conflicts with the one recorded, and is not recorded again. */
    method Record(event: nat, messageId: string, fromUs: bool, incoming: int, now: int) returns (isNew: bool)
      modifies this`deliveries
      ensures isNew == (event !in old(deliveries))
      ensures deliveries == if isNew
                            then old(deliveries)[event :=
                              WebhookDelivery(messageId, fromUs, incoming, now, None, 0, None)]
                            else old(deliveries)
    {
      isNew := event !in deliveries;
      if isNew {
        deliveries := deliveries[event := WebhookDelivery(messageId, fromUs, incoming, now, None, 0, None)];
      }
    }

    /** Counts the attempt, unless the event has been processed already. */
    method ClaimForProcessing(event: nat) returns (claimed: Option<WebhookDelivery>)
      modifies this`deliveries
      ensures claimed.Some? <==> IsPending(old(deliveries), event)
      ensures claimed.None? ==> deliveries == old(deliveries)
      ensures claimed.Some? ==>
                && claimed.value == old(deliveries)[event].(attempts := old(deliveries)[event].attempts + 1)
                && deliveries == old(deliveries)[event := claimed.value]
    {
      claimed := None;
      if event in deliveries && deliveries[event].processedAt.None? {
        var counted := deliveries[event].(attempts := deliveries[event].attempts + 1);
        deliveries := deliveries[event := counted];
        claimed := Some(counted);
      }
    }

    /**
     * Applies one callback. A crash may come after the row was written and before
     * the event is marked; an event already marked changes nothing.
     */
    method Process(event: nat, now: int, crashes: bool) returns (outcome: WebhookOutcome)
      modifies this
      ensures !IsPending(old(deliveries), event) ==>
                row == old(row) && deliveries == old(deliveries) && outcome == Ignored
      ensures IsPending(old(deliveries), event) ==>
                var delivery := old(deliveries)[event];
                && outcome == OutcomeOf(old(row), delivery, now)
                && row == (if delivery.fromUs && old(row).providerMessageId == Some(delivery.messageId)
                           then Absorb(old(row), Receipt(delivery.incoming, now)) else old(row))
                && event in deliveries
                && deliveries[event].processedAt == (if crashes || outcome == Thrown then None else Some(now))
                && deliveries - {event} == old(deliveries) - {event}
                && deliveries[event].attempts == delivery.attempts + 1
                && deliveries[event].outcome
                   == (if crashes || outcome == Thrown then delivery.outcome else Some(outcome))
      ensures IsPending(old(deliveries), event) && IsAcknowledgement(old(row).acknowledgement)
              && IsAcknowledgement(old(deliveries)[event].incoming) ==>
                var delivery := old(deliveries)[event];
                var isOurs := old(row).providerMessageId == Some(delivery.messageId);
                && (outcome == Applied <==>
                      delivery.fromUs && isOurs && Rank(delivery.incoming) > Rank(old(row).acknowledgement))
                && (outcome == Thrown <==> delivery.fromUs && !isOurs && now < delivery.receivedAt + 60_000)
                && (outcome == Unmatched <==> delivery.fromUs && !isOurs && now >= delivery.receivedAt + 60_000)
                && (outcome != Applied ==> row == old(row))
    {
      var claimed := ClaimForProcessing(event);
      if claimed.None? {
        return Ignored;
      }
      var delivery := claimed.value;
      if !delivery.fromUs {
        outcome := Ignored;
      } else if row.providerMessageId != Some(delivery.messageId) {
        if now - delivery.receivedAt < UNMATCHED_GRACE_MILLISECONDS {
          return Thrown;
        }
        outcome := Unmatched;
      } else {
        var changes := Acknowledge(row, delivery.incoming, now);
        if changes.Some? {
          row := Write(row, changes.value);
        }
        outcome := if changes.Some? then Applied else Ignored;
      }
      if !crashes {
        deliveries := deliveries[event := delivery.(processedAt := Some(now), outcome := Some(outcome))];
      }
    }
  }
}
