/** What one delivery acknowledgement does to the notification it concerns. */
module Acknowledgements {
  import opened Wrappers
  import opened Lifecycle
  import opened Rows

  const ERROR := -1
  const PENDING := 0
  const SERVER := 1
  const DEVICE := 2
  const READ := 3
  const PLAYED := 4

  predicate IsAcknowledgement(value: int) {
    ERROR <= value <= PLAYED
  }

  function Merge(current: int, incoming: int): int {
    if incoming == ERROR || current == ERROR then ERROR
    else if current < incoming then incoming
    else current
  }

  predicate MeansDelivered(acknowledgement: int) {
    acknowledgement >= DEVICE
  }

  predicate MeansRead(acknowledgement: int) {
    acknowledgement == READ || acknowledgement == PLAYED
  }

  function ResolveStatus(current: Status, merged: int): Status {
    if current != Sent then current
    else if merged == ERROR then Failed
    else if MeansDelivered(merged) then Delivered
    else Sent
  }

  /** The columns a callback writes after reading `row`, or nothing when it is ignored. */
  function Acknowledge(row: Notification, incoming: int, now: int): Option<Changes> {
    var current := if IsAcknowledgement(row.acknowledgement) then row.acknowledgement else PENDING;
    var merged := Merge(current, incoming);
    if merged == current && row.acknowledgement == current then None
    else Some(ToAcknowledged(ResolveStatus(row.status, merged), merged,
                             MeansDelivered(merged) && row.deliveredAt.None?,
                             MeansRead(merged) && row.readAt.None?,
                             now))
  }
}
