/**
 * The order gating of the EMA crossover strategy: at most one order is in
 * flight, and the broker's notifications decide when the next may be placed.
 * The indicator values reduce to the sign of the crossover signal and the
 * position to whether one is held.
 */
module Strategy {

  /** What one call of `next()` does. */
  datatype Action = NoOrder | Buy | Sell

  /** The order states the broker reports through `notify_order`. */
  datatype OrderStatus = Created | Submitted | Accepted | Partial | Completed | Canceled | Expired | Margin | Rejected

  /** Statuses after which the order is still in flight. */
  predicate InFlight(status: OrderStatus) {
    status == Submitted || status == Accepted
  }

  /**
   * `next()`: nothing while an order is pending; when flat, buy on a crossover
   * above; when in the market, sell on a crossover below.
   */
  function Decide(pending: bool, inPosition: bool, crossover: int): (a: Action)
    ensures pending ==> a == NoOrder
    ensures a == Buy <==> !pending && !inPosition && crossover > 0
    ensures a == Sell <==> !pending && inPosition && crossover < 0
  {
    if pending then NoOrder
    else if !inPosition then (if crossover > 0 then Buy else NoOrder)
    else if crossover < 0 then Sell
    else NoOrder
  }

  /** `notify_order`: the pending order is kept only while it is submitted or accepted. */
  function PendingAfter(pending: bool, status: OrderStatus): (p: bool)
    ensures p <==> pending && InFlight(status)
  {
    if InFlight(status) then pending else false
  }

  /** The strategy object; `pending` stands for `self.order` being set. */
  class EmaCrossStrategy {
    var pending: bool

    constructor ()
      ensures !pending
    {
      pending := false;
    }

    method Next(inPosition: bool, crossover: int) returns (action: Action)
      modifies this
      ensures action == Decide(old(pending), inPosition, crossover)
      ensures pending == (old(pending) || action != NoOrder)
    {
      if pending {
        return NoOrder;
      }
      action := NoOrder;
      if !inPosition {
        if crossover > 0 {
          action := Buy;
          pending := true;
        }
      } else {
        if crossover < 0 {
          action := Sell;
          pending := true;
        }
      }
    }

    method NotifyOrder(status: OrderStatus)
      modifies this
      ensures pending == PendingAfter(old(pending), status)
    {
      if InFlight(status) {
        return;
      }
      pending := false;
    }
  }

  /** What reaches the strategy: a bar with the position and the crossover sign, or an order notification. */
  datatype Event = OnBar(inPosition: bool, crossover: int) | OnNotify(status: OrderStatus)

  /** The pending flag after a sequence of events. */
  function PendingAfterEvents(pending: bool, events: seq<Event>): bool
    decreases |events|
  {
    if events == [] then pending
    else
      var next := match events[0]
        case OnBar(inPosition, crossover) => pending || Decide(pending, inPosition, crossover) != NoOrder
        case OnNotify(status) => PendingAfter(pending, status);
      PendingAfterEvents(next, events[1..])
  }

  /** The orders placed during a sequence of events, in order. */
  function Orders(pending: bool, events: seq<Event>): seq<Action>
    decreases |events|
  {
    if events == [] then []
    else
      match events[0]
      case OnBar(inPosition, crossover) =>
        var a := Decide(pending, inPosition, crossover);
        (if a == NoOrder then [] else [a]) + Orders(pending || a != NoOrder, events[1..])
      case OnNotify(status) => Orders(PendingAfter(pending, status), events[1..])
  }

  /** The notifications that resolve an order (any status but submitted or accepted). */
  function Resolutions(events: seq<Event>): nat
    decreases |events|
  {
    if events == [] then 0
    else (if events[0].OnNotify? && !InFlight(events[0].status) then 1 else 0) + Resolutions(events[1..])
  }

  /**
   * While no notification resolves the pending order, bars place no order and
   * the order stays pending.
   */
  lemma {:induction false} NoOrderWhilePending(events: seq<Event>)
    requires Resolutions(events) == 0
    ensures Orders(true, events) == []
    ensures PendingAfterEvents(true, events)
    decreases |events|
  {
    if events != [] {
      NoOrderWhilePending(events[1..]);
    }
  }

  /**
   * Each order needs a resolution of the one before it: the orders placed are
   * at most one more than the resolving notifications (none more when an order
   * is already pending).
   */
  lemma {:induction false} OrdersBoundedByResolutions(pending: bool, events: seq<Event>)
    ensures |Orders(pending, events)| <= (if pending then 0 else 1) + Resolutions(events)
    decreases |events|
  {
    if events != [] {
      match events[0]
      case OnBar(inPosition, crossover) =>
        OrdersBoundedByResolutions(pending || Decide(pending, inPosition, crossover) != NoOrder, events[1..]);
      case OnNotify(status) =>
        OrdersBoundedByResolutions(PendingAfter(pending, status), events[1..]);
    }
  }
}
