/** The order status graph that every writer's compare-and-set follows. */
module OrderLifecycle {

  datatype Status =
    | PendingPayment
    | Paid
    | PaymentFailed
    | Confirmed
    | InProduction
    | Shipped
    | Delivered
    | Cancelled
    | Refunded

  function Targets(from: Status): set<Status> {
    match from
    case PendingPayment => {Paid, PaymentFailed}
    case PaymentFailed => {PendingPayment}
    case Paid => {Cancelled, Confirmed, Refunded}
    case Confirmed => {Cancelled, InProduction, Refunded}
    case InProduction => {Shipped, Refunded}
    case Shipped => {Delivered, Refunded}
    case Delivered => {Refunded}
    case Cancelled => {Refunded}
    case Refunded => {}
  }

  predicate IsTransitionAllowed(from: Status, to: Status) {
    to in Targets(from)
  }

  /** The order is still waiting for money: it can bounce between these two states only. */
  predicate Unpaid(s: Status) {
    s == PendingPayment || s == PaymentFailed
  }
}
