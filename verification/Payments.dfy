/**
 * The payment tables and every transaction that payments.service.ts and orders.service.ts run on
 * them. Each transaction is a function on an immutable snapshot of the tables, together with a
 * method of PaymentStore that performs it in place, statement by statement, with its rollbacks.
 */
module Payments {
  import opened Prelude
  import opened OrderLifecycle

  /** Razorpay ids are opaque; what is used about them is who created the order, and that a
      payment belongs to one Razorpay order. */
  datatype RazorpayOrder = RazorpayOrder(account: nat, serial: nat)
  datatype PaymentId = PaymentId(order: RazorpayOrder, serial: nat)

  /** An orders row; `id` is its position in the table. Money is in paise. */
  datatype Order = Order(
    id: nat, userId: nat, storeId: Option<nat>, total: int, currency: string, status: Status,
    account: Option<nat>, razorpayOrder: Option<RazorpayOrder>)

  datatype AttemptStatus = Initiated | Captured | Failed | Abandoned

  /** A payment_attempts row; rows are kept in creation order. */
  datatype Attempt = Attempt(
    orderId: nat, razorpayOrder: RazorpayOrder, paymentId: Option<PaymentId>, amount: int,
    status: AttemptStatus, account: Option<nat>)

  datatype Writer = Checkout | PaymentFlow | OrderDesk

  datatype HistoryRow = HistoryRow(orderId: nat, from: Option<Status>, to: Status, writer: Writer)

  /** outbox_events.eventKey, the unique column of the outbox. */
  datatype EventKey = OrderPaid(orderId: nat) | StatusChanged(orderId: nat, to: Status)

  datatype Db = Db(
    orders: seq<Order>, attempts: seq<Attempt>, history: seq<HistoryRow>, outbox: set<EventKey>)

  /** The Razorpay payment entity of a webhook delivery or of a reconciliation fetch. */
  datatype Entity = Entity(id: PaymentId, razorpayOrder: RazorpayOrder, amount: int, currency: Option<string>)

  const DEFAULT_CURRENCY := "INR"

  // ---------------------------------------------------------------------------------------------
  // Reading and writing rows
  // ---------------------------------------------------------------------------------------------

  /** The WHERE clauses that select payment attempts. */
  datatype Query =
    | WithPayment(id: PaymentId)
    | OpenFor(orderId: nat, razorpayOrder: RazorpayOrder)
    | PaymentOrOpen(ofOrder: nat, payment: PaymentId, openAt: Option<RazorpayOrder>)
    | CapturedFor(capturedOrder: nat)
  {
    predicate Selects(a: Attempt) {
      match this
      case WithPayment(p) => a.paymentId == Some(p)
      case OpenFor(o, r) => a.orderId == o && a.razorpayOrder == r && a.status == Initiated
      case PaymentOrOpen(o, p, r) =>
        a.orderId == o &&
        (a.paymentId == Some(p) ||
         (a.status == Initiated && (r.Some? ==> a.razorpayOrder == r.value)))
      case CapturedFor(o) => a.orderId == o && a.status == Captured
    }
  }

  /** findFirst ordered by createdAt descending: the newest attempt the query selects. */
  function Latest(attempts: seq<Attempt>, q: Query): (r: Option<nat>)
    ensures r.Some? ==> r.value < |attempts| && q.Selects(attempts[r.value])
    ensures r.Some? ==> forall j :: r.value < j < |attempts| ==> !q.Selects(attempts[j])
    ensures r.None? ==> forall j :: 0 <= j < |attempts| ==> !q.Selects(attempts[j])
  {
    if |attempts| == 0 then None
    else if q.Selects(attempts[|attempts| - 1]) then Some(|attempts| - 1)
    else Latest(attempts[..|attempts| - 1], q)
  }

  /** findUnique on orders.razorpayOrderId. */
  function OrderWith(orders: seq<Order>, r: RazorpayOrder): (id: Option<nat>)
    ensures id.Some? ==> id.value < |orders| && orders[id.value].razorpayOrder == Some(r)
    ensures id.None? ==> forall j :: 0 <= j < |orders| ==> orders[j].razorpayOrder != Some(r)
  {
    if |orders| == 0 then None
    else if orders[|orders| - 1].razorpayOrder == Some(r) then Some(|orders| - 1)
    else OrderWith(orders[..|orders| - 1], r)
  }

  /** The two unique indexes on payment_attempts: razorpayPaymentId, and orderId WHERE CAPTURED. */
  predicate Clash(a: Attempt, b: Attempt) {
    || (a.paymentId.Some? && a.paymentId == b.paymentId)
    || (a.status == Captured && b.status == Captured && a.orderId == b.orderId)
  }

  predicate Admits(attempts: seq<Attempt>, i: nat, a: Attempt) {
    forall j :: 0 <= j < |attempts| && j != i ==> !Clash(attempts[j], a)
  }

  /** Inserts (`i` past the end) or updates attempt `i`, unless a unique index refuses the row. */
  function WriteAttempt(db: Db, i: nat, a: Attempt): TxResult<Db, nat>
    requires i <= |db.attempts|
  {
    if !Admits(db.attempts, i, a) then Rollback(UniqueViolation)
    else if i == |db.attempts| then Commit(db.(attempts := db.attempts + [a]), i)
    else Commit(db.(attempts := db.attempts[i := a]), i)
  }

  function InsertOutboxEvent(db: Db, key: EventKey): TxResult<Db, ()> {
    if key in db.outbox then Rollback(UniqueViolation)
    else Commit(db.(outbox := db.outbox + {key}), ())
  }

  predicate Knows(db: Db, order: Order) {
    order.id < |db.orders|
  }

  /** The status compare-and-set and its history row; `order` is the caller's own, possibly stale,
      copy. The value says whether this call performed the move. */
  function TransitionOrder(db: Db, order: Order, to: Status, writer: Writer): TxResult<Db, bool>
    requires Knows(db, order)
  {
    if !IsTransitionAllowed(order.status, to) then Rollback(IllegalTransition)
    else if db.orders[order.id].status != order.status then Commit(db, false)
    else
      Commit(db.(orders := db.orders[order.id := db.orders[order.id].(status := to)],
                 history := db.history + [HistoryRow(order.id, Some(order.status), to, writer)]), true)
  }

  /** assertCapturedPaymentMatchesOrder. */
  predicate MatchesOrder(order: Order, e: Entity) {
    && (order.razorpayOrder.Some? ==> e.razorpayOrder == order.razorpayOrder.value)
    && (if e.currency.Some? then e.currency.value else DEFAULT_CURRENCY) ==
       (if order.currency == "" then DEFAULT_CURRENCY else order.currency)
    && e.amount == order.total
  }

  // ---------------------------------------------------------------------------------------------
  // The transactions
  // ---------------------------------------------------------------------------------------------

  /** Marks attempt `i` captured by payment `p`; the value says whether the row changed. */
  function Capture(db: Db, i: nat, p: PaymentId): TxResult<Db, bool>
    requires i < |db.attempts|
  {
    if db.attempts[i].status == Captured then Commit(db, false)
    else
      match WriteAttempt(db, i, db.attempts[i].(status := Captured, paymentId := Some(p)))
      case Rollback(e) => Rollback(e)
      case Commit(db1, _) => Commit(db1, true)
  }

  /** verifyPayment's transaction. `existing` was looked up by payment id before it began. */
  function Verify(db: Db, order: Order, rp: RazorpayOrder, p: PaymentId, existing: Option<nat>): TxResult<Db, Status>
    requires Knows(db, order)
    requires existing.Some? ==> existing.value < |db.attempts|
  {
    var found := if existing.Some? then existing else Latest(db.attempts, OpenFor(order.id, rp));
    if found.None? then Rollback(Rejected)
    else
      match Capture(db, found.value, p)
      case Rollback(e) => Rollback(e)
      case Commit(db1, changed) =>
        if changed then RecordVerified(db1, order) else Commit(db1, db1.orders[order.id].status)
  }

  /** The rest of verifyPayment's transaction: its event is inserted whether or not the
      compare-and-set moved the order. */
  function RecordVerified(db: Db, order: Order): TxResult<Db, Status>
    requires Knows(db, order)
  {
    match TransitionOrder(db, order, Paid, PaymentFlow)
    case Rollback(e) => Rollback(e)
    case Commit(db1, _) =>
      match InsertOutboxEvent(db1, OrderPaid(order.id))
      case Rollback(e) => Rollback(e)
      case Commit(db2, _) => Commit(db2, db2.orders[order.id].status)
  }

  /** findOrCreateAttempt and findOrCreateMerchantAttempt; `account` is stamped on creation only. */
  function FindOrCreateAttempt(db: Db, order: Order, e: Entity, account: Option<nat>): (r: TxResult<Db, nat>)
    ensures r.Commit? ==> r.value < |r.db.attempts| && r.db.orders == db.orders
  {
    match Latest(db.attempts, WithPayment(e.id))
    case Some(i) => Commit(db, i)
    case None =>
      match Latest(db.attempts, OpenFor(order.id, e.razorpayOrder))
      case Some(i) => WriteAttempt(db, i, db.attempts[i].(paymentId := Some(e.id)))
      case None =>
        WriteAttempt(db, |db.attempts|,
                     Attempt(order.id, e.razorpayOrder, Some(e.id), e.amount, Initiated, account))
  }

  function ApplyCaptured(db: Db, order: Order, i: nat, e: Entity): TxResult<Db, ()>
    requires Knows(db, order) && i < |db.attempts|
  {
    if !MatchesOrder(order, e) then Rollback(Mismatch)
    else
      match Capture(db, i, e.id)
      case Rollback(f) => Rollback(f)
      case Commit(db1, changed) =>
        if !changed || !IsTransitionAllowed(order.status, Paid) then Commit(db1, ())
        else AnnouncePaid(TransitionOrder(db1, order, Paid, PaymentFlow), order.id)
  }

  /** The ORDER_PAID event, inserted only when the transition was performed. */
  function AnnouncePaid(t: TxResult<Db, bool>, id: nat): TxResult<Db, ()> {
    match t
    case Rollback(f) => Rollback(f)
    case Commit(db, moved) => if moved then InsertOutboxEvent(db, OrderPaid(id)) else Commit(db, ())
  }

  function AnnounceFailed(t: TxResult<Db, bool>, id: nat): TxResult<Db, ()> {
    match t
    case Rollback(f) => Rollback(f)
    case Commit(db, moved) =>
      if moved then InsertOutboxEvent(db, StatusChanged(id, PaymentFailed)) else Commit(db, ())
  }

  function ApplyFailed(db: Db, order: Order, i: nat, e: Entity): TxResult<Db, ()>
    requires Knows(db, order) && i < |db.attempts|
  {
    var a := db.attempts[i];
    if a.status == Captured || a.status == Failed then Commit(db, ())
    else
      match WriteAttempt(db, i, a.(status := Failed, paymentId := Some(e.id)))
      case Rollback(f) => Rollback(f)
      case Commit(db1, _) =>
        AnnounceFailed(TransitionOrder(db1, order, PaymentFailed, PaymentFlow), order.id)
  }

  datatype EventKind = PaymentCaptured | PaymentFailure | OtherEvent

  function ApplyEvent(db: Db, kind: EventKind, order: Order, i: nat, e: Entity): TxResult<Db, ()>
    requires Knows(db, order) && i < |db.attempts|
  {
    if kind == PaymentCaptured then ApplyCaptured(db, order, i, e) else ApplyFailed(db, order, i, e)
  }

  /** applyWebhookEvent (`account` is None) and applyMerchantWebhookEvent (`account` is the one the
      delivery was verified for, `resolves` whether it still resolves). The value is true for
      PROCESSED, false for IGNORED. */
  function ApplyWebhook(db: Db, kind: EventKind, e: Entity, account: Option<nat>, resolves: bool): TxResult<Db, bool>
    requires WellNumbered(db)
  {
    if kind == OtherEvent then Commit(db, false)
    else
      match OrderWith(db.orders, e.razorpayOrder)
      case None => Commit(db, false)
      case Some(id) =>
        var order := db.orders[id];
        if account.Some? && (order.account != account || !resolves) then Commit(db, false)
        else ApplyToOrder(db, kind, order, e, account)
  }

  function ApplyToOrder(db: Db, kind: EventKind, order: Order, e: Entity, account: Option<nat>): TxResult<Db, bool>
    requires Knows(db, order)
  {
    match FindOrCreateAttempt(db, order, e, account)
    case Rollback(f) => Rollback(f)
    case Commit(db1, i) =>
      match ApplyEvent(db1, kind, order, i, e)
      case Rollback(f) => Rollback(f)
      case Commit(db2, _) => Commit(db2, true)
  }

  datatype Reconciled = MarkedPaid | AlreadyTerminal | Mismatched

  /** reconcileCapturedPayment: the checks outside the transaction, then the locked one. */
  function ReconcileCaptured(db: Db, order: Order, e: Entity): TxResult<Db, Reconciled>
    requires Knows(db, order)
  {
    if !MatchesOrder(order, e) then Commit(db, Mismatched)
    else if db.orders[order.id].status != PendingPayment then Commit(db, AlreadyTerminal)
    else if Latest(db.attempts, CapturedFor(order.id)).Some? then Commit(db, AlreadyTerminal)
    else
      match AttemptToReconcile(db, order, e)
      case Rollback(f) => Rollback(f)
      case Commit(db1, i) =>
        SettleReconciled(db1, order.(status := PendingPayment), i, e)
  }

  function SettleReconciled(db: Db, order: Order, i: nat, e: Entity): TxResult<Db, Reconciled>
    requires Knows(db, order) && i < |db.attempts|
  {
    match Capture(db, i, e.id)
    case Rollback(f) => Rollback(f)
    case Commit(db1, changed) =>
      if !changed then Commit(db1, AlreadyTerminal)
      else
        match AnnouncePaid(TransitionOrder(db1, order, Paid, PaymentFlow), order.id)
        case Rollback(f) => Rollback(f)
        case Commit(db2, _) => Commit(db2, MarkedPaid)
  }

  function AttemptToReconcile(db: Db, order: Order, e: Entity): (r: TxResult<Db, nat>)
    ensures r.Commit? ==> r.value < |r.db.attempts| && r.db.orders == db.orders
  {
    match Latest(db.attempts, PaymentOrOpen(order.id, e.id, order.razorpayOrder))
    case Some(i) => Commit(db, i)
    case None =>
      var rp := if order.razorpayOrder.Some? then order.razorpayOrder.value else e.razorpayOrder;
      WriteAttempt(db, |db.attempts|, Attempt(order.id, rp, None, e.amount, Initiated, None))
  }

  /** updateMany of every still-open attempt of one order to ABANDONED. */
  function AbandonOpen(attempts: seq<Attempt>, id: nat): (r: seq<Attempt>)
    ensures |r| == |attempts|
    ensures forall i :: 0 <= i < |attempts| ==>
      r[i] == if attempts[i].orderId == id && attempts[i].status == Initiated
              then attempts[i].(status := Abandoned) else attempts[i]
  {
    if |attempts| == 0 then []
    else
      var a := attempts[|attempts| - 1];
      AbandonOpen(attempts[..|attempts| - 1], id) +
      [if a.orderId == id && a.status == Initiated then a.(status := Abandoned) else a]
  }

  /** failStalePendingOrder; the value says whether the order was failed. */
  function FailStale(db: Db, order: Order): TxResult<Db, bool>
    requires Knows(db, order)
  {
    if db.orders[order.id].status != PendingPayment then Commit(db, false)
    else if Latest(db.attempts, CapturedFor(order.id)).Some? then Commit(db, false)
    else
      var db1 := db.(attempts := AbandonOpen(db.attempts, order.id));
      match AnnounceFailed(
        TransitionOrder(db1, order.(status := PendingPayment), PaymentFailed, PaymentFlow), order.id)
      case Rollback(f) => Rollback(f)
      case Commit(db2, _) => Commit(db2, true)
  }

  /** transitionOrderWithHistory, as cancelOrder and adminTransitionStatus run it. */
  function DeskTransition(db: Db, order: Order, to: Status): TxResult<Db, bool>
    requires Knows(db, order)
  {
    match TransitionOrder(db, order, to, OrderDesk)
    case Rollback(f) => Rollback(f)
    case Commit(db1, moved) =>
      if !moved then Commit(db1, false)
      else
        match InsertOutboxEvent(db1, StatusChanged(order.id, to))
        case Rollback(f) => Rollback(f)
        case Commit(db2, _) => Commit(db2, true)
  }

  // initiatePayment runs outside any transaction: each of these is one auto-committed statement.

  /** The retry's compare-and-set PAYMENT_FAILED -> PENDING_PAYMENT. Its history row is a later
      statement, so another writer can run in between. */
  function RetryCas(db: Db, order: Order): (Db, bool)
    requires Knows(db, order)
  {
    if db.orders[order.id].status != order.status then (db, false)
    else (db.(orders := db.orders[order.id := db.orders[order.id].(status := PendingPayment)]), true)
  }

  function RetryHistory(db: Db, order: Order): Db {
    db.(history := db.history + [HistoryRow(order.id, Some(order.status), PendingPayment, PaymentFlow)])
  }

  /** UPDATE orders SET paymentAccountId WHERE paymentAccountId IS NULL. */
  function BindAccount(db: Db, id: nat, account: nat): (Db, bool)
    requires id < |db.orders|
  {
    if db.orders[id].account.Some? then (db, false)
    else (db.(orders := db.orders[id := db.orders[id].(account := Some(account))]), true)
  }

  /** UPDATE orders SET razorpayOrderId WHERE razorpayOrderId IS NULL, under its unique index. */
  function AssociateRazorpayOrder(db: Db, id: nat, rp: RazorpayOrder): TxResult<Db, bool>
    requires id < |db.orders|
  {
    if db.orders[id].razorpayOrder.Some? then Commit(db, false)
    else if OrderWith(db.orders, rp).Some? then Rollback(UniqueViolation)
    else Commit(db.(orders := db.orders[id := db.orders[id].(razorpayOrder := Some(rp))]), true)
  }

  function CreateAttempt(db: Db, order: Order, rp: RazorpayOrder, account: nat): TxResult<Db, nat> {
    WriteAttempt(db, |db.attempts|, Attempt(order.id, rp, None, order.total, Initiated, Some(account)))
  }

  /** Checkout's order row with its first history row. */
  function PlaceOrder(db: Db, userId: nat, storeId: Option<nat>, total: int, currency: string): Db {
    var id := |db.orders|;
    db.(orders := db.orders + [Order(id, userId, storeId, total, currency, PendingPayment, None, None)],
        history := db.history + [HistoryRow(id, None, PendingPayment, Checkout)])
  }

  /** Every row carries its own primary key. */
  ghost predicate WellNumbered(db: Db) {
    forall i :: 0 <= i < |db.orders| ==> db.orders[i].id == i
  }

  // ---------------------------------------------------------------------------------------------
  // The same transactions, in place
  // ---------------------------------------------------------------------------------------------

  class PaymentStore {
    var orders: seq<Order>
    var attempts: seq<Attempt>
    var history: seq<HistoryRow>
    var outbox: set<EventKey>

    constructor ()
      ensures Tables() == Db([], [], [], {})
    {
      orders, attempts, history, outbox := [], [], [], {};
    }

    function Tables(): Db
      reads this
    {
      Db(orders, attempts, history, outbox)
    }

    /** ROLLBACK: everything the transaction wrote is undone. */
    method Restore(saved: Db)
      modifies this
      ensures Tables() == saved
    {
      orders, attempts, history, outbox := saved.orders, saved.attempts, saved.history, saved.outbox;
    }

    method FindLatest(q: Query) returns (r: Option<nat>)
      ensures r == Latest(attempts, q)
    {
      var i := |attempts|;
      assert attempts[..i] == attempts;
      while i > 0
        invariant 0 <= i <= |attempts|
        invariant Latest(attempts, q) == Latest(attempts[..i], q)
      {
        i := i - 1;
        assert attempts[..i + 1][..i] == attempts[..i];
        if q.Selects(attempts[i]) {
          return Some(i);
        }
      }
      return None;
    }

    method PutAttempt(i: nat, a: Attempt) returns (r: Attempted<nat>)
      requires i <= |attempts|
      modifies this`attempts
      ensures Follows(WriteAttempt(old(Tables()), i, a), Tables(), r)
      ensures r.Throw? ==> attempts == old(attempts)
    {
      if !Admits(attempts, i, a) {
        return Throw(UniqueViolation);
      }
      attempts := if i == |attempts| then attempts + [a] else attempts[i := a];
      return Done(i);
    }

    method InsertEvent(key: EventKey) returns (r: Attempted<()>)
      modifies this`outbox
      ensures Follows(InsertOutboxEvent(old(Tables()), key), Tables(), r)
    {
      if key in outbox {
        return Throw(UniqueViolation);
      }
      outbox := outbox + {key};
      return Done(());
    }

    method Transition(order: Order, to: Status, writer: Writer) returns (r: Attempted<bool>)
      requires Knows(Tables(), order)
      modifies this`orders, this`history
      ensures Follows(TransitionOrder(old(Tables()), order, to, writer), Tables(), r)
      ensures |orders| == old(|orders|)
    {
      if !IsTransitionAllowed(order.status, to) {
        return Throw(IllegalTransition);
      }
      if orders[order.id].status != order.status {
        return Done(false);
      }
      orders := orders[order.id := orders[order.id].(status := to)];
      history := history + [HistoryRow(order.id, Some(order.status), to, writer)];
      return Done(true);
    }

    method CaptureAttempt(i: nat, p: PaymentId) returns (r: Attempted<bool>)
      requires i < |attempts|
      modifies this`attempts
      ensures Follows(Capture(old(Tables()), i, p), Tables(), r)
    {
      if attempts[i].status == Captured {
        return Done(false);
      }
      var w := PutAttempt(i, attempts[i].(status := Captured, paymentId := Some(p)));
      if w.Throw? {
        return Throw(w.reason);
      }
      return Done(true);
    }

    method VerifyInTransaction(order: Order, rp: RazorpayOrder, p: PaymentId, existing: Option<nat>)
      returns (r: Attempted<Status>)
      requires Knows(Tables(), order)
      requires existing.Some? ==> existing.value < |attempts|
      modifies this
      ensures Executes(Verify(old(Tables()), order, rp, p, existing), old(Tables()), Tables(), r)
    {
      var saved := Tables();
      var found := existing;
      if found.None? {
        found := FindLatest(OpenFor(order.id, rp));
      }
      if found.None? {
        return Throw(Rejected);
      }
      var changed := CaptureAttempt(found.value, p);
      if changed.Throw? {
        Restore(saved);
        return Throw(changed.reason);
      }
      if changed.value {
        var moved := Transition(order, Paid, PaymentFlow);
        if moved.Throw? {
          Restore(saved);
          return Throw(moved.reason);
        }
        var sent := InsertEvent(OrderPaid(order.id));
        if sent.Throw? {
          Restore(saved);
          return Throw(sent.reason);
        }
      }
      return Done(orders[order.id].status);
    }

    method FindOrCreate(order: Order, e: Entity, account: Option<nat>) returns (r: Attempted<nat>)
      modifies this`attempts
      ensures Follows(FindOrCreateAttempt(old(Tables()), order, e, account), Tables(), r)
    {
      var byPayment := FindLatest(WithPayment(e.id));
      if byPayment.Some? {
        return Done(byPayment.value);
      }
      var byOrder := FindLatest(OpenFor(order.id, e.razorpayOrder));
      if byOrder.Some? {
        r := PutAttempt(byOrder.value, attempts[byOrder.value].(paymentId := Some(e.id)));
        return;
      }
      r := PutAttempt(|attempts|,
                      Attempt(order.id, e.razorpayOrder, Some(e.id), e.amount, Initiated, account));
    }

    method MarkPaid(order: Order) returns (r: Attempted<()>)
      requires Knows(Tables(), order)
      modifies this`orders, this`history, this`outbox
      ensures Follows(AnnouncePaid(TransitionOrder(old(Tables()), order, Paid, PaymentFlow), order.id), Tables(), r)
    {
      var moved := Transition(order, Paid, PaymentFlow);
      if moved.Throw? {
        return Throw(moved.reason);
      }
      if moved.value {
        r := InsertEvent(OrderPaid(order.id));
        return;
      }
      return Done(());
    }

    method MarkFailed(order: Order) returns (r: Attempted<()>)
      requires Knows(Tables(), order)
      modifies this`orders, this`history, this`outbox
      ensures Follows(AnnounceFailed(TransitionOrder(old(Tables()), order, PaymentFailed, PaymentFlow), order.id), Tables(), r)
    {
      var moved := Transition(order, PaymentFailed, PaymentFlow);
      if moved.Throw? {
        return Throw(moved.reason);
      }
      if moved.value {
        r := InsertEvent(StatusChanged(order.id, PaymentFailed));
        return;
      }
      return Done(());
    }

    method CapturedDelivery(order: Order, i: nat, e: Entity) returns (r: Attempted<()>)
      requires Knows(Tables(), order) && i < |attempts|
      modifies this
      ensures Follows(ApplyCaptured(old(Tables()), order, i, e), Tables(), r)
    {
      if !MatchesOrder(order, e) {
        return Throw(Mismatch);
      }
      var changed := CaptureAttempt(i, e.id);
      if changed.Throw? {
        return Throw(changed.reason);
      }
      if !changed.value || !IsTransitionAllowed(order.status, Paid) {
        return Done(());
      }
      r := MarkPaid(order);
    }

    method FailedDelivery(order: Order, i: nat, e: Entity) returns (r: Attempted<()>)
      requires Knows(Tables(), order) && i < |attempts|
      modifies this
      ensures Follows(ApplyFailed(old(Tables()), order, i, e), Tables(), r)
    {
      if attempts[i].status == Captured || attempts[i].status == Failed {
        return Done(());
      }
      var w := PutAttempt(i, attempts[i].(status := Failed, paymentId := Some(e.id)));
      if w.Throw? {
        return Throw(w.reason);
      }
      r := MarkFailed(order);
    }

    method ApplyWebhookEvent(kind: EventKind, e: Entity, account: Option<nat>, resolves: bool)
      returns (r: Attempted<bool>)
      requires WellNumbered(Tables())
      modifies this
      ensures Executes(ApplyWebhook(old(Tables()), kind, e, account, resolves), old(Tables()), Tables(), r)
    {
      if kind == OtherEvent {
        return Done(false);
      }
      var saved := Tables();
      var id := OrderWith(orders, e.razorpayOrder);
      if id.None? {
        return Done(false);
      }
      var order := orders[id.value];
      if account.Some? && (order.account != account || !resolves) {
        return Done(false);
      }
      var i := FindOrCreate(order, e, account);
      if i.Throw? {
        Restore(saved);
        return Throw(i.reason);
      }
      var applied: Attempted<()>;
      if kind == PaymentCaptured {
        applied := CapturedDelivery(order, i.value, e);
      } else {
        applied := FailedDelivery(order, i.value, e);
      }
      if applied.Throw? {
        Restore(saved);
        return Throw(applied.reason);
      }
      return Done(true);
    }

    method ReconcileCapturedPayment(order: Order, e: Entity) returns (r: Attempted<Reconciled>)
      requires Knows(Tables(), order)
      modifies this
      ensures Executes(ReconcileCaptured(old(Tables()), order, e), old(Tables()), Tables(), r)
    {
      if !MatchesOrder(order, e) {
        return Done(Mismatched);
      }
      var saved := Tables();
      if orders[order.id].status != PendingPayment {
        return Done(AlreadyTerminal);
      }
      var captured := FindLatest(CapturedFor(order.id));
      if captured.Some? {
        return Done(AlreadyTerminal);
      }
      var found := FindLatest(PaymentOrOpen(order.id, e.id, order.razorpayOrder));
      var i: nat;
      if found.Some? {
        i := found.value;
      } else {
        var rp := if order.razorpayOrder.Some? then order.razorpayOrder.value else e.razorpayOrder;
        var made := PutAttempt(|attempts|, Attempt(order.id, rp, None, e.amount, Initiated, None));
        if made.Throw? {
          Restore(saved);
          return Throw(made.reason);
        }
        i := made.value;
      }
      var changed := CaptureAttempt(i, e.id);
      if changed.Throw? {
        Restore(saved);
        return Throw(changed.reason);
      }
      if !changed.value {
        return Done(AlreadyTerminal);
      }
      var paid := MarkPaid(order.(status := PendingPayment));
      if paid.Throw? {
        Restore(saved);
        return Throw(paid.reason);
      }
      return Done(MarkedPaid);
    }

    method FailStalePendingOrder(order: Order) returns (r: Attempted<bool>)
      requires Knows(Tables(), order)
      modifies this
      ensures Executes(FailStale(old(Tables()), order), old(Tables()), Tables(), r)
    {
      var saved := Tables();
      if orders[order.id].status != PendingPayment {
        return Done(false);
      }
      var captured := FindLatest(CapturedFor(order.id));
      if captured.Some? {
        return Done(false);
      }
      attempts := AbandonOpen(attempts, order.id);
      var failed := MarkFailed(order.(status := PendingPayment));
      if failed.Throw? {
        Restore(saved);
        return Throw(failed.reason);
      }
      return Done(true);
    }

    method TransitionOrderWithHistory(order: Order, to: Status) returns (r: Attempted<bool>)
      requires Knows(Tables(), order)
      modifies this
      ensures Executes(DeskTransition(old(Tables()), order, to), old(Tables()), Tables(), r)
    {
      var saved := Tables();
      var moved := Transition(order, to, OrderDesk);
      if moved.Throw? {
        Restore(saved);
        return Throw(moved.reason);
      }
      if moved.value {
        var sent := InsertEvent(StatusChanged(order.id, to));
        if sent.Throw? {
          Restore(saved);
          return Throw(sent.reason);
        }
      }
      return Done(moved.value);
    }

    // initiatePayment's statements, each committed on its own.

    method RetryFailedOrder(order: Order) returns (won: bool)
      requires Knows(Tables(), order)
      modifies this`orders
      ensures (Tables(), won) == RetryCas(old(Tables()), order)
    {
      won := orders[order.id].status == order.status;
      if won {
        orders := orders[order.id := orders[order.id].(status := PendingPayment)];
      }
    }

    method InsertRetryHistory(order: Order)
      modifies this`history
      ensures Tables() == RetryHistory(old(Tables()), order)
    {
      history := history + [HistoryRow(order.id, Some(order.status), PendingPayment, PaymentFlow)];
    }

    method BindPaymentAccount(id: nat, account: nat) returns (won: bool)
      requires id < |orders|
      modifies this`orders
      ensures (Tables(), won) == BindAccount(old(Tables()), id, account)
    {
      won := orders[id].account.None?;
      if won {
        orders := orders[id := orders[id].(account := Some(account))];
      }
    }

    method AssociateProviderOrder(id: nat, rp: RazorpayOrder) returns (r: Attempted<bool>)
      requires id < |orders|
      modifies this`orders
      ensures Executes(AssociateRazorpayOrder(old(Tables()), id, rp), old(Tables()), Tables(), r)
    {
      if orders[id].razorpayOrder.Some? {
        return Done(false);
      }
      var owner := OrderWith(orders, rp);
      if owner.Some? {
        return Throw(UniqueViolation);
      }
      orders := orders[id := orders[id].(razorpayOrder := Some(rp))];
      return Done(true);
    }

    method CreatePaymentAttempt(order: Order, rp: RazorpayOrder, account: nat) returns (r: Attempted<nat>)
      modifies this`attempts
      ensures Executes(CreateAttempt(old(Tables()), order, rp, account), old(Tables()), Tables(), r)
    {
      r := PutAttempt(|attempts|, Attempt(order.id, rp, None, order.total, Initiated, Some(account)));
    }

    method PlaceNewOrder(userId: nat, storeId: Option<nat>, total: int, currency: string)
      modifies this`orders, this`history
      ensures Tables() == PlaceOrder(old(Tables()), userId, storeId, total, currency)
    {
      var id := |orders|;
      orders := orders + [Order(id, userId, storeId, total, currency, PendingPayment, None, None)];
      history := history + [HistoryRow(id, None, PendingPayment, Checkout)];
    }
  }
}
