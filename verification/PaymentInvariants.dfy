/**
 * What every payment transaction keeps: the table invariant Good, the two-state relation Grows
 * (money facts are never taken back), and the balance of the status history.
 */
module PaymentInvariants {
  import opened Prelude
  import opened OrderLifecycle
  import opened Payments

  // ---------------------------------------------------------------------------------------------
  // Counting history rows
  // ---------------------------------------------------------------------------------------------

  /** How many history rows move order `id` into status `s`. */
  function CountInto(h: seq<HistoryRow>, id: nat, s: Status): nat {
    if |h| == 0 then 0
    else CountInto(h[..|h| - 1], id, s) + (if h[|h| - 1].orderId == id && h[|h| - 1].to == s then 1 else 0)
  }

  /** How many history rows move order `id` out of status `s`. */
  function CountOutOf(h: seq<HistoryRow>, id: nat, s: Status): nat {
    if |h| == 0 then 0
    else CountOutOf(h[..|h| - 1], id, s) + (if h[|h| - 1].orderId == id && h[|h| - 1].from == Some(s) then 1 else 0)
  }

  lemma CountAppend(h: seq<HistoryRow>, r: HistoryRow)
    ensures forall id, s ::
      CountInto(h + [r], id, s) == CountInto(h, id, s) + (if r.orderId == id && r.to == s then 1 else 0)
    ensures forall id, s ::
      CountOutOf(h + [r], id, s) == CountOutOf(h, id, s) + (if r.orderId == id && r.from == Some(s) then 1 else 0)
  {
    assert (h + [r])[..|h|] == h;
  }

  lemma {:induction false} CountNone(h: seq<HistoryRow>, id: nat, s: Status)
    requires forall i :: 0 <= i < |h| ==> h[i].orderId != id
    ensures CountInto(h, id, s) == 0 && CountOutOf(h, id, s) == 0
  {
    if |h| > 0 {
      CountNone(h[..|h| - 1], id, s);
    }
  }

  /** Rows into `s` minus rows out of `s`, minus one when the order is in `s` now. */
  function Balance(db: Db, id: nat, s: Status): int
    requires id < |db.orders|
  {
    CountInto(db.history, id, s) - CountOutOf(db.history, id, s)
    - (if db.orders[id].status == s then 1 else 0)
  }

  // ---------------------------------------------------------------------------------------------
  // The invariant
  // ---------------------------------------------------------------------------------------------

  ghost predicate HasCaptured(db: Db, id: nat) {
    exists i :: 0 <= i < |db.attempts| && db.attempts[i].orderId == id && db.attempts[i].status == Captured
  }

  ghost predicate OrdersOk(db: Db) {
    && WellNumbered(db)
    && (forall i :: 0 <= i < |db.orders| && db.orders[i].razorpayOrder.Some? ==>
          db.orders[i].account == Some(db.orders[i].razorpayOrder.value.account))
    && (forall i, j :: 0 <= i < j < |db.orders| && db.orders[i].razorpayOrder.Some? ==>
          db.orders[i].razorpayOrder != db.orders[j].razorpayOrder)
  }

  /** An attempt names an order, its Razorpay order, a payment of it, and the order's account. */
  ghost predicate Belongs(db: Db, a: Attempt) {
    && a.orderId < |db.orders|
    && db.orders[a.orderId].razorpayOrder == Some(a.razorpayOrder)
    && (a.paymentId.Some? ==> a.paymentId.value.order == a.razorpayOrder)
    && (a.account.Some? ==> a.account == db.orders[a.orderId].account)
    && (a.status == Captured ==> a.paymentId.Some?)
  }

  ghost predicate AttemptsOk(db: Db) {
    && (forall i :: 0 <= i < |db.attempts| ==> Belongs(db, db.attempts[i]))
    && (forall i, j :: 0 <= i < j < |db.attempts| ==> !Clash(db.attempts[i], db.attempts[j]))
  }

  ghost predicate RowOk(db: Db, r: HistoryRow) {
    && r.orderId < |db.orders|
    && (if r.from.None? then r.to == PendingPayment else IsTransitionAllowed(r.from.value, r.to))
    && (r.to == Paid && r.writer == PaymentFlow ==> OrderPaid(r.orderId) in db.outbox && HasCaptured(db, r.orderId))
  }

  ghost predicate CountsOk(db: Db, id: nat)
    requires id < |db.orders|
  {
    && CountInto(db.history, id, Paid) == (if Unpaid(db.orders[id].status) then 0 else 1)
    && CountInto(db.history, id, PaymentFailed) == (if StatusChanged(id, PaymentFailed) in db.outbox then 1 else 0)
  }

  ghost predicate HistoryOk(db: Db) {
    && (forall i :: 0 <= i < |db.history| ==> RowOk(db, db.history[i]))
    && (forall id :: 0 <= id < |db.orders| ==> CountsOk(db, id))
    && (forall k :: k in db.outbox ==> k.orderId < |db.orders| && (k.OrderPaid? ==> HasCaptured(db, k.orderId)))
  }

  ghost predicate Good(db: Db) {
    OrdersOk(db) && AttemptsOk(db) && HistoryOk(db)
  }

  ghost predicate OrderGrows(o: Order, o': Order) {
    && o' == o.(status := o'.status, account := o'.account, razorpayOrder := o'.razorpayOrder)
    && (o.account.Some? ==> o'.account == o.account)
    && (o.razorpayOrder.Some? ==> o'.razorpayOrder == o.razorpayOrder)
    && (!Unpaid(o.status) ==> !Unpaid(o'.status))
  }

  ghost predicate AttemptGrows(a: Attempt, a': Attempt) {
    && a' == a.(status := a'.status, paymentId := a'.paymentId)
    && (a.status == Captured ==> a' == a)
  }

  /** What no later step takes back. */
  ghost predicate Grows(db: Db, db': Db) {
    && |db.orders| <= |db'.orders| && |db.attempts| <= |db'.attempts|
    && (forall i :: 0 <= i < |db.orders| ==> OrderGrows(db.orders[i], db'.orders[i]))
    && (forall i :: 0 <= i < |db.attempts| ==> AttemptGrows(db.attempts[i], db'.attempts[i]))
    && db.history <= db'.history
    && db.outbox <= db'.outbox
  }

  ghost predicate SameBalance(db: Db, db': Db)
    requires |db.orders| <= |db'.orders|
  {
    forall id, s :: 0 <= id < |db.orders| ==> Balance(db', id, s) == Balance(db, id, s)
  }

  /** One transaction keeps the invariant, grows, and leaves the history balanced. */
  ghost predicate Keeps(db: Db, db': Db) {
    Good(db') && Grows(db, db') && SameBalance(db, db') && |db'.orders| == |db.orders|
  }

  lemma GrowsTransitive(a: Db, b: Db, c: Db)
    requires Grows(a, b) && Grows(b, c)
    ensures Grows(a, c)
  {
    forall i | 0 <= i < |a.orders|
      ensures OrderGrows(a.orders[i], c.orders[i])
    {
      assert OrderGrows(a.orders[i], b.orders[i]) && OrderGrows(b.orders[i], c.orders[i]);
    }
    forall i | 0 <= i < |a.attempts|
      ensures AttemptGrows(a.attempts[i], c.attempts[i])
    {
      assert AttemptGrows(a.attempts[i], b.attempts[i]) && AttemptGrows(b.attempts[i], c.attempts[i]);
    }
  }

  lemma KeepsSelf(db: Db)
    requires Good(db)
    ensures Keeps(db, db)
  {
  }

  lemma KeepsTransitive(a: Db, b: Db, c: Db)
    requires Keeps(a, b) && Keeps(b, c)
    ensures Keeps(a, c)
  {
    GrowsTransitive(a, b, c);
  }

  // ---------------------------------------------------------------------------------------------
  // The building blocks
  // ---------------------------------------------------------------------------------------------

  /** Changing one attempt's row, or adding one, keeps everything else. */
  lemma WriteAttemptKeeps(db: Db, i: nat, a: Attempt)
    requires Good(db) && i <= |db.attempts| && Belongs(db, a)
    requires i < |db.attempts| ==> AttemptGrows(db.attempts[i], a)
    ensures Keeps(db, WriteAttempt(db, i, a).After(db))
  {
    hide OrdersOk, Clash, Belongs, HistoryOk, HasCaptured;
    var db' := WriteAttempt(db, i, a).After(db);
    if WriteAttempt(db, i, a).Commit? {
      WrittenApart(db, i, a);
      WrittenCaptures(db, i, a);
      HistoryCarries(db, db');
      forall j | 0 <= j < |db'.attempts|
        ensures Belongs(db', db'.attempts[j])
      {
        SameBelongs(db, db', db'.attempts[j]);
      }
      assert OrdersOk(db') by {
        SameOrdersOk(db, db');
      }
    }
  }

  lemma SameOrdersOk(db: Db, db': Db)
    requires db'.orders == db.orders
    ensures OrdersOk(db') <==> OrdersOk(db)
  {
  }

  lemma SameBelongs(db: Db, db': Db, a: Attempt)
    requires db'.orders == db.orders
    ensures Belongs(db', a) <==> Belongs(db, a)
  {
  }

  lemma WrittenApart(db: Db, i: nat, a: Attempt)
    requires i <= |db.attempts| && WriteAttempt(db, i, a).Commit?
    requires forall j, k :: 0 <= j < k < |db.attempts| ==> !Clash(db.attempts[j], db.attempts[k])
    ensures
      var written := WriteAttempt(db, i, a).db.attempts;
      forall j, k :: 0 <= j < k < |written| ==> !Clash(written[j], written[k])
  {
    var written := WriteAttempt(db, i, a).db.attempts;
    forall j, k | 0 <= j < k < |written|
      ensures !Clash(written[j], written[k])
    {
      if k == i {
        assert !Clash(db.attempts[j], a);
      } else if j == i {
        assert !Clash(db.attempts[k], a);
      }
    }
  }

  lemma WrittenCaptures(db: Db, i: nat, a: Attempt)
    requires i <= |db.attempts| && WriteAttempt(db, i, a).Commit?
    requires i < |db.attempts| ==> AttemptGrows(db.attempts[i], a)
    ensures forall id :: HasCaptured(db, id) ==> HasCaptured(WriteAttempt(db, i, a).db, id)
  {
    var db' := WriteAttempt(db, i, a).db;
    forall id | HasCaptured(db, id)
      ensures HasCaptured(db', id)
    {
      var j :| 0 <= j < |db.attempts| && db.attempts[j].orderId == id && db.attempts[j].status == Captured;
      assert db'.attempts[j] == db.attempts[j];
    }
  }

  /** History facts only depend on orders' statuses, the rows, the outbox and the captures. */
  lemma HistoryCarries(db: Db, db': Db)
    requires HistoryOk(db)
    requires db'.orders == db.orders && db'.history == db.history && db'.outbox == db.outbox
    requires forall id :: HasCaptured(db, id) ==> HasCaptured(db', id)
    ensures HistoryOk(db')
  {
    forall i | 0 <= i < |db.history|
      ensures RowOk(db', db'.history[i])
    {
      assert RowOk(db, db.history[i]);
    }
    forall id | 0 <= id < |db.orders|
      ensures CountsOk(db', id)
    {
      assert CountsOk(db, id);
    }
  }

  lemma CaptureKeeps(db: Db, i: nat, p: PaymentId)
    requires Good(db) && i < |db.attempts| && p.order == db.attempts[i].razorpayOrder
    ensures Keeps(db, Capture(db, i, p).After(db))
    ensures Capture(db, i, p).Commit? ==> HasCaptured(Capture(db, i, p).db, db.attempts[i].orderId)
  {
    assert Belongs(db, db.attempts[i]);
    if db.attempts[i].status != Captured {
      var a := db.attempts[i].(status := Captured, paymentId := Some(p));
      WriteAttemptKeeps(db, i, a);
      if Capture(db, i, p).Commit? {
        assert Capture(db, i, p).db.attempts[i] == a;
      }
    }
  }

  /** The order's status moves, its history row is written, and an event may be inserted. */
  function Moved(db: Db, id: nat, to: Status, writer: Writer, events: set<EventKey>): Db
    requires id < |db.orders|
  {
    db.(orders := db.orders[id := db.orders[id].(status := to)],
        history := db.history + [HistoryRow(id, Some(db.orders[id].status), to, writer)],
        outbox := db.outbox + events)
  }

  lemma MovedKeeps(db: Db, id: nat, to: Status, writer: Writer, events: set<EventKey>)
    requires Good(db) && id < |db.orders|
    requires IsTransitionAllowed(db.orders[id].status, to)
    requires forall k :: k in events ==> k.orderId == id && k !in db.outbox && (k.OrderPaid? ==> HasCaptured(db, id))
    requires to == PaymentFailed <==> StatusChanged(id, PaymentFailed) in events
    requires to == Paid && writer == PaymentFlow ==> OrderPaid(id) in events && HasCaptured(db, id)
    ensures Keeps(db, Moved(db, id, to, writer, events))
  {
    hide AttemptsOk, RowOk, CountsOk, CountInto, CountOutOf, OrdersOk, Balance;
    var db' := Moved(db, id, to, writer, events);
    MovedOrders(db, id, to, writer, events);
    MovedCounts(db, id, to, writer, events);
    StillCapturedBy(db, db');
    forall i | 0 <= i < |db'.history|
      ensures RowOk(db', db'.history[i])
    {
      MovedRow(db, id, to, writer, events, i);
    }
  }

  lemma StillCapturedBy(db: Db, db': Db)
    requires db'.attempts == db.attempts
    ensures forall x :: HasCaptured(db, x) <==> HasCaptured(db', x)
  {
    forall x
      ensures HasCaptured(db, x) <==> HasCaptured(db', x)
    {
      if j :| 0 <= j < |db.attempts| && db.attempts[j].orderId == x && db.attempts[j].status == Captured {
        assert db'.attempts[j] == db.attempts[j];
      }
    }
  }

  lemma MovedOrders(db: Db, id: nat, to: Status, writer: Writer, events: set<EventKey>)
    requires Good(db) && id < |db.orders|
    ensures OrdersOk(Moved(db, id, to, writer, events)) && AttemptsOk(Moved(db, id, to, writer, events))
  {
    hide HistoryOk;
    var db' := Moved(db, id, to, writer, events);
    forall i | 0 <= i < |db.attempts|
      ensures Belongs(db', db'.attempts[i])
    {
      assert Belongs(db, db.attempts[i]);
    }
  }

  lemma MovedRow(db: Db, id: nat, to: Status, writer: Writer, events: set<EventKey>, i: nat)
    requires Good(db) && id < |db.orders| && i <= |db.history|
    requires IsTransitionAllowed(db.orders[id].status, to)
    requires to == Paid && writer == PaymentFlow ==> OrderPaid(id) in events && HasCaptured(db, id)
    ensures RowOk(Moved(db, id, to, writer, events), Moved(db, id, to, writer, events).history[i])
  {
    hide HasCaptured, CountsOk, AttemptsOk, OrdersOk, IsTransitionAllowed;
    StillCapturedBy(db, Moved(db, id, to, writer, events));
    if i < |db.history| {
      assert RowOk(db, db.history[i]);
    }
  }

  lemma MovedCounts(db: Db, id: nat, to: Status, writer: Writer, events: set<EventKey>)
    requires Good(db) && id < |db.orders|
    requires IsTransitionAllowed(db.orders[id].status, to)
    requires forall k :: k in events ==> k.orderId == id && k !in db.outbox
    requires to == PaymentFailed <==> StatusChanged(id, PaymentFailed) in events
    ensures
      var db' := Moved(db, id, to, writer, events);
      && (forall x :: 0 <= x < |db.orders| ==> CountsOk(db', x))
      && SameBalance(db, db')
  {
    hide AttemptsOk, OrdersOk, RowOk, CountInto, CountOutOf;
    var db' := Moved(db, id, to, writer, events);
    CountAppend(db.history, HistoryRow(id, Some(db.orders[id].status), to, writer));
    forall x | 0 <= x < |db.orders|
      ensures CountsOk(db', x)
    {
      assert CountsOk(db, x);
    }
  }

  /** Inserting an event that is not the once-only PAYMENT_FAILED key. */
  lemma InsertEventKeeps(db: Db, key: EventKey)
    requires Good(db) && key.orderId < |db.orders|
    requires if key.StatusChanged? then key.to != PaymentFailed else HasCaptured(db, key.orderId)
    ensures Keeps(db, InsertOutboxEvent(db, key).After(db))
  {
    hide AttemptsOk, OrdersOk, HasCaptured, CountInto;
    var db' := InsertOutboxEvent(db, key).After(db);
    StillCapturedBy(db, db');
    SameOrdersOk(db, db');
    SameAttemptsOk(db, db');
    forall i | 0 <= i < |db.history|
      ensures RowOk(db', db'.history[i])
    {
      assert RowOk(db, db.history[i]);
    }
    forall x | 0 <= x < |db.orders|
      ensures CountsOk(db', x)
    {
      assert CountsOk(db, x);
    }
  }

  lemma SameAttemptsOk(db: Db, db': Db)
    requires db'.orders == db.orders && db'.attempts == db.attempts && AttemptsOk(db)
    ensures AttemptsOk(db')
  {
    forall i | 0 <= i < |db.attempts|
      ensures Belongs(db', db'.attempts[i])
    {
      assert Belongs(db, db.attempts[i]);
    }
  }

  lemma AnnouncePaidKeeps(db: Db, order: Order)
    requires Good(db) && Knows(db, order) && HasCaptured(db, order.id)
    ensures Keeps(db, AnnouncePaid(TransitionOrder(db, order, Paid, PaymentFlow), order.id).After(db))
  {
    var t := TransitionOrder(db, order, Paid, PaymentFlow);
    if t.Commit? && t.value && OrderPaid(order.id) !in db.outbox {
      MovedKeeps(db, order.id, Paid, PaymentFlow, {OrderPaid(order.id)});
    }
  }

  lemma AnnounceFailedKeeps(db: Db, order: Order)
    requires Good(db) && Knows(db, order)
    ensures Keeps(db, AnnounceFailed(TransitionOrder(db, order, PaymentFailed, PaymentFlow), order.id).After(db))
  {
    var t := TransitionOrder(db, order, PaymentFailed, PaymentFlow);
    if t.Commit? && t.value && StatusChanged(order.id, PaymentFailed) !in db.outbox {
      MovedKeeps(db, order.id, PaymentFailed, PaymentFlow, {StatusChanged(order.id, PaymentFailed)});
    }
  }

  // ---------------------------------------------------------------------------------------------
  // The transactions
  // ---------------------------------------------------------------------------------------------

  /** A copy of an orders row read at some earlier moment. */
  ghost predicate CopyOk(db: Db, order: Order) {
    Knows(db, order) && OrderGrows(order, db.orders[order.id])
  }

  /** A Razorpay payment belongs to one Razorpay order, and its entity says which. */
  predicate Authentic(e: Entity) {
    e.id.order == e.razorpayOrder
  }

  /** Two attempts of one Razorpay order are attempts of one shop order. */
  lemma SameRazorpayOrder(db: Db, i: nat, id: nat)
    requires Good(db) && i < |db.attempts| && id < |db.orders|
    requires db.orders[id].razorpayOrder == Some(db.attempts[i].razorpayOrder)
    ensures db.attempts[i].orderId == id
  {
    assert Belongs(db, db.attempts[i]);
  }

  lemma RecordVerifiedKeeps(db: Db, order: Order)
    requires Good(db) && Knows(db, order) && HasCaptured(db, order.id)
    ensures Keeps(db, RecordVerified(db, order).After(db))
  {
    var t := TransitionOrder(db, order, Paid, PaymentFlow);
    if t.Commit? && OrderPaid(order.id) !in db.outbox {
      if t.value {
        MovedKeeps(db, order.id, Paid, PaymentFlow, {OrderPaid(order.id)});
      } else {
        InsertEventKeeps(db, OrderPaid(order.id));
      }
    }
  }

  lemma VerifyKeeps(db: Db, order: Order, rp: RazorpayOrder, p: PaymentId, existing: Option<nat>)
    requires Good(db) && CopyOk(db, order) && order.razorpayOrder == Some(rp) && p.order == rp
    requires existing.Some? ==> existing.value < |db.attempts| && db.attempts[existing.value].orderId == order.id
    ensures Keeps(db, Verify(db, order, rp, p, existing).After(db))
  {
    var found := if existing.Some? then existing else Latest(db.attempts, OpenFor(order.id, rp));
    if found.Some? {
      assert Belongs(db, db.attempts[found.value]);
      CaptureKeeps(db, found.value, p);
      var c := Capture(db, found.value, p);
      if c.Commit? {
        RecordVerifiedKeeps(c.db, order);
        KeepsTransitive(db, c.db, RecordVerified(c.db, order).After(c.db));
      }
    }
    KeepsSelf(db);
    hide Keeps, Good, CopyOk, Capture, RecordVerified, Latest;
  }

  lemma FindOrCreateKeeps(db: Db, order: Order, e: Entity, account: Option<nat>)
    requires Good(db) && Authentic(e) && Knows(db, order) && order == db.orders[order.id]
    requires order.razorpayOrder == Some(e.razorpayOrder)
    requires account.Some? ==> account == order.account
    ensures Keeps(db, FindOrCreateAttempt(db, order, e, account).After(db))
    ensures
      var r := FindOrCreateAttempt(db, order, e, account);
      r.Commit? ==> r.db.attempts[r.value].orderId == order.id && r.db.attempts[r.value].razorpayOrder == e.razorpayOrder
  {
    var byPayment := Latest(db.attempts, WithPayment(e.id));
    if byPayment.Some? {
      assert Belongs(db, db.attempts[byPayment.value]);
      SameRazorpayOrder(db, byPayment.value, order.id);
    } else {
      var byOrder := Latest(db.attempts, OpenFor(order.id, e.razorpayOrder));
      if byOrder.Some? {
        assert Belongs(db, db.attempts[byOrder.value]);
        WriteAttemptKeeps(db, byOrder.value, db.attempts[byOrder.value].(paymentId := Some(e.id)));
      } else {
        WriteAttemptKeeps(db, |db.attempts|,
                          Attempt(order.id, e.razorpayOrder, Some(e.id), e.amount, Initiated, account));
      }
    }
  }

  lemma ApplyCapturedKeeps(db: Db, order: Order, i: nat, e: Entity)
    requires Good(db) && Authentic(e) && Knows(db, order) && i < |db.attempts|
    requires db.attempts[i].orderId == order.id && db.attempts[i].razorpayOrder == e.razorpayOrder
    ensures Keeps(db, ApplyCaptured(db, order, i, e).After(db))
  {
    CaptureKeeps(db, i, e.id);
    var c := Capture(db, i, e.id);
    if c.Commit? {
      AnnouncePaidKeeps(c.db, order);
      KeepsTransitive(db, c.db, AnnouncePaid(TransitionOrder(c.db, order, Paid, PaymentFlow), order.id).After(c.db));
    }
  }

  lemma ApplyFailedKeeps(db: Db, order: Order, i: nat, e: Entity)
    requires Good(db) && Authentic(e) && Knows(db, order) && i < |db.attempts|
    requires db.attempts[i].orderId == order.id && db.attempts[i].razorpayOrder == e.razorpayOrder
    ensures Keeps(db, ApplyFailed(db, order, i, e).After(db))
  {
    var a := db.attempts[i];
    assert Belongs(db, a);
    if a.status != Captured && a.status != Failed {
      var a' := a.(status := Failed, paymentId := Some(e.id));
      WriteAttemptKeeps(db, i, a');
      var w := WriteAttempt(db, i, a');
      if w.Commit? {
        AnnounceFailedKeeps(w.db, order);
        KeepsTransitive(db, w.db, AnnounceFailed(TransitionOrder(w.db, order, PaymentFailed, PaymentFlow), order.id).After(w.db));
      }
    }
  }

  lemma ApplyEventKeeps(db: Db, kind: EventKind, order: Order, i: nat, e: Entity)
    requires Good(db) && Authentic(e) && Knows(db, order) && i < |db.attempts|
    requires db.attempts[i].orderId == order.id && db.attempts[i].razorpayOrder == e.razorpayOrder
    ensures Keeps(db, ApplyEvent(db, kind, order, i, e).After(db))
  {
    if kind == PaymentCaptured {
      ApplyCapturedKeeps(db, order, i, e);
    } else {
      ApplyFailedKeeps(db, order, i, e);
    }
  }

  lemma KeptIsGood(db: Db, db': Db)
    ensures Keeps(db, db') ==> Good(db') && |db'.orders| == |db.orders|
  {
  }

  lemma ApplyToOrderKeeps(db: Db, kind: EventKind, order: Order, e: Entity, account: Option<nat>)
    requires Good(db) && Authentic(e) && Knows(db, order) && order == db.orders[order.id]
    requires order.razorpayOrder == Some(e.razorpayOrder)
    requires account.Some? ==> account == order.account
    ensures Keeps(db, ApplyToOrder(db, kind, order, e, account).After(db))
  {
    hide Good, Keeps, FindOrCreateAttempt, ApplyEvent;
    KeepsSelf(db);
    KeptIsGood(db, FindOrCreateAttempt(db, order, e, account).After(db));
    FindOrCreateKeeps(db, order, e, account);
    var f := FindOrCreateAttempt(db, order, e, account);
    if f.Commit? {
      ApplyEventKeeps(f.db, kind, order, f.value, e);
      KeepsTransitive(db, f.db, ApplyEvent(f.db, kind, order, f.value, e).After(f.db));
    }
  }

  lemma WebhookKeeps(db: Db, kind: EventKind, e: Entity, account: Option<nat>, resolves: bool)
    requires Good(db) && Authentic(e)
    ensures Keeps(db, ApplyWebhook(db, kind, e, account, resolves).After(db))
  {
    var id := OrderWith(db.orders, e.razorpayOrder);
    if id.Some? && !(account.Some? && db.orders[id.value].account != account) {
      ApplyToOrderKeeps(db, kind, db.orders[id.value], e, account);
    }
  }

  lemma AttemptToReconcileKeeps(db: Db, order: Order, e: Entity)
    requires Good(db) && CopyOk(db, order) && order.razorpayOrder == Some(e.razorpayOrder)
    ensures Keeps(db, AttemptToReconcile(db, order, e).After(db))
    ensures
      var r := AttemptToReconcile(db, order, e);
      r.Commit? ==> r.db.attempts[r.value].orderId == order.id && r.db.attempts[r.value].razorpayOrder == e.razorpayOrder
  {
    var found := Latest(db.attempts, PaymentOrOpen(order.id, e.id, order.razorpayOrder));
    if found.None? {
      WriteAttemptKeeps(db, |db.attempts|, Attempt(order.id, e.razorpayOrder, None, e.amount, Initiated, None));
    } else {
      assert Belongs(db, db.attempts[found.value]);
    }
  }

  lemma SettleReconciledKeeps(db: Db, order: Order, i: nat, e: Entity)
    requires Good(db) && Authentic(e) && Knows(db, order) && i < |db.attempts|
    requires db.attempts[i].orderId == order.id && db.attempts[i].razorpayOrder == e.razorpayOrder
    ensures Keeps(db, SettleReconciled(db, order, i, e).After(db))
  {
    CaptureKeeps(db, i, e.id);
    var c := Capture(db, i, e.id);
    if c.Commit? {
      AnnouncePaidKeeps(c.db, order);
      KeepsTransitive(db, c.db, AnnouncePaid(TransitionOrder(c.db, order, Paid, PaymentFlow), order.id).After(c.db));
    }
  }

  lemma ReconcileKeeps(db: Db, order: Order, e: Entity)
    requires Good(db) && Authentic(e) && CopyOk(db, order) && order.razorpayOrder.Some?
    ensures Keeps(db, ReconcileCaptured(db, order, e).After(db))
  {
    hide Good, Keeps, AttemptToReconcile, SettleReconciled, Latest;
    KeepsSelf(db);
    if MatchesOrder(order, e) && order.razorpayOrder == Some(e.razorpayOrder) {
      AttemptToReconcileKeeps(db, order, e);
      KeptIsGood(db, AttemptToReconcile(db, order, e).After(db));
      var f := AttemptToReconcile(db, order, e);
      if f.Commit? {
        var o := order.(status := PendingPayment);
        SettleReconciledKeeps(f.db, o, f.value, e);
        KeepsTransitive(db, f.db, SettleReconciled(f.db, o, f.value, e).After(f.db));
      }
    }
  }

  lemma AbandonAttemptsOk(db: Db, id: nat)
    requires AttemptsOk(db)
    ensures AttemptsOk(db.(attempts := AbandonOpen(db.attempts, id)))
  {
    hide AbandonOpen;
    var db' := db.(attempts := AbandonOpen(db.attempts, id));
    forall i | 0 <= i < |db.attempts|
      ensures Belongs(db', db'.attempts[i])
    {
      assert Belongs(db, db.attempts[i]);
    }
    forall i, j | 0 <= i < j < |db.attempts|
      ensures !Clash(db'.attempts[i], db'.attempts[j])
    {
      assert !Clash(db.attempts[i], db.attempts[j]);
    }
  }

  lemma AbandonKeeps(db: Db, id: nat)
    requires Good(db)
    ensures Keeps(db, db.(attempts := AbandonOpen(db.attempts, id)))
  {
    hide AbandonOpen, AttemptsOk, HistoryOk, OrdersOk;
    var db' := db.(attempts := AbandonOpen(db.attempts, id));
    AbandonAttemptsOk(db, id);
    SameOrdersOk(db, db');
    forall x | HasCaptured(db, x)
      ensures HasCaptured(db', x)
    {
      var j :| 0 <= j < |db.attempts| && db.attempts[j].orderId == x && db.attempts[j].status == Captured;
      assert db'.attempts[j] == db.attempts[j];
    }
    HistoryCarries(db, db');
  }

  lemma FailStaleKeeps(db: Db, order: Order)
    requires Good(db) && Knows(db, order)
    ensures Keeps(db, FailStale(db, order).After(db))
  {
    AbandonKeeps(db, order.id);
    var db1 := db.(attempts := AbandonOpen(db.attempts, order.id));
    var o := order.(status := PendingPayment);
    AnnounceFailedKeeps(db1, o);
    KeepsTransitive(db, db1, AnnounceFailed(TransitionOrder(db1, o, PaymentFailed, PaymentFlow), order.id).After(db1));
  }

  lemma DeskKeeps(db: Db, order: Order, to: Status)
    requires Good(db) && Knows(db, order)
    ensures Keeps(db, DeskTransition(db, order, to).After(db))
  {
    var t := TransitionOrder(db, order, to, OrderDesk);
    if t.Commit? && t.value && StatusChanged(order.id, to) !in db.outbox {
      MovedKeeps(db, order.id, to, OrderDesk, {StatusChanged(order.id, to)});
    }
  }

  // ---------------------------------------------------------------------------------------------
  // initiatePayment's single statements
  // ---------------------------------------------------------------------------------------------

  /** Changing an order's routing columns or moving it back to PENDING_PAYMENT. */
  lemma OrderUpdateKeeps(db: Db, id: nat, o: Order)
    requires Good(db) && id < |db.orders|
    requires OrderGrows(db.orders[id], o) && Unpaid(db.orders[id].status) == Unpaid(o.status)
    requires o.razorpayOrder.Some? ==> o.account == Some(o.razorpayOrder.value.account)
    requires o.razorpayOrder.Some? ==> forall j :: 0 <= j < |db.orders| && j != id ==> db.orders[j].razorpayOrder != o.razorpayOrder
    ensures Good(db.(orders := db.orders[id := o])) && Grows(db, db.(orders := db.orders[id := o]))
    ensures o.status == db.orders[id].status ==> Keeps(db, db.(orders := db.orders[id := o]))
  {
    var db' := db.(orders := db.orders[id := o]);
    forall i | 0 <= i < |db.attempts|
      ensures Belongs(db', db'.attempts[i])
    {
      assert Belongs(db, db.attempts[i]);
    }
    forall i | 0 <= i < |db.history|
      ensures RowOk(db', db'.history[i])
    {
      assert RowOk(db, db.history[i]);
      assert HasCaptured(db, db.history[i].orderId) ==> HasCaptured(db', db.history[i].orderId);
    }
    forall x | 0 <= x < |db.orders|
      ensures CountsOk(db', x)
    {
      assert CountsOk(db, x);
    }
  }

  lemma RetryHistoryKeeps(db: Db, order: Order)
    requires Good(db) && Knows(db, order) && order.status == PaymentFailed
    ensures Good(RetryHistory(db, order)) && Grows(db, RetryHistory(db, order))
  {
    var db' := RetryHistory(db, order);
    CountAppend(db.history, HistoryRow(order.id, Some(order.status), PendingPayment, PaymentFlow));
    forall i | 0 <= i < |db'.history|
      ensures RowOk(db', db'.history[i])
    {
      if i < |db.history| {
        assert RowOk(db, db.history[i]);
        assert HasCaptured(db, db.history[i].orderId) ==> HasCaptured(db', db.history[i].orderId);
      }
    }
    forall x | 0 <= x < |db.orders|
      ensures CountsOk(db', x)
    {
      assert CountsOk(db, x);
    }
    forall i | 0 <= i < |db.attempts|
      ensures Belongs(db', db'.attempts[i])
    {
      assert Belongs(db, db.attempts[i]);
    }
  }

  lemma PlaceOrderKeeps(db: Db, userId: nat, storeId: Option<nat>, total: int, currency: string)
    requires Good(db)
    ensures Good(PlaceOrder(db, userId, storeId, total, currency))
    ensures Grows(db, PlaceOrder(db, userId, storeId, total, currency))
    ensures SameBalance(db, PlaceOrder(db, userId, storeId, total, currency))
    ensures forall s :: Balance(PlaceOrder(db, userId, storeId, total, currency), |db.orders|, s) == 0
  {
    var db' := PlaceOrder(db, userId, storeId, total, currency);
    var row := HistoryRow(|db.orders|, None, PendingPayment, Checkout);
    CountAppend(db.history, row);
    assert forall i :: 0 <= i < |db.history| ==> RowOk(db, db.history[i]);
    forall s
      ensures CountInto(db.history, |db.orders|, s) == 0 && CountOutOf(db.history, |db.orders|, s) == 0
    {
      CountNone(db.history, |db.orders|, s);
    }
    forall i | 0 <= i < |db'.history|
      ensures RowOk(db', db'.history[i])
    {
      if i < |db.history| {
        assert HasCaptured(db, db.history[i].orderId) ==> HasCaptured(db', db.history[i].orderId);
      }
    }
    forall x | 0 <= x < |db'.orders|
      ensures CountsOk(db', x)
    {
      if x < |db.orders| {
        assert CountsOk(db, x);
      }
    }
    forall i | 0 <= i < |db.attempts|
      ensures Belongs(db', db'.attempts[i])
    {
      assert Belongs(db, db.attempts[i]);
    }
  }
}
