/**
 * What each payment transaction comes to, on the columns: when it commits, and the orders, attempts,
 * history and outbox afterwards.
 */
module PaymentOutcomes {
  import opened Prelude
  import opened OrderLifecycle
  import opened Payments
  import opened PaymentInvariants

  // ---------------------------------------------------------------------------------------------
  // Shared pieces
  // ---------------------------------------------------------------------------------------------

  /** The payment names the order's total, in its currency; INR where either is left out. */
  predicate SumAgrees(order: Order, e: Entity) {
    && e.amount == order.total
    && (if e.currency.Some? then e.currency.value else "INR") == (if order.currency != "" then order.currency else "INR")
  }

  /** The payment has been captured already. */
  predicate CapturedAs(db: Db, p: PaymentId) {
    exists i :: 0 <= i < |db.attempts| && db.attempts[i].paymentId == Some(p) && db.attempts[i].status == Captured
  }

  /** Another payment of the order has been captured. */
  predicate CapturedOtherwise(db: Db, id: nat, p: PaymentId) {
    exists i :: 0 <= i < |db.attempts| && db.attempts[i].orderId == id && db.attempts[i].status == Captured && db.attempts[i].paymentId != Some(p)
  }

  /** One attempt of the order changes, or is added: it is captured, as this payment. */
  predicate CapturesOne(before: seq<Attempt>, after: seq<Attempt>, id: nat, p: PaymentId) {
    exists i :: 0 <= i < |after| && after[i].orderId == id && after[i].status == Captured && after[i].paymentId == Some(p)
                && |before| <= |after| <= |before| + 1
                && (if |after| > |before| then i == |before| else after[i] == before[i].(status := Captured, paymentId := Some(p)))
                && forall j :: 0 <= j < |before| && j != i ==> after[j] == before[j]
  }

  /** The order is PAID, by one history row and one event, and nothing else happens to orders. */
  predicate Pays(before: Db, after: Db, id: nat) {
    && id < |before.orders|
    && after.orders == before.orders[id := before.orders[id].(status := Paid)]
    && after.history == before.history + [HistoryRow(id, Some(PendingPayment), Paid, PaymentFlow)]
    && OrderPaid(id) !in before.outbox && after.outbox == before.outbox + {OrderPaid(id)}
  }

  lemma Uncaptured(db: Db, id: nat, p: PaymentId)
    requires Good(db) && !CapturedAs(db, p) && !CapturedOtherwise(db, id, p)
    ensures !HasCaptured(db, id) && OrderPaid(id) !in db.outbox
  {
    hide Good;
    assert !HasCaptured(db, id);
    NoEvent(db, id);
  }

  lemma KnownOrder(db: Db, id: nat, rp: RazorpayOrder)
    requires Good(db) && id < |db.orders| && db.orders[id].razorpayOrder == Some(rp)
    ensures OrderWith(db.orders, rp) == Some(id) && db.orders[id].id == id
  {
    hide AttemptsOk, HistoryOk;
    var found := OrderWith(db.orders, rp);
    assert found.Some? && !(found.value < id) && !(id < found.value);
  }

  // ---------------------------------------------------------------------------------------------
  // Which attempt a delivery is about
  // ---------------------------------------------------------------------------------------------

  /** The attempt with the payment's id; else the newest open one of the order, which gets that id;
      else a new one. Finding it never fails. */
  lemma DeliveryAttempt(db: Db, id: nat, e: Entity, account: Option<nat>)
    requires Good(db) && id < |db.orders| && db.orders[id].razorpayOrder == Some(e.razorpayOrder)
    ensures
      var r := FindOrCreateAttempt(db, db.orders[id], e, account);
      && r.Commit? && r.db == db.(attempts := r.db.attempts)
      && r.db.attempts[r.value].paymentId == Some(e.id)
      && (if exists i :: 0 <= i < |db.attempts| && db.attempts[i].paymentId == Some(e.id) then r.db == db
          else if exists i :: 0 <= i < |db.attempts| && db.attempts[i].orderId == id && db.attempts[i].status == Initiated then
            && r.value < |db.attempts| && db.attempts[r.value].orderId == id && db.attempts[r.value].status == Initiated
            && (forall j :: r.value < j < |db.attempts| ==> !(db.attempts[j].orderId == id && db.attempts[j].status == Initiated))
            && r.db.attempts == db.attempts[r.value := db.attempts[r.value].(paymentId := Some(e.id))]
          else
            && r.value == |db.attempts|
            && r.db.attempts == db.attempts + [Attempt(id, e.razorpayOrder, Some(e.id), e.amount, Initiated, account)])
  {
    KnownOrder(db, id, e.razorpayOrder);
    OwnRazorpayOrder(db, id);
    hide OrdersOk, HistoryOk, Belongs;
    var seen, open := Latest(db.attempts, WithPayment(e.id)), Latest(db.attempts, OpenFor(id, e.razorpayOrder));
    if i :| 0 <= i < |db.attempts| && db.attempts[i].paymentId == Some(e.id) {
      assert WithPayment(e.id).Selects(db.attempts[i]);
    }
    assert forall i :: 0 <= i < |db.attempts| ==>
      (OpenFor(id, e.razorpayOrder).Selects(db.attempts[i]) <==> db.attempts[i].orderId == id && db.attempts[i].status == Initiated);
  }

  lemma OwnRazorpayOrder(db: Db, id: nat)
    requires Good(db) && id < |db.orders|
    ensures forall i :: 0 <= i < |db.attempts| && db.attempts[i].orderId == id ==> db.orders[id].razorpayOrder == Some(db.attempts[i].razorpayOrder)
  {
    hide HistoryOk, OrdersOk;
    forall i | 0 <= i < |db.attempts| && db.attempts[i].orderId == id
      ensures db.orders[id].razorpayOrder == Some(db.attempts[i].razorpayOrder)
    {
      assert Belongs(db, db.attempts[i]);
    }
  }

  // ---------------------------------------------------------------------------------------------
  // payment.captured
  // ---------------------------------------------------------------------------------------------

  /** A payment.captured delivery for a known order. It commits exactly when the sum agrees and no
      other payment of the order was captured; a repeated one changes nothing; the first one captures
      the payment, and pays and announces the order if and only if it is pending. */
  lemma CapturedDeliveryExactly(db: Db, id: nat, e: Entity, account: Option<nat>, resolves: bool)
    requires Good(db) && Authentic(e) && id < |db.orders| && db.orders[id].razorpayOrder == Some(e.razorpayOrder)
    requires account.Some? ==> db.orders[id].account == account && resolves
    ensures
      var r := ApplyWebhook(db, PaymentCaptured, e, account, resolves);
      && (!SumAgrees(db.orders[id], e) ==> r == Rollback(Mismatch))
      && (SumAgrees(db.orders[id], e) && CapturedAs(db, e.id) ==> r == Commit(db, true))
      && (SumAgrees(db.orders[id], e) && !CapturedAs(db, e.id) && CapturedOtherwise(db, id, e.id) ==> r == Rollback(UniqueViolation))
      && (SumAgrees(db.orders[id], e) && !CapturedAs(db, e.id) && !CapturedOtherwise(db, id, e.id) ==>
            && r.Commit? && r.value && CapturesOne(db.attempts, r.db.attempts, id, e.id)
            && (if db.orders[id].status == PendingPayment then Pays(db, r.db, id)
                else r.db == db.(attempts := r.db.attempts)))
  {
    hide Good, FindOrCreateAttempt, CapturedAs, CapturedOtherwise, CapturesOne, Capture, OrderWith, Keeps, MatchesOrder, SumAgrees;
    var order := db.orders[id];
    KnownOrder(db, id, e.razorpayOrder);
    DeliveryAttempt(db, id, e, account);
    FindOrCreateKeeps(db, order, e, account);
    var f := FindOrCreateAttempt(db, order, e, account);
    KeptIsGood(db, f.db);
    SumIsMatch(order, e);
    CaptureOutcome(db, f.db, f.value, id, e.id);
    if !CapturedAs(db, e.id) && !CapturedOtherwise(db, id, e.id) {
      Uncaptured(db, id, e.id);
    }
  }

  lemma SumIsMatch(order: Order, e: Entity)
    requires order.razorpayOrder == Some(e.razorpayOrder)
    ensures MatchesOrder(order, e) <==> SumAgrees(order, e)
  {
  }

  /** Capturing the attempt that the delivery found in, or stamped with its payment id on, `db`. */
  lemma CaptureOutcome(db: Db, found: Db, i: nat, id: nat, p: PaymentId)
    requires Good(found) && i < |found.attempts| && found == db.(attempts := found.attempts)
    requires found.attempts[i].paymentId == Some(p) && found.attempts[i].orderId == id
    requires
      || found.attempts == db.attempts
      || (i < |db.attempts| && db.attempts[i].status == Initiated && found.attempts == db.attempts[i := db.attempts[i].(paymentId := Some(p))]
          && db.attempts[i].paymentId != Some(p))
      || (i == |db.attempts| && found.attempts[i].status == Initiated && found.attempts == db.attempts + [found.attempts[i]])
    requires found.attempts != db.attempts ==> forall j :: 0 <= j < |db.attempts| ==> db.attempts[j].paymentId != Some(p)
    ensures
      var c := Capture(found, i, p);
      && (CapturedAs(db, p) ==> found == db && c == Commit(db, false))
      && (!CapturedAs(db, p) && CapturedOtherwise(db, id, p) ==> c == Rollback(UniqueViolation))
      && (!CapturedAs(db, p) && !CapturedOtherwise(db, id, p) ==>
            && c.Commit? && c.value && c.db == db.(attempts := c.db.attempts) && CapturesOne(db.attempts, c.db.attempts, id, p))
  {
    hide Belongs, OrdersOk, HistoryOk;
    var a := found.attempts[i];
    var captured := a.(status := Captured, paymentId := Some(p));
    forall j | 0 <= j < |found.attempts| && j != i
      ensures found.attempts[j].paymentId != Some(p)
    {
      if j < i {
        assert !Clash(found.attempts[j], a);
      } else {
        assert !Clash(a, found.attempts[j]);
      }
    }
    assert forall j :: 0 <= j < |found.attempts| && j != i ==>
      (j < |db.attempts| && found.attempts[j] == db.attempts[j]) && (Clash(found.attempts[j], captured) <==> db.attempts[j].status == Captured && db.attempts[j].orderId == id);
    if a.status != Captured {
      if !CapturedOtherwise(db, id, p) {
        assert Admits(found.attempts, i, captured);
        var after := Capture(found, i, p).db.attempts;
        assert after[i] == captured && forall j :: 0 <= j < |db.attempts| && j != i ==> after[j] == db.attempts[j];
      } else {
        var j :| 0 <= j < |db.attempts| && db.attempts[j].orderId == id && db.attempts[j].status == Captured && db.attempts[j].paymentId != Some(p);
        assert Clash(found.attempts[j], captured);
      }
    } else {
      assert found == db;
    }
  }

  /** The deliveries that are acknowledged without effect: another event, a Razorpay order nobody has,
      or an account that is not the order's or no longer resolves. */
  lemma DeliveryIgnored(db: Db, kind: EventKind, e: Entity, account: Option<nat>, resolves: bool)
    requires Good(db)
    requires
      || !(kind.PaymentCaptured? || kind.PaymentFailure?)
      || (forall i :: 0 <= i < |db.orders| ==> db.orders[i].razorpayOrder != Some(e.razorpayOrder))
      || (exists i :: 0 <= i < |db.orders| && db.orders[i].razorpayOrder == Some(e.razorpayOrder)
                      && account.Some? && (db.orders[i].account != account || !resolves))
    ensures ApplyWebhook(db, kind, e, account, resolves) == Commit(db, false)
  {
    hide ApplyToOrder, AttemptsOk, HistoryOk;
    if i :| 0 <= i < |db.orders| && db.orders[i].razorpayOrder == Some(e.razorpayOrder) {
      KnownOrder(db, i, e.razorpayOrder);
      assert forall j :: 0 <= j < |db.orders| && db.orders[j].razorpayOrder == Some(e.razorpayOrder) ==> !(j < i) && !(i < j);
    }
  }

  // ---------------------------------------------------------------------------------------------
  // verifyPayment
  // ---------------------------------------------------------------------------------------------

  /** Another attempt carries the payment, or another attempt of the order is captured. */
  predicate CapturedElsewhere(db: Db, i: nat, p: PaymentId)
    requires i < |db.attempts|
  {
    exists j :: 0 <= j < |db.attempts| && j != i
                && (db.attempts[j].paymentId == Some(p) ||
                    (db.attempts[j].orderId == db.attempts[i].orderId && db.attempts[j].status == Captured))
  }

  /** verifyPayment's transaction, with the attempt it looked up before (`existing`) or else the newest
      open one. Without one it refuses; on a captured one it changes nothing; otherwise it commits
      exactly when the payment and the order are not captured elsewhere and its copy of the order is
      pending, and then captures, announces, and pays if the order still is pending. */
  lemma VerifyExactly(db: Db, order: Order, rp: RazorpayOrder, p: PaymentId, existing: Option<nat>, i: nat)
    requires Good(db) && CopyOk(db, order) && order.razorpayOrder == Some(rp) && p.order == rp
    requires existing.Some? ==> existing.value < |db.attempts| && db.attempts[existing.value].orderId == order.id
    requires if existing.Some? then i == existing.value else
      && i < |db.attempts| && db.attempts[i].orderId == order.id && db.attempts[i].status == Initiated
      && forall j :: i < j < |db.attempts| ==> !(db.attempts[j].orderId == order.id && db.attempts[j].status == Initiated)
    ensures
      var r := Verify(db, order, rp, p, existing);
      var elsewhere := CapturedElsewhere(db, i, p);
      if db.attempts[i].status == Captured then r == Commit(db, db.orders[order.id].status)
      else if elsewhere then r == Rollback(UniqueViolation)
      else if order.status != PendingPayment then r == Rollback(IllegalTransition)
      else
        && r.Commit? && r.db.attempts == db.attempts[i := db.attempts[i].(status := Captured, paymentId := Some(p))]
        && (if db.orders[order.id].status == PendingPayment then Pays(db, r.db, order.id) && r.value == Paid
            else r.db.orders == db.orders && r.db.history == db.history && r.db.outbox == db.outbox + {OrderPaid(order.id)})
  {
    hide Good, OrderGrows, Latest, HasCaptured;
    VerifyFinds(db, order, rp, p, existing, i);
    var captured := db.attempts[i].(status := Captured, paymentId := Some(p));
    assert Admits(db.attempts, i, captured) <==> !CapturedElsewhere(db, i, p);
    if db.attempts[i].status != Captured && Admits(db.attempts, i, captured) {
      NotAnnounced(db, i, order.id, p);
    }
  }

  lemma VerifyFinds(db: Db, order: Order, rp: RazorpayOrder, p: PaymentId, existing: Option<nat>, i: nat)
    requires Good(db) && CopyOk(db, order) && order.razorpayOrder == Some(rp)
    requires existing.None? ==>
      && i < |db.attempts| && db.attempts[i].orderId == order.id && db.attempts[i].status == Initiated
      && forall j :: i < j < |db.attempts| ==> !(db.attempts[j].orderId == order.id && db.attempts[j].status == Initiated)
    ensures existing.None? ==> Latest(db.attempts, OpenFor(order.id, rp)) == Some(i)
  {
    OwnRazorpayOrder(db, order.id);
    hide Good;
    if existing.None? {
      assert OpenFor(order.id, rp).Selects(db.attempts[i]);
      var l := Latest(db.attempts, OpenFor(order.id, rp));
      assert l.Some? && !(l.value < i) && !(i < l.value);
    }
  }

  lemma NotAnnounced(db: Db, i: nat, id: nat, p: PaymentId)
    requires Good(db) && i < |db.attempts| && db.attempts[i].orderId == id && db.attempts[i].status != Captured
    requires Admits(db.attempts, i, db.attempts[i].(status := Captured, paymentId := Some(p)))
    ensures OrderPaid(id) !in db.outbox
  {
    hide AttemptsOk, OrdersOk;
    forall j | 0 <= j < |db.attempts|
      ensures !(db.attempts[j].orderId == id && db.attempts[j].status == Captured)
    {
      if j != i {
        assert !Clash(db.attempts[j], db.attempts[i].(status := Captured, paymentId := Some(p)));
      }
    }
    NoEvent(db, id);
  }

  // ---------------------------------------------------------------------------------------------
  // Reconciliation
  // ---------------------------------------------------------------------------------------------

  /** The payment was noted on an older attempt than the newest open one: a second open attempt hides
      the one that carries the payment id. */
  predicate Hidden(db: Db, id: nat, p: PaymentId) {
    exists i, j :: 0 <= i < j < |db.attempts| && db.attempts[i].paymentId == Some(p)
                   && db.attempts[j].orderId == id && db.attempts[j].status == Initiated
  }

  /** reconcileCapturedPayment: MISMATCH on another sum or Razorpay order, ALREADY_TERMINAL on an order
      that is not pending or has a capture; otherwise it captures the payment and pays and announces
      the order, unless the payment id sits on an older attempt than the newest open one, where the
      unique index makes every try roll back. */
  lemma ReconcileExactly(db: Db, order: Order, e: Entity)
    requires Good(db) && CopyOk(db, order) && order.razorpayOrder.Some? && Authentic(e)
    ensures
      var r := ReconcileCaptured(db, order, e);
      var captured := exists i :: 0 <= i < |db.attempts| && db.attempts[i].orderId == order.id && db.attempts[i].status == Captured;
      if !SumAgrees(order, e) || order.razorpayOrder != Some(e.razorpayOrder) then r == Commit(db, Mismatched)
      else if db.orders[order.id].status != PendingPayment || captured then r == Commit(db, AlreadyTerminal)
      else if Hidden(db, order.id, e.id) then r == Rollback(UniqueViolation)
      else r.Commit? && r.value == MarkedPaid && CapturesOne(db.attempts, r.db.attempts, order.id, e.id) && Pays(db, r.db, order.id)
  {
    hide Good, OrderGrows, SumAgrees, MatchesOrder, Hidden, CapturesOne, AttemptToReconcile, Capture, Latest;
    CapturedIff(db, order.id);
    if order.razorpayOrder == Some(e.razorpayOrder) {
      SumIsMatch(order, e);
      ReconcileCaptures(db, order, e);
    } else {
      OtherRazorpayOrder(order, e);
    }
  }

  lemma OtherRazorpayOrder(order: Order, e: Entity)
    requires order.razorpayOrder.Some? && order.razorpayOrder != Some(e.razorpayOrder)
    ensures !MatchesOrder(order, e)
  {
  }

  lemma CapturedIff(db: Db, id: nat)
    ensures Latest(db.attempts, CapturedFor(id)).Some? <==>
      exists i :: 0 <= i < |db.attempts| && db.attempts[i].orderId == id && db.attempts[i].status == Captured
  {
    if i :| 0 <= i < |db.attempts| && db.attempts[i].orderId == id && db.attempts[i].status == Captured {
      assert CapturedFor(id).Selects(db.attempts[i]);
    }
  }

  /** The locked part, on a pending order without a capture. */
  lemma ReconcileCaptures(db: Db, order: Order, e: Entity)
    requires Good(db) && CopyOk(db, order) && order.razorpayOrder == Some(e.razorpayOrder) && Authentic(e)
    ensures
      var f := AttemptToReconcile(db, order, e);
      !HasCaptured(db, order.id) ==>
        && f.Commit? && OrderPaid(order.id) !in db.outbox && f.db == db.(attempts := f.db.attempts)
        && var c := Capture(f.db, f.value, e.id);
        && (Hidden(db, order.id, e.id) ==> c == Rollback(UniqueViolation))
        && (!Hidden(db, order.id, e.id) ==>
              c.Commit? && c.value && c.db == db.(attempts := c.db.attempts) && CapturesOne(db.attempts, c.db.attempts, order.id, e.id))
  {
    if !HasCaptured(db, order.id) {
      OwnRazorpayOrder(db, order.id);
      PaymentIsOfOrder(db, order.id, e);
      NoEvent(db, order.id);
      hide OrdersOk, HistoryOk, Belongs, CapturesOne, OrderGrows;
      var q := PaymentOrOpen(order.id, e.id, order.razorpayOrder);
      var found := Latest(db.attempts, q);
      assert forall j :: 0 <= j < |db.attempts| ==>
        (q.Selects(db.attempts[j]) <==> db.attempts[j].paymentId == Some(e.id) || (db.attempts[j].orderId == order.id && db.attempts[j].status == Initiated));
      if found.None? {
        AppendedCapture(db, order, e);
      } else {
        FoundCapture(db, order.id, e.id, found.value);
      }
    }
  }

  lemma NoEvent(db: Db, id: nat)
    requires Good(db) && !HasCaptured(db, id)
    ensures OrderPaid(id) !in db.outbox
  {
    hide AttemptsOk, OrdersOk;
    var k := OrderPaid(id);
    assert k in db.outbox ==> HasCaptured(db, k.orderId);
  }

  lemma PaymentIsOfOrder(db: Db, id: nat, e: Entity)
    requires Good(db) && Authentic(e) && id < |db.orders| && db.orders[id].razorpayOrder == Some(e.razorpayOrder)
    ensures forall i :: 0 <= i < |db.attempts| && db.attempts[i].paymentId == Some(e.id) ==> db.attempts[i].orderId == id
  {
    forall i | 0 <= i < |db.attempts| && db.attempts[i].paymentId == Some(e.id)
      ensures db.attempts[i].orderId == id
    {
      assert Belongs(db, db.attempts[i]);
      SameRazorpayOrder(db, i, id);
    }
  }

  lemma AppendedCapture(db: Db, order: Order, e: Entity)
    requires !HasCaptured(db, order.id) && order.razorpayOrder == Some(e.razorpayOrder)
    requires forall j :: 0 <= j < |db.attempts| ==>
      db.attempts[j].paymentId != Some(e.id) && !(db.attempts[j].orderId == order.id && db.attempts[j].status == Initiated)
    requires Latest(db.attempts, PaymentOrOpen(order.id, e.id, order.razorpayOrder)).None?
    ensures
      var f := AttemptToReconcile(db, order, e);
      && f.Commit? && f.db == db.(attempts := f.db.attempts)
      && !Hidden(db, order.id, e.id)
      && var c := Capture(f.db, f.value, e.id);
      && c.Commit? && c.value && c.db == db.(attempts := c.db.attempts) && CapturesOne(db.attempts, c.db.attempts, order.id, e.id)
  {
    var n := |db.attempts|;
    var open := Attempt(order.id, e.razorpayOrder, None, e.amount, Initiated, None);
    var captured := open.(status := Captured, paymentId := Some(e.id));
    assert Admits(db.attempts, n, open);
    assert Admits(db.attempts + [open], n, captured);
    var after := (db.attempts + [open])[n := captured];
    assert after[n] == captured && forall j :: 0 <= j < n ==> after[j] == db.attempts[j];
  }

  lemma FoundCapture(db: Db, id: nat, p: PaymentId, i: nat)
    requires !HasCaptured(db, id) && i < |db.attempts| && db.attempts[i].orderId == id
    requires forall j, k :: 0 <= j < k < |db.attempts| ==> !Clash(db.attempts[j], db.attempts[k])
    requires db.attempts[i].paymentId == Some(p) || db.attempts[i].status == Initiated
    requires forall j :: i < j < |db.attempts| ==>
      db.attempts[j].paymentId != Some(p) && !(db.attempts[j].orderId == id && db.attempts[j].status == Initiated)
    ensures
      var c := Capture(db, i, p);
      && (Hidden(db, id, p) ==> c == Rollback(UniqueViolation))
      && (!Hidden(db, id, p) ==>
            c.Commit? && c.value && c.db == db.(attempts := c.db.attempts) && CapturesOne(db.attempts, c.db.attempts, id, p))
  {
    var captured := db.attempts[i].(status := Captured, paymentId := Some(p));
    if Hidden(db, id, p) {
      var j, k :| 0 <= j < k < |db.attempts| && db.attempts[j].paymentId == Some(p) && db.attempts[k].orderId == id && db.attempts[k].status == Initiated;
      assert j < i;
      assert Clash(db.attempts[j], captured);
    } else {
      forall j | 0 <= j < |db.attempts| && j != i
        ensures db.attempts[j].paymentId != Some(p)
      {
        if j < i {
          assert !Clash(db.attempts[j], db.attempts[i]);
        }
      }
      var after := db.attempts[i := captured];
      assert after[i] == captured;
    }
  }

  // ---------------------------------------------------------------------------------------------
  // Failing a stale order, and the desk
  // ---------------------------------------------------------------------------------------------

  /** failStalePendingOrder where it has an effect (FailStaleExactly): the order fails, with its row and
      its event, its open attempts are abandoned, and nothing else changes. */
  lemma FailStaleOutcome(db: Db, order: Order)
    requires Good(db) && Knows(db, order) && FailStale(db, order).After(db) != db
    ensures
      var r := FailStale(db, order);
      && r.Commit? && r.value
      && r.db.orders == db.orders[order.id := db.orders[order.id].(status := PaymentFailed)]
      && r.db.history == db.history + [HistoryRow(order.id, Some(PendingPayment), PaymentFailed, PaymentFlow)]
      && r.db.outbox == db.outbox + {StatusChanged(order.id, PaymentFailed)}
      && |r.db.attempts| == |db.attempts|
      && forall i :: 0 <= i < |db.attempts| ==>
           r.db.attempts[i] == if db.attempts[i].orderId == order.id && db.attempts[i].status == Initiated
                               then db.attempts[i].(status := Abandoned) else db.attempts[i]
  {
  }

  /** A customer's or administrator's move: refused unless the graph allows it from the copy's status,
      without effect if the order moved meanwhile, rolled back if that status was announced before;
      otherwise the status, one row and one event. */
  lemma DeskExactly(db: Db, order: Order, to: Status)
    requires Good(db) && Knows(db, order)
    ensures
      var r := DeskTransition(db, order, to);
      if !IsTransitionAllowed(order.status, to) then r == Rollback(IllegalTransition)
      else if db.orders[order.id].status != order.status then r == Commit(db, false)
      else if StatusChanged(order.id, to) in db.outbox then r == Rollback(UniqueViolation)
      else
        && r.Commit? && r.value && r.db.attempts == db.attempts
        && r.db.orders == db.orders[order.id := db.orders[order.id].(status := to)]
        && r.db.history == db.history + [HistoryRow(order.id, Some(order.status), to, OrderDesk)]
        && r.db.outbox == db.outbox + {StatusChanged(order.id, to)}
  {
  }
}
