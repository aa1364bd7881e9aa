/** What holds over every run of the payment protocol, and exactly where two promises fail. */
module PaymentTheorems {
  import opened Prelude
  import opened OrderLifecycle
  import opened Payments
  import opened PaymentInvariants
  import opened PaymentProtocol

  // ---------------------------------------------------------------------------------------------
  // Money safety
  // ---------------------------------------------------------------------------------------------

  /** A captured attempt keeps its row for ever, and no other attempt of its order is ever captured. */
  lemma CaptureIsForeverAndUnique(before: seq<Move>, after: seq<Move>, i: nat, j: nat)
    requires i < |Run(INIT, before).db.attempts|
    requires Run(INIT, before).db.attempts[i].status == Captured
    requires j < |Run(Run(INIT, before), after).db.attempts|
    ensures
      var a := Run(INIT, before).db.attempts[i];
      var now := Run(Run(INIT, before), after).db.attempts;
      && i < |now| && now[i] == a
      && (now[j].orderId == a.orderId && now[j].status == Captured ==> j == i)
  {
    var s := Run(INIT, before);
    var s' := Run(s, after);
    RunGrows(s, after);
    assert AttemptGrows(s.db.attempts[i], s'.db.attempts[i]);
    if i < j {
      assert !Clash(s'.db.attempts[i], s'.db.attempts[j]);
    } else if j < i {
      assert !Clash(s'.db.attempts[j], s'.db.attempts[i]);
    }
  }

  /** An order moves to PAID at most once, whoever moves it, and exactly when it is past payment;
      a PAID row of the payment flow has its event and a captured attempt. */
  lemma PaidAtMostOnce(moves: seq<Move>, id: nat)
    requires id < |Run(INIT, moves).db.orders|
    ensures
      var db := Run(INIT, moves).db;
      && CountInto(db.history, id, Paid) == (if Unpaid(db.orders[id].status) then 0 else 1)
      && (forall r :: r in db.history && r.orderId == id && r.to == Paid && r.writer == PaymentFlow ==>
            OrderPaid(id) in db.outbox && HasCaptured(db, id))
  {
    var db := Run(INIT, moves).db;
    assert CountsOk(db, id);
    assert forall r :: r in db.history ==> RowOk(db, r);
  }

  /** ORDER_PAID is announced only for orders that exist and have a captured attempt, which by
      CaptureIsForeverAndUnique they keep. */
  lemma AnnouncedIsCaptured(moves: seq<Move>, id: nat)
    requires OrderPaid(id) in Run(INIT, moves).db.outbox
    ensures id < |Run(INIT, moves).db.orders| && HasCaptured(Run(INIT, moves).db, id)
  {
    var k := OrderPaid(id);
    assert k.orderId == id && HistoryOk(Run(INIT, moves).db);
  }

  // ---------------------------------------------------------------------------------------------
  // Routing agreement
  // ---------------------------------------------------------------------------------------------

  /** Any two finished initiations of one order, however they raced and whatever account each
      resolved, end with the same account and Razorpay order, created by that account; their
      attempts carry both, and so does the order row for ever after. */
  lemma InitiationsAgree(before: seq<Move>, after: seq<Move>, c: nat, d: nat)
    requires c in Run(INIT, before).calls && Run(INIT, before).calls[c].InitDone?
    requires d in Run(Run(INIT, before), after).calls && Run(Run(INIT, before), after).calls[d].InitDone?
    requires Run(INIT, before).calls[c].orderId == Run(Run(INIT, before), after).calls[d].orderId
    ensures
      var x := Run(INIT, before).calls[c];
      var s' := Run(Run(INIT, before), after);
      var y := s'.calls[d];
      && x.account == y.account && x.rp == y.rp && x.rp.account == x.account
      && s'.db.orders[x.orderId].account == Some(x.account)
      && s'.db.orders[x.orderId].razorpayOrder == Some(x.rp)
      && (forall i | i in {x.attempt, y.attempt} ::
            && i < |s'.db.attempts| && s'.db.attempts[i].orderId == x.orderId
            && s'.db.attempts[i].account == Some(x.account) && s'.db.attempts[i].razorpayOrder == x.rp)
  {
    var s := Run(INIT, before);
    RunGrows(s, after);
    var s' := Run(s, after);
    assert CallOk(s.db, s.calls[c]);
    CallOkGrows(s.db, s'.db, s.calls[c]);
    assert CallOk(s'.db, s'.calls[d]);
  }

  // ---------------------------------------------------------------------------------------------
  // The status history
  // ---------------------------------------------------------------------------------------------

  /** Conservation: rows into a status minus rows out of it is one for the current status and zero
      for every other, the moved-but-unwritten retries counted in; every row is an allowed move. */
  lemma HistoryIsConserved(moves: seq<Move>, id: nat, st: Status)
    requires id < |Run(INIT, moves).db.orders|
    ensures
      var s := Run(INIT, moves);
      var unwritten := |Owing(s.calls, id)|;
      && CountInto(s.db.history, id, st) + (if st == PendingPayment then unwritten else 0)
         - CountOutOf(s.db.history, id, st) - (if st == PaymentFailed then unwritten else 0)
         == (if s.db.orders[id].status == st then 1 else 0)
      && (forall k :: 0 <= k < |s.db.history| && s.db.history[k].from.Some? ==>
            IsTransitionAllowed(s.db.history[k].from.value, s.db.history[k].to))
  {
    var s := Run(INIT, moves);
    assert Balance(s.db, id, st) == |Owing(s.calls, id)| * RetrySign(st);
    assert forall k :: 0 <= k < |s.db.history| ==> RowOk(s.db, s.db.history[k]);
  }

  // ---------------------------------------------------------------------------------------------
  // An order can be failed only once
  // ---------------------------------------------------------------------------------------------

  /** The event key ORDER_STATUS_CHANGED:<id>:PAYMENT_FAILED is unique, so whatever retries follow,
      an order enters PAYMENT_FAILED at most once in its life. */
  lemma FailsAtMostOnce(moves: seq<Move>, id: nat)
    requires id < |Run(INIT, moves).db.orders|
    ensures CountInto(Run(INIT, moves).db.history, id, PaymentFailed) <= 1
  {
    assert CountsOk(Run(INIT, moves).db, id);
  }

  /** failStalePendingOrder works exactly on pending orders without a capture that never failed
      before; on every other order it changes nothing. A retried order therefore never expires. */
  lemma FailStaleExactly(db: Db, order: Order)
    requires Good(db) && Knows(db, order)
    ensures
      FailStale(db, order).After(db) != db <==>
      && db.orders[order.id].status == PendingPayment
      && !HasCaptured(db, order.id)
      && CountInto(db.history, order.id, PaymentFailed) == 0
    ensures
      FailStale(db, order).After(db) != db ==>
      FailStale(db, order).After(db).orders[order.id].status == PaymentFailed
  {
    assert CountsOk(db, order.id);
    assert HasCaptured(db, order.id) <==> Latest(db.attempts, CapturedFor(order.id)).Some? by {
      if HasCaptured(db, order.id) {
        var i :| 0 <= i < |db.attempts| && db.attempts[i].orderId == order.id && db.attempts[i].status == Captured;
        assert CapturedFor(order.id).Selects(db.attempts[i]);
      }
    }
  }

  /** The attempt of a delivery that names payment `p` has already ended. */
  predicate AlreadyEnded(attempts: seq<Attempt>, p: PaymentId) {
    var i := Latest(attempts, WithPayment(p));
    i.Some? && (attempts[i.value].status == Captured || attempts[i.value].status == Failed)
  }

  /** A payment.failed delivery for a known order whose payment has not ended yet takes effect only
      on a pending order that never failed before. On a retried order it rolls back whole, the
      attempt's FAILED mark included, and so it does on an order that is not pending any more. */
  lemma FailedDeliveryExactly(db: Db, id: nat, e: Entity, account: Option<nat>, resolves: bool)
    requires Good(db) && Authentic(e) && OrderWith(db.orders, e.razorpayOrder) == Some(id)
    requires account.Some? ==> db.orders[id].account == account && resolves
    requires !AlreadyEnded(db.attempts, e.id)
    ensures
      var r := ApplyWebhook(db, PaymentFailure, e, account, resolves);
      && (r.Commit? <==> db.orders[id].status == PendingPayment && CountInto(db.history, id, PaymentFailed) == 0)
      && (r == Rollback(UniqueViolation) <==> db.orders[id].status == PendingPayment && CountInto(db.history, id, PaymentFailed) == 1)
      && (r == Rollback(IllegalTransition) <==> db.orders[id].status != PendingPayment)
      && (r.Commit? ==>
            && id < |r.db.orders| && r.db.orders[id].status == PaymentFailed
            && AlreadyEnded(r.db.attempts, e.id) && StatusChanged(id, PaymentFailed) in r.db.outbox)
  {
    hide Good, FindOrCreateAttempt, AlreadyEnded, Latest, ApplyFailed, Keeps, OrderWith;
    var order := db.orders[id];
    FailuresCounted(db, id);
    FindOrCreateKeeps(db, order, e, account);
    DeliveryFindsOpen(db, order, e, account);
    var f := FindOrCreateAttempt(db, order, e, account);
    KeptIsGood(db, f.db);
    FailsOpen(f.db, order, f.value, e);
  }

  lemma FailuresCounted(db: Db, id: nat)
    requires Good(db) && id < |db.orders|
    ensures db.orders[id].id == id && WellNumbered(db)
    ensures CountInto(db.history, id, PaymentFailed) == if StatusChanged(id, PaymentFailed) in db.outbox then 1 else 0
  {
    hide AttemptsOk, CountInto;
    assert CountsOk(db, id);
  }

  /** Finding or creating the attempt never fails, and touches nothing but attempts. */
  lemma DeliveryFindsOpen(db: Db, order: Order, e: Entity, account: Option<nat>)
    requires Good(db) && !AlreadyEnded(db.attempts, e.id)
    ensures
      var f := FindOrCreateAttempt(db, order, e, account);
      && f.Commit? && f.db == db.(attempts := f.db.attempts)
      && f.db.attempts[f.value].paymentId == Some(e.id)
      && f.db.attempts[f.value].status != Captured && f.db.attempts[f.value].status != Failed
  {
    hide Belongs, HistoryOk, OrdersOk;
  }

  lemma FailsOpen(db: Db, order: Order, i: nat, e: Entity)
    requires Good(db) && Knows(db, order) && db.orders[order.id] == order && i < |db.attempts|
    requires db.attempts[i].paymentId == Some(e.id) && db.attempts[i].status != Captured && db.attempts[i].status != Failed
    ensures
      var r := ApplyFailed(db, order, i, e);
      && (r.Commit? <==> order.status == PendingPayment && StatusChanged(order.id, PaymentFailed) !in db.outbox)
      && (r == Rollback(UniqueViolation) <==> order.status == PendingPayment && StatusChanged(order.id, PaymentFailed) in db.outbox)
      && (r == Rollback(IllegalTransition) <==> order.status != PendingPayment)
      && (r.Commit? ==>
            && order.id < |r.db.orders| && r.db.orders[order.id].status == PaymentFailed
            && AlreadyEnded(r.db.attempts, e.id) && StatusChanged(order.id, PaymentFailed) in r.db.outbox)
  {
    hide Belongs, HistoryOk, OrdersOk;
    var failed := db.attempts[i].(status := Failed, paymentId := Some(e.id));
    forall j | 0 <= j < |db.attempts| && j != i
      ensures !Clash(db.attempts[j], failed)
    {
      if j < i {
        assert !Clash(db.attempts[j], db.attempts[i]);
      } else {
        assert !Clash(db.attempts[i], db.attempts[j]);
      }
    }
    var after := db.attempts[i := failed];
    assert forall j :: 0 <= j < |after| && j != i ==> after[j] == db.attempts[j] && !Clash(db.attempts[j], failed);
    assert WithPayment(e.id).Selects(after[i]) && Latest(after, WithPayment(e.id)) == Some(i);
    hide Latest, Admits;
  }

  // ---------------------------------------------------------------------------------------------
  // ORDER_PAID without PAID
  // ---------------------------------------------------------------------------------------------

  /** A verify transaction that captures always announces ORDER_PAID, but it moves the order to
      PAID exactly when nobody changed the status since the call read it. */
  lemma VerifyAnnouncesExactly(db: Db, order: Order, rp: RazorpayOrder, p: PaymentId, existing: Option<nat>)
    requires Good(db) && CallOk(db, VerifyLooked(order, rp, p, existing))
    requires Verify(db, order, rp, p, existing).Commit?
    requires Verify(db, order, rp, p, existing).db != db
    ensures
      var db' := Verify(db, order, rp, p, existing).db;
      && OrderPaid(order.id) in db'.outbox && HasCaptured(db', order.id)
      && (db'.orders != db.orders <==> db.orders[order.id].status == order.status)
      && (db'.orders != db.orders ==> db'.orders[order.id].status == Paid)
  {
    hide Good, Capture, RecordVerified, HasCaptured, Latest, Keeps;
    var found := if existing.Some? then existing else Latest(db.attempts, OpenFor(order.id, rp));
    FoundBelongs(db, order, rp, found.value);
    CaptureKeeps(db, found.value, p);
    CaptureIs(db, found.value, p);
    RecordVerifiedIs(Capture(db, found.value, p).db, order);
  }

  lemma FoundBelongs(db: Db, order: Order, rp: RazorpayOrder, i: nat)
    requires Good(db) && CopyOk(db, order) && order.razorpayOrder == Some(rp)
    requires i < |db.attempts| && db.attempts[i].orderId == order.id
    ensures db.attempts[i].razorpayOrder == rp
  {
    assert Belongs(db, db.attempts[i]);
  }

  lemma CaptureIs(db: Db, i: nat, p: PaymentId)
    requires i < |db.attempts| && Capture(db, i, p).Commit?
    ensures Capture(db, i, p).db.orders == db.orders && (!Capture(db, i, p).value ==> Capture(db, i, p).db == db)
  {
  }

  lemma RecordVerifiedIs(db: Db, order: Order)
    requires Knows(db, order) && RecordVerified(db, order).Commit?
    ensures
      var db' := RecordVerified(db, order).db;
      && OrderPaid(order.id) in db'.outbox && |db'.orders| == |db.orders|
      && (HasCaptured(db, order.id) ==> HasCaptured(db', order.id))
      && (db'.orders != db.orders <==> db.orders[order.id].status == order.status)
      && (db'.orders != db.orders ==> db'.orders[order.id].status == Paid)
  {
    var db' := RecordVerified(db, order).db;
    assert db'.attempts == db.attempts;
    if db.orders[order.id].status == order.status {
      assert db'.orders[order.id].status == Paid;
    }
  }

  /** PAID rows of the payment flow are written only for orders that had no capture before. */
  ghost predicate PaysOnlyUncaptured(db: Db, db': Db) {
    && |db.history| <= |db'.history|
    && forall k :: |db.history| <= k < |db'.history| && db'.history[k].to == Paid && db'.history[k].writer == PaymentFlow
         ==> !HasCaptured(db, db'.history[k].orderId)
  }

  lemma CaptureIsFirst(db: Db, i: nat, p: PaymentId)
    requires i < |db.attempts| && Capture(db, i, p).Commit? && Capture(db, i, p).value
    ensures !HasCaptured(db, db.attempts[i].orderId)
  {
  }

  lemma VerifyPays(db: Db, order: Order, rp: RazorpayOrder, p: PaymentId, existing: Option<nat>)
    requires Good(db) && CallOk(db, VerifyLooked(order, rp, p, existing))
    ensures PaysOnlyUncaptured(db, Verify(db, order, rp, p, existing).After(db))
  {
    var found := if existing.Some? then existing else Latest(db.attempts, OpenFor(order.id, rp));
    if found.Some? {
      var c := Capture(db, found.value, p);
      if c.Commit? && c.value {
        CaptureIsFirst(db, found.value, p);
      }
    }
  }

  lemma EventPays(db: Db, kind: EventKind, order: Order, i: nat, e: Entity)
    requires Knows(db, order) && i < |db.attempts| && db.attempts[i].orderId == order.id
    ensures PaysOnlyUncaptured(db, ApplyEvent(db, kind, order, i, e).After(db))
  {
    var c := Capture(db, i, e.id);
    if kind == PaymentCaptured && c.Commit? && c.value {
      CaptureIsFirst(db, i, e.id);
    }
  }

  lemma WebhookPays(db: Db, kind: EventKind, e: Entity, account: Option<nat>, resolves: bool)
    requires Good(db) && Authentic(e)
    ensures PaysOnlyUncaptured(db, ApplyWebhook(db, kind, e, account, resolves).After(db))
  {
    var id := OrderWith(db.orders, e.razorpayOrder);
    if id.Some? && !(account.Some? && db.orders[id.value].account != account) {
      var order := db.orders[id.value];
      FindOrCreateKeeps(db, order, e, account);
      var f := FindOrCreateAttempt(db, order, e, account);
      if f.Commit? {
        EventPays(f.db, kind, order, f.value, e);
        StillCaptured(db, f.db);
        assert f.db.history == db.history;
      }
    }
  }

  lemma ReconcilePays(db: Db, order: Order, e: Entity)
    requires Good(db) && CallOk(db, ReconcileFound(order, e))
    ensures PaysOnlyUncaptured(db, ReconcileCaptured(db, order, e).After(db))
  {
    hide Good, HasCaptured, MatchesOrder, Admits, Latest, OrderGrows;
    NoneCaptured(db, order.id);
  }

  lemma NoneCaptured(db: Db, id: nat)
    ensures Latest(db.attempts, CapturedFor(id)).None? ==> !HasCaptured(db, id)
  {
    if Latest(db.attempts, CapturedFor(id)).None? {
      assert forall i :: 0 <= i < |db.attempts| ==> !CapturedFor(id).Selects(db.attempts[i]);
    }
  }

  lemma StillCaptured(db: Db, db': Db)
    requires Grows(db, db')
    ensures forall id :: HasCaptured(db, id) ==> HasCaptured(db', id)
  {
    forall id | HasCaptured(db, id)
      ensures HasCaptured(db', id)
    {
      var i :| 0 <= i < |db.attempts| && db.attempts[i].orderId == id && db.attempts[i].status == Captured;
      assert AttemptGrows(db.attempts[i], db'.attempts[i]);
    }
  }

  lemma StepPays(s: Sys, m: Move)
    requires Inv(s)
    ensures PaysOnlyUncaptured(s.db, Step(s, m).db)
  {
    hide Good, CallOk, Transact, AdvanceInitiate, AdvanceRead;
    if m.Advance? && m.cid in s.calls {
      var call := s.calls[m.cid];
      if IsTransaction(call) {
        TransactPays(s.db, call, m.env);
      } else if Writes(call) {
        InitiatePays(s.db, call, m.env);
      }
    }
  }

  lemma TransactPays(db: Db, call: Call, env: Env)
    requires Good(db) && CallOk(db, call) && IsTransaction(call)
    ensures PaysOnlyUncaptured(db, Transact(db, call, env))
  {
    hide Good, HasCaptured, Verify, ApplyWebhook, ReconcileCaptured, CopyOk;
    match call {
      case VerifyLooked(order, rp, p, existing) => VerifyPays(db, order, rp, p, existing);
      case Delivery(kind, e, account, resolves) => WebhookPays(db, kind, e, account, resolves);
      case ReconcileFound(order, e) => ReconcilePays(db, order, e);
      case _ =>
    }
  }

  lemma InitiatePays(db: Db, call: Call, env: Env)
    requires CallOk(db, call) && Writes(call) && !IsTransaction(call)
    ensures PaysOnlyUncaptured(db, AdvanceInitiate(db, call, env).0)
  {
    hide HasCaptured, OrderGrows, OrderWith, Admits;
  }

  /** Over any run, the payment flow moves to PAID only orders that had no capture at its start. */
  lemma {:induction false} RunPays(s: Sys, moves: seq<Move>)
    requires Inv(s)
    ensures PaysOnlyUncaptured(s.db, Run(s, moves).db)
    decreases |moves|
  {
    if moves != [] {
      var s1 := Step(s, moves[0]);
      StepInv(s, moves[0]);
      StepPays(s, moves[0]);
      RunPays(s1, moves[1..]);
      RunGrows(s1, moves[1..]);
      PaysTransitive(s.db, s1.db, Run(s1, moves[1..]).db);
    }
  }

  lemma PaysTransitive(a: Db, b: Db, c: Db)
    requires Grows(a, b) && Grows(b, c) && PaysOnlyUncaptured(a, b) && PaysOnlyUncaptured(b, c)
    ensures PaysOnlyUncaptured(a, c)
  {
    StillCaptured(a, b);
    forall k | |a.history| <= k < |c.history| && c.history[k].to == Paid && c.history[k].writer == PaymentFlow
      ensures !HasCaptured(a, c.history[k].orderId)
    {
      if k < |b.history| {
        assert b.history[k] == c.history[k];
      }
    }
  }

  /** So an order that is captured but not PAID is stuck: no later payment step moves it to PAID. */
  lemma CapturedUnpaidIsStuck(s: Sys, moves: seq<Move>, id: nat, k: nat)
    requires Inv(s) && HasCaptured(s.db, id)
    requires |s.db.history| <= k < |Run(s, moves).db.history|
    requires Run(s, moves).db.history[k].orderId == id && Run(s, moves).db.history[k].to == Paid
    ensures Run(s, moves).db.history[k].writer != PaymentFlow
  {
    RunPays(s, moves);
  }

  // A run that gets there from the empty shop: a customer has two checkout widgets open, pays in the
  // older one, and the newer one's payment fails.

  function Placed(total: int): Order {
    Order(0, 1, Some(0), total, "INR", PendingPayment, None, None)
  }

  function Routed(rp: RazorpayOrder, total: int): Order {
    Placed(total).(account := Some(rp.account), razorpayOrder := Some(rp))
  }

  function Shop(order: Order, attempts: seq<Attempt>): Db {
    Db([order], attempts, [HistoryRow(0, None, PendingPayment, Checkout)], {})
  }

  function Open(rp: RazorpayOrder, total: int): Attempt {
    Attempt(0, rp, None, total, Initiated, Some(rp.account))
  }

  function TwoWidgets(rp: RazorpayOrder, total: int): Db {
    Shop(Routed(rp, total), [Open(rp, total), Open(rp, total)])
  }

  /** The newer widget's payment fails. */
  lemma OneWidgetFails(rp: RazorpayOrder, total: int)
    ensures
      var db := TwoWidgets(rp, total);
      var r := ApplyWebhook(db, PaymentFailure, Entity(PaymentId(rp, 1), rp, total, None), None, true);
      && r.Commit? && r.db.orders == [db.orders[0].(status := PaymentFailed)] && r.db.outbox == {StatusChanged(0, PaymentFailed)}
      && r.db.attempts == [db.attempts[0], db.attempts[0].(status := Failed, paymentId := Some(PaymentId(rp, 1)))]
  {
    var db := TwoWidgets(rp, total);
    assert OrderWith(db.orders, rp) == Some(0);
    assert Latest(db.attempts, OpenFor(0, rp)) == Some(1);
  }

  ghost predicate Reachable(s: Sys) {
    Inv(s) && exists moves :: Run(INIT, moves) == s
  }

  lemma {:induction false} RunAppend(s: Sys, moves: seq<Move>, m: Move)
    requires Inv(s)
    ensures Run(s, moves + [m]) == Step(Run(s, moves), m)
    decreases |moves|
  {
    hide Step, Inv;
    if moves == [] {
      StepInv(s, m);
      assert moves + [m] == [m] && [m][1..] == [];
      assert Run(Step(s, m), [m][1..]) == Step(s, m);
    } else {
      StepInv(s, moves[0]);
      RunAppend(Step(s, moves[0]), moves[1..], m);
      assert (moves + [m])[1..] == moves[1..] + [m];
    }
  }

  lemma Leads(s: Sys, m: Move, s': Sys)
    requires Reachable(s) && Step(s, m) == s'
    ensures Reachable(s')
  {
    var moves :| Run(INIT, moves) == s;
    RunAppend(INIT, moves, m);
    StepInv(s, m);
    hide Step, Inv;
  }

  lemma ReadLeads(s: Sys, cid: nat, env: Env, call: Call)
    requires Reachable(s) && cid in s.calls && !Writes(s.calls[cid])
    requires CallOk(s.db, s.calls[cid]) ==> AdvanceRead(s.db, s.calls[cid], env) == call
    ensures Reachable(Sys(s.db, s.calls[cid := call]))
  {
    hide AdvanceRead, Run, CallOk, Good;
    Leads(s, Advance(cid, env), Sys(s.db, s.calls[cid := call]));
  }

  lemma InitiateLeads(s: Sys, cid: nat, env: Env, db: Db, call: Call)
    requires Reachable(s) && cid in s.calls && Writes(s.calls[cid]) && !IsTransaction(s.calls[cid])
    requires CallOk(s.db, s.calls[cid]) ==> AdvanceInitiate(s.db, s.calls[cid], env) == (db, call)
    ensures Reachable(Sys(db, s.calls[cid := call]))
  {
    hide AdvanceInitiate, Run, CallOk, Good;
    Leads(s, Advance(cid, env), Sys(db, s.calls[cid := call]));
  }

  lemma BeginLeads(s: Sys, cid: nat, call: Call)
    requires Reachable(s) && cid !in s.calls && Startable(call)
    ensures Reachable(Sys(s.db, s.calls[cid := call]))
  {
    hide Run, Inv;
    Leads(s, Begin(cid, call), Sys(s.db, s.calls[cid := call]));
  }

  lemma FirstOrder(total: int)
    ensures Reachable(Sys(Shop(Placed(total), []), map[]))
  {
    assert Run(INIT, []) == INIT;
    hide Run, Inv;
    Leads(INIT, Place(1, Some(0), total, "INR"), Sys(Shop(Placed(total), []), map[]));
  }

  /** What the three writing statements of the first widget leave. */
  lemma WidgetWrites(rp: RazorpayOrder, total: int)
    ensures
      var order := Placed(total);
      var bound, routed := order.(account := Some(rp.account)), Routed(rp, total);
      && BindAccount(Shop(order, []), 0, rp.account) == (Shop(bound, []), true)
      && AssociateRazorpayOrder(Shop(bound, []), 0, rp) == Commit(Shop(routed, []), true)
      && CreateAttempt(Shop(routed, []), bound, rp, rp.account) == Commit(Shop(routed, [Open(rp, total)]), 0)
      && CreateAttempt(Shop(routed, [Open(rp, total)]), routed, rp, rp.account) == Commit(Shop(routed, [Open(rp, total), Open(rp, total)]), 1)
  {
    var order := Placed(total);
    var bound, routed := order.(account := Some(rp.account)), Routed(rp, total);
    assert [order][0 := bound] == [bound] && [bound][0 := bound.(razorpayOrder := Some(rp))] == [routed];
    assert OrderWith([bound], rp).None?;
    assert Admits([], 0, Open(rp, total)) && [] + [Open(rp, total)] == [Open(rp, total)];
    assert [Open(rp, total)] + [Open(rp, total)] == [Open(rp, total), Open(rp, total)];
  }

  /** The customer opens a widget for the order: its account is bound first. */
  lemma FirstWidgetBinds(rp: RazorpayOrder, total: int)
    ensures
      var bound := Placed(total).(account := Some(rp.account));
      Reachable(Sys(Shop(bound, []), map[0 := InitRouted(bound, rp.account)]))
  {
    FirstOrder(total);
    WidgetWrites(rp, total);
    var order := Placed(total);
    var bound := order.(account := Some(rp.account));
    hide Inv, Run, CallOk, Reachable, BindAccount;
    var s0 := Sys(Shop(order, []), map[]);
    BeginLeads(s0, 0, InitStart(1, 0));
    var env := Env(true, Some(rp.account), rp.serial, None);
    var s1 := Sys(s0.db, s0.calls[0 := InitStart(1, 0)]);
    ReadLeads(s1, 0, env, InitChecked(order));
    var s2 := Sys(s0.db, s1.calls[0 := InitChecked(order)]);
    ReadLeads(s2, 0, env, InitResolved(order, rp.account));
    var s3 := Sys(s0.db, s2.calls[0 := InitResolved(order, rp.account)]);
    InitiateLeads(s3, 0, env, Shop(bound, []), InitRouted(bound, rp.account));
    assert s3.calls[0 := InitRouted(bound, rp.account)] == map[0 := InitRouted(bound, rp.account)];
  }

  lemma FirstWidget(rp: RazorpayOrder, total: int)
    ensures Reachable(Sys(Shop(Routed(rp, total), [Open(rp, total)]), map[0 := InitDone(0, rp.account, rp, 0)]))
  {
    FirstWidgetBinds(rp, total);
    WidgetWrites(rp, total);
    hide Inv, Run, CallOk, Reachable, AssociateRazorpayOrder, CreateAttempt;
    var env := Env(true, Some(rp.account), rp.serial, None);
    var bound, routed := Placed(total).(account := Some(rp.account)), Routed(rp, total);
    var s := Sys(Shop(bound, []), map[0 := InitRouted(bound, rp.account)]);
    ReadLeads(s, 0, env, InitProvided(bound, rp.account, rp));
    var s1 := Sys(s.db, s.calls[0 := InitProvided(bound, rp.account, rp)]);
    InitiateLeads(s1, 0, env, Shop(routed, []), InitReady(bound, rp.account, rp));
    var s2 := Sys(Shop(routed, []), s1.calls[0 := InitReady(bound, rp.account, rp)]);
    InitiateLeads(s2, 0, env, Shop(routed, [Open(rp, total)]), InitDone(0, rp.account, rp, 0));
    assert s2.calls[0 := InitDone(0, rp.account, rp, 0)] == map[0 := InitDone(0, rp.account, rp, 0)];
  }

  /** A second widget for the same order finds its account and Razorpay order, and adds an attempt. */
  lemma SecondWidget(rp: RazorpayOrder, total: int) returns (calls: map<nat, Call>)
    ensures calls.Keys == {0, 1}
    ensures Reachable(Sys(TwoWidgets(rp, total), calls))
  {
    FirstWidget(rp, total);
    WidgetWrites(rp, total);
    hide Inv, Run, CallOk, Reachable, CreateAttempt;
    var env := Env(true, Some(rp.account), rp.serial, None);
    var order := Routed(rp, total);
    var s := Sys(Shop(order, [Open(rp, total)]), map[0 := InitDone(0, rp.account, rp, 0)]);
    BeginLeads(s, 1, InitStart(1, 0));
    var s1 := Sys(s.db, s.calls[1 := InitStart(1, 0)]);
    ReadLeads(s1, 1, env, InitChecked(order));
    var s2 := Sys(s.db, s1.calls[1 := InitChecked(order)]);
    ReadLeads(s2, 1, env, InitRouted(order, rp.account));
    var s3 := Sys(s.db, s2.calls[1 := InitRouted(order, rp.account)]);
    ReadLeads(s3, 1, env, InitReady(order, rp.account, rp));
    var s4 := Sys(s.db, s3.calls[1 := InitReady(order, rp.account, rp)]);
    calls := s4.calls[1 := InitDone(0, rp.account, rp, 1)];
    InitiateLeads(s4, 1, env, Shop(order, [Open(rp, total), Open(rp, total)]), InitDone(0, rp.account, rp, 1));
  }

  lemma WidgetsFound(rp: RazorpayOrder, total: int)
    ensures
      var db := TwoWidgets(rp, total);
      && OrderWith(db.orders, rp) == Some(0) && Latest(db.attempts, WithPayment(PaymentId(rp, 0))) == None
  {
    var db := TwoWidgets(rp, total);
    assert OrderWith(db.orders, rp) == Some(0) && Latest(db.attempts, WithPayment(PaymentId(rp, 0))) == None;
  }

  /** The customer pays in the older widget, and the shop is asked to verify it. */
  lemma Verifying(rp: RazorpayOrder, total: int) returns (calls: map<nat, Call>)
    ensures calls.Keys == {0, 1, 2} && calls[2] == VerifyLooked(Routed(rp, total), rp, PaymentId(rp, 0), None)
    ensures Reachable(Sys(TwoWidgets(rp, total), calls))
  {
    hide Inv, Run, CallOk, Reachable, OrderWith, Latest;
    var widgets := SecondWidget(rp, total);
    var env, p, order := Env(true, None, 0, None), PaymentId(rp, 0), Routed(rp, total);
    var s := Sys(TwoWidgets(rp, total), widgets);
    WidgetsFound(rp, total);
    BeginLeads(s, 2, VerifyStart(1, rp, p));
    var s1 := Sys(s.db, s.calls[2 := VerifyStart(1, rp, p)]);
    ReadLeads(s1, 2, env, VerifyRead(order, rp, p));
    var s2 := Sys(s.db, s1.calls[2 := VerifyRead(order, rp, p)]);
    ReadLeads(s2, 2, env, VerifySigned(order, rp, p));
    var s3 := Sys(s.db, s2.calls[2 := VerifySigned(order, rp, p)]);
    calls := s3.calls[2 := VerifyLooked(order, rp, p, None)];
    ReadLeads(s3, 2, env, VerifyLooked(order, rp, p, None));
  }

  lemma TransactLeads(s: Sys, cid: nat, env: Env, db: Db)
    requires Reachable(s) && cid in s.calls && IsTransaction(s.calls[cid])
    requires CallOk(s.db, s.calls[cid]) && WellNumbered(s.db) ==> Transact(s.db, s.calls[cid], env) == db
    ensures Reachable(Sys(db, s.calls[cid := Finished]))
  {
    hide Transact, Run, CallOk;
    Leads(s, Advance(cid, env), Sys(db, s.calls[cid := Finished]));
  }

  /** The order is announced as paid without ever being PAID: while the older widget's payment is
      being verified, the newer one's failure is delivered. For any Razorpay order and total, a run
      from the empty shop ends with the order PAYMENT_FAILED, its money captured, and ORDER_PAID
      announced; by CapturedUnpaidIsStuck no payment step moves it to PAID afterwards. */
  lemma PaidEventWithoutPaid(rp: RazorpayOrder, total: int)
    ensures
      exists moves ::
        var db := Run(INIT, moves).db;
        && |db.orders| == 1 && db.orders[0].status == PaymentFailed && db.orders[0].razorpayOrder == Some(rp)
        && db.orders[0].total == total && HasCaptured(db, 0) && OrderPaid(0) in db.outbox
  {
    hide Inv, Run, CallOk, Good, Reachable, ApplyWebhook, Verify;
    var calls := Verifying(rp, total);
    var db, p := TwoWidgets(rp, total), PaymentId(rp, 0);
    OneWidgetFails(rp, total);
    var e := Entity(PaymentId(rp, 1), rp, total, None);
    var failed := ApplyWebhook(db, PaymentFailure, e, None, true).After(db);
    var verified := LateVerify(failed, db.orders[0], rp, p);
    var env := Env(true, None, 0, None);
    var s := Sys(db, calls);
    BeginLeads(s, 3, Delivery(PaymentFailure, e, None, true));
    var s1 := Sys(db, calls[3 := Delivery(PaymentFailure, e, None, true)]);
    TransactLeads(s1, 3, env, failed);
    var s2 := Sys(failed, s1.calls[3 := Finished]);
    TransactLeads(s2, 2, env, verified);
    var s3 := Sys(verified, s2.calls[2 := Finished]);
    EndsIn(s3);
  }

  lemma EndsIn(s: Sys)
    requires Reachable(s)
    ensures exists moves :: Run(INIT, moves) == s
  {
  }

  /** The late verify captures, announces, and loses the compare-and-set. */
  lemma LateVerify(db: Db, order: Order, rp: RazorpayOrder, p: PaymentId) returns (after: Db)
    requires db.orders == [order.(status := PaymentFailed)] && order.status == PendingPayment && order.id == 0
    requires |db.attempts| == 2 && db.outbox == {StatusChanged(0, PaymentFailed)}
    requires db.attempts[0] == Attempt(0, rp, None, order.total, Initiated, order.account)
    requires db.attempts[1].status == Failed && db.attempts[1].paymentId != Some(p)
    ensures Verify(db, order, rp, p, None).After(db) == after
    ensures after.orders == db.orders && HasCaptured(after, 0) && OrderPaid(0) in after.outbox
  {
    after := Verify(db, order, rp, p, None).After(db);
    assert Latest(db.attempts, OpenFor(0, rp)) == Some(0);
    assert Capture(db, 0, p).Commit?;
    assert after.attempts[0].status == Captured && after.attempts[0].orderId == 0;
  }
}
