/**
 * What whole payment calls come to when nothing runs beside them: an initiation, a verification, a
 * reconciliation, a move at the order desk.
 */
module PaymentCalls {
  import opened Prelude
  import opened OrderLifecycle
  import opened Payments
  import opened PaymentInvariants
  import opened PaymentOutcomes
  import opened PaymentProtocol

  /** `n` steps of one call with nothing in between. */
  function Alone(db: Db, call: Call, env: Env, n: nat): (r: (Db, Call))
    requires Good(db) && CallOk(db, call)
    ensures Good(r.0) && CallOk(r.0, r.1)
    decreases n
  {
    if n == 0 then (db, call)
    else
      AdvanceCallOk(db, call, env);
      var (d, c) := AdvanceCall(db, call, env);
      Alone(d, c, env, n - 1)
  }

  lemma NextAlone(db: Db, call: Call, env: Env, n: nat)
    requires Good(db) && CallOk(db, call) && n > 0
    ensures
      var (d, c) := AdvanceCall(db, call, env);
      Good(d) && CallOk(d, c) && Alone(db, call, env, n) == Alone(d, c, env, n - 1)
  {
    hide Good, CallOk, AdvanceCall;
    AdvanceCallOk(db, call, env);
  }

  lemma {:induction false} OverStays(db: Db, call: Call, env: Env, n: nat)
    requires Good(db) && CallOk(db, call) && (call.Finished? || call.InitDone?)
    ensures Alone(db, call, env, n) == (db, call)
  {
    hide Good, CallOk;
    if n > 0 {
      NextAlone(db, call, env, n);
      OverStays(db, call, env, n - 1);
    }
  }

  lemma TransactsAlone(db: Db, call: Call, env: Env)
    requires Good(db) && CallOk(db, call) && IsTransaction(call)
    ensures WellNumbered(db) && Alone(db, call, env, 1) == (Transact(db, call, env), Finished)
  {
    hide CallOk, Transact;
    NextAlone(db, call, env, 1);
  }

  // ---------------------------------------------------------------------------------------------
  // initiatePayment
  // ---------------------------------------------------------------------------------------------

  /** The initiation of a pending order. Without an account of its own or one its store resolves to, it
      is refused; otherwise the account is bound. If the provider answers, the order keeps its Razorpay
      order or gets a new one, unless another order has that, and one open attempt is added. */
  ghost predicate Initiates(db: Db, id: nat, env: Env, end: (Db, Call))
    requires id < |db.orders|
  {
    var o := db.orders[id];
    var account := if o.account.Some? then o.account else env.account;
    if account.None? || (o.account.None? && o.storeId.None?) then end == (db, Finished)
    else
      var rp := if o.razorpayOrder.Some? then o.razorpayOrder.value else RazorpayOrder(account.value, env.serial);
      if !env.ok || (o.razorpayOrder.None? && exists i :: 0 <= i < |db.orders| && db.orders[i].razorpayOrder == Some(rp))
      then end == (db.(orders := db.orders[id := o.(account := account)]), Finished)
      else
        && end.1 == InitDone(id, account.value, rp, |db.attempts|)
        && end.0 == db.(orders := db.orders[id := o.(account := account, razorpayOrder := Some(rp))],
                        attempts := db.attempts + [Attempt(id, rp, None, o.total, Initiated, account)])
  }

  lemma FromReady(db: Db, order: Order, account: nat, rp: RazorpayOrder, env: Env, n: nat)
    requires Good(db) && CallOk(db, InitReady(order, account, rp)) && n > 0
    ensures
      Alone(db, InitReady(order, account, rp), env, n) ==
      (db.(attempts := db.attempts + [Attempt(order.id, rp, None, order.total, Initiated, Some(account))]),
       InitDone(order.id, account, rp, |db.attempts|))
  {
    hide Good, CallOk, Alone;
    NextAlone(db, InitReady(order, account, rp), env, n);
    var row := Attempt(order.id, rp, None, order.total, Initiated, Some(account));
    assert Admits(db.attempts, |db.attempts|, row);
    OverStays(db.(attempts := db.attempts + [row]), InitDone(order.id, account, rp, |db.attempts|), env, n - 1);
  }

  lemma FromRouted(db: Db, order: Order, account: nat, env: Env, n: nat)
    requires Good(db) && CallOk(db, InitRouted(order, account)) && order.id < |db.orders| && order == db.orders[order.id] && n >= 3
    ensures
      var end := Alone(db, InitRouted(order, account), env, n);
      if order.razorpayOrder.Some? then
        end == (db.(attempts := db.attempts + [Attempt(order.id, order.razorpayOrder.value, None, order.total, Initiated, Some(account))]),
                InitDone(order.id, account, order.razorpayOrder.value, |db.attempts|))
      else
        var rp := RazorpayOrder(account, env.serial);
        if !env.ok || (exists i :: 0 <= i < |db.orders| && db.orders[i].razorpayOrder == Some(rp)) then end == (db, Finished)
        else
          end == (db.(orders := db.orders[order.id := order.(razorpayOrder := Some(rp))],
                      attempts := db.attempts + [Attempt(order.id, rp, None, order.total, Initiated, Some(account))]),
                  InitDone(order.id, account, rp, |db.attempts|))
  {
    hide Good, CallOk, Alone;
    var call := InitRouted(order, account);
    NextAlone(db, call, env, n);
    if order.razorpayOrder.Some? {
      FromReady(db, order, account, order.razorpayOrder.value, env, n - 1);
    } else if !env.ok {
      OverStays(db, Finished, env, n - 1);
    } else {
      var rp := RazorpayOrder(account, env.serial);
      NextAlone(db, InitProvided(order, account, rp), env, n - 1);
      if OrderWith(db.orders, rp).Some? {
        OverStays(db, Finished, env, n - 2);
      } else {
        FromReady(db.(orders := db.orders[order.id := order.(razorpayOrder := Some(rp))]), order, account, rp, env, n - 2);
      }
    }
  }

  lemma FromChecked(db: Db, id: nat, env: Env, n: nat)
    requires Good(db) && id < |db.orders| && CallOk(db, InitChecked(db.orders[id])) && db.orders[id].id == id && n >= 5
    ensures Initiates(db, id, env, Alone(db, InitChecked(db.orders[id]), env, n))
  {
    hide Good, Alone, CallOk;
    var order := db.orders[id];
    NextAlone(db, InitChecked(order), env, n);
    assert db.orders[id := order] == db.orders;
    if order.account.Some? {
      if env.ok {
        FromRouted(db, order, order.account.value, env, n - 1);
      } else {
        OverStays(db, Finished, env, n - 1);
      }
    } else if order.storeId.None? || env.account.None? {
      OverStays(db, Finished, env, n - 1);
    } else {
      BindsAlone(db, id, env.account.value, env, n - 1);
    }
  }

  lemma BindsAlone(db: Db, id: nat, account: nat, env: Env, n: nat)
    requires Good(db) && id < |db.orders| && CallOk(db, InitResolved(db.orders[id], account)) && n >= 4
    requires db.orders[id].id == id && db.orders[id].account.None? && db.orders[id].storeId.Some? && env.account == Some(account)
    ensures Initiates(db, id, env, Alone(db, InitResolved(db.orders[id], account), env, n))
  {
    hide Good, Alone, CallOk;
    var order := db.orders[id];
    NextAlone(db, InitResolved(order, account), env, n);
    var bound := db.(orders := db.orders[id := order.(account := Some(account))]);
    assert forall i :: 0 <= i < |db.orders| ==> bound.orders[i].razorpayOrder == db.orders[i].razorpayOrder;
    if env.ok {
      FromRouted(bound, bound.orders[id], account, env, n - 1);
      assert bound.orders[id := order.(account := Some(account), razorpayOrder := bound.orders[id].razorpayOrder)] == bound.orders;
    } else {
      OverStays(bound, Finished, env, n - 1);
    }
  }

  lemma OwnRow(db: Db, id: nat)
    requires Good(db) && id < |db.orders|
    ensures db.orders[id].id == id && CallOk(db, InitChecked(db.orders[id])) && CallOk(db, InitRetry(db.orders[id])) == (db.orders[id].status == PaymentFailed)
  {
    OwnCopiesOk(db);
    hide AttemptsOk, HistoryOk;
  }

  /** A whole initiation: only the owner's, only of a pending order or of a failed one, which is put back
      to pending first, with its history row. */
  lemma InitiatesExactly(db: Db, user: nat, id: nat, env: Env)
    requires Good(db)
    ensures
      var end := Alone(db, InitStart(user, id), env, 8);
      if id >= |db.orders| || db.orders[id].userId != user || !(db.orders[id].status == PendingPayment || db.orders[id].status == PaymentFailed)
      then end == (db, Finished)
      else if db.orders[id].status == PendingPayment then Initiates(db, id, env, end)
      else
        Initiates(db.(orders := db.orders[id := db.orders[id].(status := PendingPayment)],
                      history := db.history + [HistoryRow(id, Some(PaymentFailed), PendingPayment, PaymentFlow)]), id, env, end)
  {
    hide Good, Alone, CallOk, Initiates;
    NextAloneFromStart(db, InitStart(user, id), env, 8);
    if id < |db.orders| {
      OwnRow(db, id);
    }
    if id >= |db.orders| || db.orders[id].userId != user || !(db.orders[id].status == PendingPayment || db.orders[id].status == PaymentFailed) {
      OverStays(db, Finished, env, 7);
    } else if db.orders[id].status == PendingPayment {
      FromChecked(db, id, env, 7);
    } else {
      RetriesAlone(db, id, env);
    }
  }

  lemma NextAloneFromStart(db: Db, call: Call, env: Env, n: nat)
    requires Good(db) && (call.InitStart? || call.VerifyStart? || call.ReconcileStart? || call.DeskStart?) && n > 0
    ensures CallOk(db, call)
    ensures CallOk(db, AdvanceRead(db, call, env)) && Alone(db, call, env, n) == Alone(db, AdvanceRead(db, call, env), env, n - 1)
  {
    hide Good, AdvanceRead;
    NextAlone(db, call, env, n);
  }

  lemma RetriesAlone(db: Db, id: nat, env: Env)
    requires Good(db) && id < |db.orders| && db.orders[id].status == PaymentFailed && CallOk(db, InitRetry(db.orders[id])) && db.orders[id].id == id
    ensures
      Initiates(db.(orders := db.orders[id := db.orders[id].(status := PendingPayment)],
                    history := db.history + [HistoryRow(id, Some(PaymentFailed), PendingPayment, PaymentFlow)]), id, env,
                Alone(db, InitRetry(db.orders[id]), env, 7))
  {
    hide Good, Alone, CallOk, Initiates;
    var order := db.orders[id];
    NextAlone(db, InitRetry(order), env, 7);
    var d1 := db.(orders := db.orders[id := order.(status := PendingPayment)]);
    NextAlone(d1, InitOwesHistory(order), env, 6);
    var d2 := d1.(history := d1.history + [HistoryRow(id, Some(PaymentFailed), PendingPayment, PaymentFlow)]);
    FromChecked(d2, id, env, 5);
  }

  // ---------------------------------------------------------------------------------------------
  // verifyPayment
  // ---------------------------------------------------------------------------------------------

  /** The owner of an order with this Razorpay order and an account confirms a payment of it, with a
      valid signature. */
  predicate Confirms(db: Db, id: nat, user: nat, rp: RazorpayOrder, p: PaymentId, env: Env) {
    && id < |db.orders| && db.orders[id].razorpayOrder == Some(rp) && db.orders[id].userId == user && db.orders[id].account.Some?
    && env.ok && p.order == rp
  }

  /** An attempt of the order is open, or has the payment. */
  predicate HasAttempt(db: Db, id: nat, p: PaymentId) {
    exists i :: 0 <= i < |db.attempts| && (db.attempts[i].paymentId == Some(p) || (db.attempts[i].orderId == id && db.attempts[i].status == Initiated))
  }

  /** A whole verification: it pays a pending order whose owner confirms it, if neither the order nor the
      payment is captured and there is an attempt for it; in every other case it changes nothing. */
  lemma VerifiesExactly(db: Db, user: nat, rp: RazorpayOrder, p: PaymentId, env: Env)
    requires Good(db)
    ensures
      var end := Alone(db, VerifyStart(user, rp, p), env, 4);
      && (forall id: nat :: Confirms(db, id, user, rp, p, env) && db.orders[id].status == PendingPayment
                            && !CapturedAs(db, p) && !CapturedOtherwise(db, id, p) && HasAttempt(db, id, p) ==>
            Pays(db, end.0, id) && CapturesOne(db.attempts, end.0.attempts, id, p))
      && ((forall id: nat :: Confirms(db, id, user, rp, p, env) ==>
             db.orders[id].status != PendingPayment || CapturedAs(db, p) || CapturedOtherwise(db, id, p) || !HasAttempt(db, id, p)) ==>
            end.0 == db)
  {
    hide Good, Alone, CallOk, Latest, CapturedAs, CapturedOtherwise, HasAttempt, Pays, CapturesOne;
    NextAloneFromStart(db, VerifyStart(user, rp, p), env, 4);
    var found := OrderWith(db.orders, rp);
    if found.None? || db.orders[found.value].userId != user || db.orders[found.value].account.None? {
      OverStays(db, Finished, env, 3);
      forall id: nat
        ensures !Confirms(db, id, user, rp, p, env)
      {
        if id < |db.orders| && db.orders[id].razorpayOrder == Some(rp) {
          KnownOrder(db, id, rp);
        }
      }
    } else {
      OwnerVerifies(db, found.value, user, rp, p, env);
      forall id: nat
        ensures Confirms(db, id, user, rp, p, env) ==> id == found.value
      {
        if id < |db.orders| && db.orders[id].razorpayOrder == Some(rp) {
          KnownOrder(db, id, rp);
        }
      }
    }
  }

  lemma OwnerVerifies(db: Db, id: nat, user: nat, rp: RazorpayOrder, p: PaymentId, env: Env)
    requires Good(db) && id < |db.orders| && CallOk(db, VerifyRead(db.orders[id], rp, p))
    requires db.orders[id].razorpayOrder == Some(rp) && db.orders[id].userId == user && db.orders[id].account.Some?
    ensures
      var end := Alone(db, VerifyRead(db.orders[id], rp, p), env, 3);
      if Confirms(db, id, user, rp, p, env) && db.orders[id].status == PendingPayment
         && !CapturedAs(db, p) && !CapturedOtherwise(db, id, p) && HasAttempt(db, id, p)
      then Pays(db, end.0, id) && CapturesOne(db.attempts, end.0.attempts, id, p)
      else end.0 == db
  {
    hide Good, Alone, CallOk, Latest, Verify, CapturedAs, CapturedOtherwise, HasAttempt, Pays, CapturesOne;
    var order := db.orders[id];
    NextAlone(db, VerifyRead(order, rp, p), env, 3);
    if !env.ok || p.order != rp {
      OverStays(db, Finished, env, 2);
    } else {
      NextAlone(db, VerifySigned(order, rp, p), env, 2);
      var existing := Latest(db.attempts, WithPayment(p));
      if existing.Some? && db.attempts[existing.value].status == Captured {
        OverStays(db, Finished, env, 1);
        assert CapturedAs(db, p) by {
          PaidAlready(db, p, existing.value);
        }
      } else {
        OwnRow(db, id);
        TransactsAlone(db, VerifyLooked(order, rp, p, existing), env);
        LookedUp(db, id, rp, p);
      }
    }
  }

  lemma PaidAlready(db: Db, p: PaymentId, i: nat)
    requires i < |db.attempts| && db.attempts[i].paymentId == Some(p) && db.attempts[i].status == Captured
    ensures CapturedAs(db, p)
  {
  }

  /** The transaction at its end, when the lookup before it is still true. */
  lemma LookedUp(db: Db, id: nat, rp: RazorpayOrder, p: PaymentId)
    requires Good(db) && id < |db.orders| && db.orders[id].razorpayOrder == Some(rp) && p.order == rp
    requires var existing := Latest(db.attempts, WithPayment(p)); existing.Some? ==> db.attempts[existing.value].status != Captured
    ensures
      var r := Verify(db, db.orders[id], rp, p, Latest(db.attempts, WithPayment(p))).After(db);
      if db.orders[id].status == PendingPayment && !CapturedAs(db, p) && !CapturedOtherwise(db, id, p) && HasAttempt(db, id, p)
      then Pays(db, r, id) && CapturesOne(db.attempts, r.attempts, id, p)
      else r == db
  {
    var existing := Latest(db.attempts, WithPayment(p));
    OwnRow(db, id);
    OwnRazorpayOrder(db, id);
    if existing.Some? {
      FoundByPayment(db, db.orders[id], existing.value, p);
    }
    var found := if existing.Some? then existing else Latest(db.attempts, OpenFor(id, rp));
    if found.None? {
      NoAttempt(db, id, rp, p);
    } else {
      VerifyExactly(db, db.orders[id], rp, p, existing, found.value);
      Elsewhere(db, id, rp, p, existing, found.value);
    }
  }

  lemma NoAttempt(db: Db, id: nat, rp: RazorpayOrder, p: PaymentId)
    requires Latest(db.attempts, WithPayment(p)).None? && Latest(db.attempts, OpenFor(id, rp)).None?
    requires forall i :: 0 <= i < |db.attempts| && db.attempts[i].orderId == id ==> db.attempts[i].razorpayOrder == rp
    ensures !HasAttempt(db, id, p)
  {
    assert forall i :: 0 <= i < |db.attempts| ==> !WithPayment(p).Selects(db.attempts[i]) && !OpenFor(id, rp).Selects(db.attempts[i]);
  }

  lemma Elsewhere(db: Db, id: nat, rp: RazorpayOrder, p: PaymentId, existing: Option<nat>, i: nat)
    requires Good(db) && i < |db.attempts| && db.attempts[i].orderId == id && db.attempts[i].status != Captured
    requires existing == Latest(db.attempts, WithPayment(p)) && Some(i) == if existing.Some? then existing else Latest(db.attempts, OpenFor(id, rp))
    ensures HasAttempt(db, id, p) && (CapturedElsewhere(db, i, p) <==> CapturedAs(db, p) || CapturedOtherwise(db, id, p))
    ensures
      var after := db.attempts[i := db.attempts[i].(status := Captured, paymentId := Some(p))];
      CapturesOne(db.attempts, after, id, p)
  {
    var after := db.attempts[i := db.attempts[i].(status := Captured, paymentId := Some(p))];
    assert after[i].orderId == id && after[i].status == Captured && after[i].paymentId == Some(p);
    assert db.attempts[i].paymentId == Some(p) || db.attempts[i].status == Initiated;
    forall j | 0 <= j < |db.attempts| && j != i
      ensures db.attempts[j].paymentId != Some(p)
    {
      if existing.Some? {
        assert !Clash(db.attempts[if j < i then j else i], db.attempts[if j < i then i else j]);
      } else {
        assert !WithPayment(p).Selects(db.attempts[j]);
      }
    }
  }

  // ---------------------------------------------------------------------------------------------
  // Reconciliation and the desk
  // ---------------------------------------------------------------------------------------------

  /** A whole reconciliation: an order the provider knows nothing about, or has no captured payment of,
      is failed as stale; an authentic captured payment is reconciled; without an answer nothing changes. */
  lemma ReconcilesExactly(db: Db, id: nat, env: Env)
    requires Good(db)
    ensures
      var end := Alone(db, ReconcileStart(id), env, 3);
      if id >= |db.orders| || !env.ok then end.0 == db
      else
        Knows(db, db.orders[id]) &&
        (if db.orders[id].razorpayOrder.None? || env.payment.None? then end.0 == FailStale(db, db.orders[id]).After(db)
         else if Authentic(env.payment.value) then end.0 == ReconcileCaptured(db, db.orders[id], env.payment.value).After(db)
         else end.0 == db)
  {
    hide Good, Alone, CallOk, FailStale, ReconcileCaptured;
    NextAloneFromStart(db, ReconcileStart(id), env, 3);
    if id >= |db.orders| {
      OverStays(db, Finished, env, 2);
    } else {
      OwnRow(db, id);
      var order := db.orders[id];
      NextAlone(db, ReconcileRead(order), env, 2);
      if order.razorpayOrder.None? || (env.ok && env.payment.None?) {
        TransactsAlone(db, StaleRead(order), env);
      } else if env.ok && Authentic(env.payment.value) {
        TransactsAlone(db, ReconcileFound(order, env.payment.value), env);
      } else {
        OverStays(db, Finished, env, 1);
      }
    }
  }

  /** A whole move at the desk, of an order that exists, is its transaction on the order as it is. */
  lemma MovesExactly(db: Db, id: nat, to: Status, env: Env)
    requires Good(db)
    ensures
      var end := Alone(db, DeskStart(id, to), env, 2);
      if id >= |db.orders| then end.0 == db
      else Knows(db, db.orders[id]) && end.0 == DeskTransition(db, db.orders[id], to).After(db)
  {
    hide Good, Alone, CallOk, DeskTransition;
    NextAloneFromStart(db, DeskStart(id, to), env, 2);
    if id >= |db.orders| {
      OverStays(db, Finished, env, 1);
    } else {
      OwnRow(db, id);
      TransactsAlone(db, DeskRead(db.orders[id], to), env);
    }
  }

  // ---------------------------------------------------------------------------------------------
  // In any run
  // ---------------------------------------------------------------------------------------------

  function Advances(cid: nat, env: Env, n: nat): seq<Move> {
    if n == 0 then [] else [Advance(cid, env)] + Advances(cid, env, n - 1)
  }

  lemma {:induction false} AdvancesAreAlone(s: Sys, cid: nat, env: Env, n: nat)
    requires Inv(s) && cid in s.calls && CallOk(s.db, s.calls[cid])
    ensures
      var end := Alone(s.db, s.calls[cid], env, n);
      Run(s, Advances(cid, env, n)) == Sys(end.0, s.calls[cid := end.1])
    decreases n
  {
    hide Good, CallOk, AdvanceCall, Balanced;
    if n > 0 {
      var moves := Advances(cid, env, n);
      assert moves[0] == Advance(cid, env) && moves[1..] == Advances(cid, env, n - 1);
      NextAlone(s.db, s.calls[cid], env, n);
      StepInv(s, moves[0]);
      AdvancesAreAlone(Step(s, moves[0]), cid, env, n - 1);
    } else {
      assert s.calls[cid := s.calls[cid]] == s.calls;
    }
  }

  /** After any run, any of these calls can begin, and running it with nothing in between does to the
      tables what it does alone. An authentic webhook delivery is one transaction. */
  lemma CallsRunAlone(s: Sys, cid: nat, call: Call, env: Env, n: nat)
    requires Inv(s) && cid !in s.calls
    requires call.InitStart? || call.VerifyStart? || call.ReconcileStart? || call.DeskStart? || (call.Delivery? && Authentic(call.entity))
    ensures CallOk(s.db, call)
    ensures Run(s, [Begin(cid, call)] + Advances(cid, env, n)) == Sys(Alone(s.db, call, env, n).0, s.calls[cid := Alone(s.db, call, env, n).1])
    ensures call.Delivery? ==>
      WellNumbered(s.db) &&
      Alone(s.db, call, env, 1) == (ApplyWebhook(s.db, call.kind, call.entity, call.forAccount, call.resolves).After(s.db), Finished)
  {
    var moves := [Begin(cid, call)] + Advances(cid, env, n);
    assert moves[0] == Begin(cid, call) && moves[1..] == Advances(cid, env, n);
    StepInv(s, moves[0]);
    hide Good, Balanced, Alone, ApplyWebhook;
    AdvancesAreAlone(Step(s, moves[0]), cid, env, n);
    if call.Delivery? {
      TransactsAlone(s.db, call, env);
    }
  }
}
