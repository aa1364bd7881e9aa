/**
 * Any number of concurrent payment calls over the payment tables. A call advances one database
 * statement or one external call at a time, and whatever it read earlier is its own stale copy.
 */
module PaymentProtocol {
  import opened Prelude
  import opened OrderLifecycle
  import opened Payments
  import opened PaymentInvariants

  /** Where a call is, with its local variables. */
  datatype Call =
    // initiatePayment
    | InitStart(userId: nat, orderId: nat)
    | InitRetry(order: Order)
    | InitOwesHistory(order: Order)
    | InitRefetch(orderId: nat)
    | InitChecked(order: Order)
    | InitResolved(order: Order, account: nat)
    | InitRebind(order: Order)
    | InitRouted(order: Order, account: nat)
    | InitProvided(order: Order, account: nat, rp: RazorpayOrder)
    | InitReread(order: Order, account: nat)
    | InitReady(order: Order, account: nat, rp: RazorpayOrder)
    | InitDone(orderId: nat, account: nat, rp: RazorpayOrder, attempt: nat)
    // verifyPayment
    | VerifyStart(userId: nat, rp: RazorpayOrder, payment: PaymentId)
    | VerifyRead(order: Order, rp: RazorpayOrder, payment: PaymentId)
    | VerifySigned(order: Order, rp: RazorpayOrder, payment: PaymentId)
    | VerifyLooked(order: Order, rp: RazorpayOrder, payment: PaymentId, existing: Option<nat>)
    // a webhook delivery, the reconciliation cron, and the order desk (customers and admins)
    | Delivery(kind: EventKind, entity: Entity, forAccount: Option<nat>, resolves: bool)
    | ReconcileStart(orderId: nat)
    | ReconcileRead(order: Order)
    | ReconcileFound(order: Order, entity: Entity)
    | StaleRead(order: Order)
    | DeskStart(orderId: nat, to: Status)
    | DeskRead(order: Order, to: Status)
    | Finished

  /** What the outside world answers to one step: whether it succeeded (credentials, signature,
      provider), the account the store resolves to, the serial of the Razorpay order the provider
      creates, and the captured payment it reports. */
  datatype Env = Env(ok: bool, account: Option<nat>, serial: nat, payment: Option<Entity>)

  datatype Sys = Sys(db: Db, calls: map<nat, Call>)

  datatype Move =
    | Place(userId: nat, storeId: Option<nat>, total: int, currency: string)
    | Begin(cid: nat, call: Call)
    | Advance(cid: nat, env: Env)

  // ---------------------------------------------------------------------------------------------
  // Steps
  // ---------------------------------------------------------------------------------------------

  predicate Startable(call: Call) {
    || call.InitStart? || call.VerifyStart? || call.ReconcileStart? || call.DeskStart?
    || (call.Delivery? && Authentic(call.entity))
  }

  function CheckPayable(order: Order): Call {
    if order.status == PendingPayment then InitChecked(order) else Finished
  }

  /** The steps that write: a statement of initiatePayment, or a whole transaction. */
  predicate Writes(call: Call) {
    || call.InitRetry? || call.InitOwesHistory? || call.InitResolved? || call.InitProvided? || call.InitReady?
    || IsTransaction(call)
  }

  predicate IsTransaction(call: Call) {
    call.VerifyLooked? || call.Delivery? || call.ReconcileFound? || call.StaleRead? || call.DeskRead?
  }

  /** A step that only reads, asks the outside world, or decides. */
  function AdvanceRead(db: Db, call: Call, env: Env): Call
    requires CallOk(db, call) && !Writes(call)
  {
    match call
    case InitStart(userId, orderId) =>
      if orderId >= |db.orders| || db.orders[orderId].userId != userId then Finished
      else if db.orders[orderId].status == PaymentFailed then InitRetry(db.orders[orderId])
      else CheckPayable(db.orders[orderId])
    case InitRefetch(id) => CheckPayable(db.orders[id])
    case InitChecked(order) =>
      if order.account.Some? then (if env.ok then InitRouted(order, order.account.value) else Finished)
      else if order.storeId.None? || env.account.None? then Finished
      else InitResolved(order, env.account.value)
    case InitRebind(order) =>
      var current := db.orders[order.id].account;
      if env.ok && current.Some? then InitRouted(order.(account := current), current.value) else Finished
    case InitRouted(order, account) =>
      if order.razorpayOrder.Some? then InitReady(order, account, order.razorpayOrder.value)
      else if env.ok then InitProvided(order, account, RazorpayOrder(account, env.serial)) else Finished
    case InitReread(order, account) =>
      var current := db.orders[order.id].razorpayOrder;
      if current.Some? then InitReady(order, account, current.value) else Finished
    case VerifyStart(userId, rp, p) =>
      (match OrderWith(db.orders, rp)
       case None => Finished
       case Some(id) =>
         if db.orders[id].userId != userId || db.orders[id].account.None? then Finished
         else VerifyRead(db.orders[id], rp, p))
    case VerifyRead(order, rp, p) =>
      // A valid signature covers both ids, so the payment really is one of this Razorpay order.
      if env.ok && p.order == rp then VerifySigned(order, rp, p) else Finished
    case VerifySigned(order, rp, p) =>
      var existing := Latest(db.attempts, WithPayment(p));
      if existing.Some? && db.attempts[existing.value].status == Captured then Finished
      else VerifyLooked(order, rp, p, existing)
    case ReconcileStart(id) => if id < |db.orders| then ReconcileRead(db.orders[id]) else Finished
    case ReconcileRead(order) =>
      if order.razorpayOrder.None? then StaleRead(order)
      else if !env.ok then Finished
      else
        (match env.payment
         case None => StaleRead(order)
         case Some(e) => if Authentic(e) then ReconcileFound(order, e) else Finished)
    case DeskStart(id, to) => if id < |db.orders| then DeskRead(db.orders[id], to) else Finished
    case _ => call
  }

  /** A statement of initiatePayment that writes. */
  function AdvanceInitiate(db: Db, call: Call, env: Env): (Db, Call)
    requires CallOk(db, call) && Writes(call) && !IsTransaction(call)
  {
    match call
    case InitRetry(order) =>
      var (db1, won) := RetryCas(db, order);
      (db1, if won then InitOwesHistory(order) else InitRefetch(order.id))
    case InitOwesHistory(order) =>
      (RetryHistory(db, order), InitChecked(order.(status := PendingPayment)))
    case InitResolved(order, account) =>
      var (db1, won) := BindAccount(db, order.id, account);
      (db1, if !won then InitRebind(order)
            else if env.ok then InitRouted(order.(account := Some(account)), account) else Finished)
    case InitProvided(order, account, rp) =>
      (match AssociateRazorpayOrder(db, order.id, rp)
       case Rollback(_) => (db, Finished)
       case Commit(db1, won) => (db1, if won then InitReady(order, account, rp) else InitReread(order, account)))
    case InitReady(order, account, rp) =>
      (match CreateAttempt(db, order, rp, account)
       case Rollback(_) => (db, Finished)
       case Commit(db1, i) => (db1, InitDone(order.id, account, rp, i)))
  }

  /** A whole transaction, committed or rolled back. */
  function Transact(db: Db, call: Call, env: Env): Db
    requires CallOk(db, call) && IsTransaction(call) && WellNumbered(db)
  {
    match call
    case VerifyLooked(order, rp, p, existing) => Verify(db, order, rp, p, existing).After(db)
    case Delivery(kind, e, account, resolves) => ApplyWebhook(db, kind, e, account, resolves).After(db)
    case ReconcileFound(order, e) => ReconcileCaptured(db, order, e).After(db)
    case StaleRead(order) => if env.ok then FailStale(db, order).After(db) else db
    case DeskRead(order, to) => DeskTransition(db, order, to).After(db)
  }

  function AdvanceCall(db: Db, call: Call, env: Env): (Db, Call)
    requires CallOk(db, call) && WellNumbered(db)
  {
    if !Writes(call) then (db, AdvanceRead(db, call, env))
    else if IsTransaction(call) then (Transact(db, call, env), Finished)
    else AdvanceInitiate(db, call, env)
  }

  /** One move of the whole system; a move that does not apply changes nothing. */
  function Step(s: Sys, m: Move): Sys
    requires Inv(s)
  {
    match m
    case Place(userId, storeId, total, currency) => s.(db := PlaceOrder(s.db, userId, storeId, total, currency))
    case Begin(cid, call) => if cid in s.calls || !Startable(call) then s else s.(calls := s.calls[cid := call])
    case Advance(cid, env) =>
      if cid !in s.calls then s
      else
        var (db1, call1) := AdvanceCall(s.db, s.calls[cid], env);
        Sys(db1, s.calls[cid := call1])
  }

  function Run(s: Sys, moves: seq<Move>): (s': Sys)
    requires Inv(s)
    ensures Inv(s')
    decreases |moves|
  {
    if moves == [] then s else StepInv(s, moves[0]); Run(Step(s, moves[0]), moves[1..])
  }

  const INIT := Sys(Db([], [], [], {}), map[])

  // ---------------------------------------------------------------------------------------------
  // The invariant of the system
  // ---------------------------------------------------------------------------------------------

  /** What a call may believe about the database, however old its copies are. */
  ghost predicate CallOk(db: Db, call: Call) {
    match call
    case InitRetry(order) => CopyOk(db, order) && order.status == PaymentFailed
    case InitOwesHistory(order) => CopyOk(db, order) && order.status == PaymentFailed
    case InitRefetch(id) => id < |db.orders|
    case InitChecked(order) => CopyOk(db, order)
    case InitResolved(order, _) => CopyOk(db, order)
    case InitRebind(order) => CopyOk(db, order)
    case InitRouted(order, account) => CopyOk(db, order) && db.orders[order.id].account == Some(account)
    case InitProvided(order, account, rp) =>
      CopyOk(db, order) && db.orders[order.id].account == Some(account) && rp.account == account
    case InitReread(order, account) => CopyOk(db, order) && db.orders[order.id].account == Some(account)
    case InitReady(order, account, rp) =>
      CopyOk(db, order) && db.orders[order.id].account == Some(account) && db.orders[order.id].razorpayOrder == Some(rp)
    case InitDone(id, account, rp, i) =>
      && id < |db.orders| && i < |db.attempts|
      && db.orders[id].account == Some(account) && db.orders[id].razorpayOrder == Some(rp)
      && db.attempts[i].orderId == id && db.attempts[i].account == Some(account) && db.attempts[i].razorpayOrder == rp
    case VerifyRead(order, rp, _) => CopyOk(db, order) && order.razorpayOrder == Some(rp)
    case VerifySigned(order, rp, p) => CopyOk(db, order) && order.razorpayOrder == Some(rp) && p.order == rp
    case VerifyLooked(order, rp, p, existing) =>
      && CopyOk(db, order) && order.razorpayOrder == Some(rp) && p.order == rp
      && (existing.Some? ==> existing.value < |db.attempts| && db.attempts[existing.value].orderId == order.id)
    case Delivery(_, e, _, _) => Authentic(e)
    case ReconcileRead(order) => CopyOk(db, order)
    case ReconcileFound(order, e) => CopyOk(db, order) && order.razorpayOrder.Some? && Authentic(e)
    case StaleRead(order) => CopyOk(db, order)
    case DeskRead(order, _) => CopyOk(db, order)
    case _ => true
  }

  predicate Owes(call: Call, id: nat) {
    call.InitOwesHistory? && call.order.id == id
  }

  /** The retries of order `id` that have moved it but not yet written their history row. */
  ghost function Owing(calls: map<nat, Call>, id: nat): set<nat> {
    set c | c in calls && Owes(calls[c], id)
  }

  /** Rows into a status minus rows out of it is one exactly for the current status, once the
      retries' unwritten rows are counted in. */
  ghost predicate Balanced(s: Sys) {
    forall id, st :: 0 <= id < |s.db.orders| ==>
      Balance(s.db, id, st) == |Owing(s.calls, id)| * RetrySign(st)
  }

  function RetrySign(st: Status): int {
    if st == PaymentFailed then 1 else if st == PendingPayment then -1 else 0
  }

  ghost predicate Inv(s: Sys) {
    Good(s.db) && Balanced(s) && forall c :: c in s.calls ==> CallOk(s.db, s.calls[c])
  }

  lemma CallOkGrows(db: Db, db': Db, call: Call)
    requires CallOk(db, call) && Grows(db, db')
    ensures CallOk(db', call)
  {
    forall o: Order | CopyOk(db, o)
      ensures CopyOk(db', o)
    {
      assert OrderGrows(db.orders[o.id], db'.orders[o.id]);
    }
    match call {
      case InitDone(id, _, _, i) =>
        assert OrderGrows(db.orders[id], db'.orders[id]) && AttemptGrows(db.attempts[i], db'.attempts[i]);
      case VerifyLooked(_, _, _, existing) =>
        if existing.Some? {
          assert AttemptGrows(db.attempts[existing.value], db'.attempts[existing.value]);
        }
      case InitRouted(o, _) => assert OrderGrows(db.orders[o.id], db'.orders[o.id]);
      case InitProvided(o, _, _) => assert OrderGrows(db.orders[o.id], db'.orders[o.id]);
      case InitReread(o, _) => assert OrderGrows(db.orders[o.id], db'.orders[o.id]);
      case InitReady(o, _, _) => assert OrderGrows(db.orders[o.id], db'.orders[o.id]);
      case _ =>
    }
  }

  /** How one step of a call shifts the balance: by the history rows it begins or ceases to owe. */
  ghost predicate Shifts(db: Db, db': Db, call: Call, call': Call)
    requires |db.orders| <= |db'.orders|
  {
    forall id, st :: 0 <= id < |db.orders| ==>
      Balance(db', id, st) - Balance(db, id, st) ==
      ((if Owes(call', id) then 1 else 0) - (if Owes(call, id) then 1 else 0)) * RetrySign(st)
  }

  ghost predicate AdvanceOk(db: Db, db': Db, call: Call, call': Call) {
    && Good(db') && Grows(db, db') && |db'.orders| == |db.orders|
    && CallOk(db', call')
    && Shifts(db, db', call, call')
  }

  lemma RetryOk(db: Db, order: Order, env: Env)
    requires Good(db) && CallOk(db, InitRetry(order))
    ensures
      var a := AdvanceInitiate(db, InitRetry(order), env);
      AdvanceOk(db, a.0, InitRetry(order), a.1)
  {
    if db.orders[order.id].status == order.status {
      OrderUpdateKeeps(db, order.id, db.orders[order.id].(status := PendingPayment));
    }
  }

  lemma RetryHistoryOk(db: Db, order: Order, env: Env)
    requires Good(db) && CallOk(db, InitOwesHistory(order))
    ensures
      var a := AdvanceInitiate(db, InitOwesHistory(order), env);
      AdvanceOk(db, a.0, InitOwesHistory(order), a.1)
  {
    RetryHistoryKeeps(db, order);
    CountAppend(db.history, HistoryRow(order.id, Some(order.status), PendingPayment, PaymentFlow));
  }

  lemma BindOk(db: Db, order: Order, account: nat, env: Env)
    requires Good(db) && CallOk(db, InitResolved(order, account))
    ensures
      var a := AdvanceInitiate(db, InitResolved(order, account), env);
      AdvanceOk(db, a.0, InitResolved(order, account), a.1)
  {
    if db.orders[order.id].account.None? {
      OrderUpdateKeeps(db, order.id, db.orders[order.id].(account := Some(account)));
    }
  }

  lemma AssociateOk(db: Db, order: Order, account: nat, rp: RazorpayOrder, env: Env)
    requires Good(db) && CallOk(db, InitProvided(order, account, rp))
    ensures
      var a := AdvanceInitiate(db, InitProvided(order, account, rp), env);
      AdvanceOk(db, a.0, InitProvided(order, account, rp), a.1)
  {
    if db.orders[order.id].razorpayOrder.None? && OrderWith(db.orders, rp).None? {
      OrderUpdateKeeps(db, order.id, db.orders[order.id].(razorpayOrder := Some(rp)));
    }
  }

  lemma CreateOk(db: Db, order: Order, account: nat, rp: RazorpayOrder, env: Env)
    requires Good(db) && CallOk(db, InitReady(order, account, rp))
    ensures
      var a := AdvanceInitiate(db, InitReady(order, account, rp), env);
      AdvanceOk(db, a.0, InitReady(order, account, rp), a.1)
  {
    WriteAttemptKeeps(db, |db.attempts|, Attempt(order.id, rp, None, order.total, Initiated, Some(account)));
  }

  lemma TransactOk(db: Db, call: Call, env: Env)
    requires Good(db) && CallOk(db, call) && IsTransaction(call)
    ensures Keeps(db, Transact(db, call, env))
  {
    hide Good, Keeps, OrderGrows, Verify, ApplyWebhook, ReconcileCaptured, FailStale, DeskTransition;
    KeepsSelf(db);
    match call {
      case VerifyLooked(order, rp, p, existing) => VerifyKeeps(db, order, rp, p, existing);
      case Delivery(kind, e, account, resolves) => WebhookKeeps(db, kind, e, account, resolves);
      case ReconcileFound(order, e) => ReconcileKeeps(db, order, e);
      case StaleRead(order) => FailStaleKeeps(db, order);
      case DeskRead(order, to) => DeskKeeps(db, order, to);
    }
  }

  lemma ReadOk(db: Db, call: Call, env: Env)
    requires Good(db) && CallOk(db, call) && !Writes(call)
    ensures CallOk(db, AdvanceRead(db, call, env)) && !AdvanceRead(db, call, env).InitOwesHistory?
  {
    hide Good, Latest;
    if call.VerifySigned? {
      SignedOk(db, call, env);
    } else {
      OwnCopiesOk(db);
    }
  }

  lemma SignedOk(db: Db, call: Call, env: Env)
    requires Good(db) && CallOk(db, call) && call.VerifySigned?
    ensures CallOk(db, AdvanceRead(db, call, env)) && !AdvanceRead(db, call, env).InitOwesHistory?
  {
    hide Good, OrderGrows;
    var existing := Latest(db.attempts, WithPayment(call.payment));
    if existing.Some? {
      FoundByPayment(db, call.order, existing.value, call.payment);
    }
  }

  lemma FoundByPayment(db: Db, order: Order, i: nat, p: PaymentId)
    requires Good(db) && CopyOk(db, order) && order.razorpayOrder == Some(p.order)
    requires i < |db.attempts| && db.attempts[i].paymentId == Some(p)
    ensures db.attempts[i].orderId == order.id
  {
    assert Belongs(db, db.attempts[i]);
    SameRazorpayOrder(db, i, order.id);
  }

  lemma OwnCopiesOk(db: Db)
    requires Good(db)
    ensures forall i :: 0 <= i < |db.orders| ==> CopyOk(db, db.orders[i])
  {
    hide AttemptsOk, HistoryOk;
  }

  lemma AdvanceCallOk(db: Db, call: Call, env: Env)
    requires Good(db) && CallOk(db, call)
    ensures AdvanceOk(db, AdvanceCall(db, call, env).0, call, AdvanceCall(db, call, env).1)
  {
    if !Writes(call) {
      ReadOk(db, call, env);
    } else if IsTransaction(call) {
      TransactOk(db, call, env);
    } else {
      match call {
        case InitRetry(order) => RetryOk(db, order, env);
        case InitOwesHistory(order) => RetryHistoryOk(db, order, env);
        case InitResolved(order, account) => BindOk(db, order, account, env);
        case InitProvided(order, account, rp) => AssociateOk(db, order, account, rp, env);
        case InitReady(order, account, rp) => CreateOk(db, order, account, rp, env);
      }
    }
  }

  lemma OwingUpdate(calls: map<nat, Call>, cid: nat, call': Call, id: nat)
    ensures |Owing(calls[cid := call'], id)| ==
      |Owing(calls, id)| - (if cid in calls && Owes(calls[cid], id) then 1 else 0) + (if Owes(call', id) then 1 else 0)
  {
    var before, after := Owing(calls, id), Owing(calls[cid := call'], id);
    assert after == before - {cid} + (if Owes(call', id) then {cid} else {});
    assert (before - {cid}) !! {cid};
  }

  /** A finished step of one call, seen by the whole system. */
  lemma AdvanceInv(s: Sys, cid: nat, db': Db, call': Call)
    requires Inv(s) && cid in s.calls && AdvanceOk(s.db, db', s.calls[cid], call')
    ensures Inv(Sys(db', s.calls[cid := call']))
  {
    hide Good, Grows, CallOk, Balance, Owing;
    var s' := Sys(db', s.calls[cid := call']);
    forall c | c in s'.calls
      ensures CallOk(db', s'.calls[c])
    {
      if c != cid {
        CallOkGrows(s.db, db', s.calls[c]);
      }
    }
    forall id, st | 0 <= id < |db'.orders|
      ensures Balance(db', id, st) == |Owing(s'.calls, id)| * RetrySign(st)
    {
      OwingUpdate(s.calls, cid, call', id);
      assert Balance(s.db, id, st) == |Owing(s.calls, id)| * RetrySign(st);
    }
  }

  lemma PlaceInv(s: Sys, userId: nat, storeId: Option<nat>, total: int, currency: string)
    requires Inv(s)
    ensures Inv(s.(db := PlaceOrder(s.db, userId, storeId, total, currency)))
    ensures Grows(s.db, PlaceOrder(s.db, userId, storeId, total, currency))
  {
    PlaceOrderKeeps(s.db, userId, storeId, total, currency);
    var db' := PlaceOrder(s.db, userId, storeId, total, currency);
    forall c | c in s.calls
      ensures CallOk(db', s.calls[c])
    {
      CallOkGrows(s.db, db', s.calls[c]);
    }
    assert Owing(s.calls, |s.db.orders|) == {} by {
      assert forall c :: c in s.calls ==> CallOk(s.db, s.calls[c]);
    }
  }

  lemma BeginInv(s: Sys, cid: nat, call: Call)
    requires Inv(s) && cid !in s.calls && Startable(call)
    ensures Inv(s.(calls := s.calls[cid := call]))
  {
    forall id
      ensures Owing(s.calls[cid := call], id) == Owing(s.calls, id)
    {
    }
  }

  lemma StepInv(s: Sys, m: Move)
    requires Inv(s)
    ensures Inv(Step(s, m)) && Grows(s.db, Step(s, m).db)
  {
    match m {
      case Place(userId, storeId, total, currency) => PlaceInv(s, userId, storeId, total, currency);
      case Begin(cid, call) =>
        if cid !in s.calls && Startable(call) {
          BeginInv(s, cid, call);
        }
      case Advance(cid, env) =>
        if cid in s.calls {
          AdvanceCallOk(s.db, s.calls[cid], env);
          var (db', call') := AdvanceCall(s.db, s.calls[cid], env);
          AdvanceInv(s, cid, db', call');
        }
    }
  }

  lemma RunGrows(s: Sys, moves: seq<Move>)
    requires Inv(s)
    ensures Grows(s.db, Run(s, moves).db)
    decreases |moves|
  {
    if moves != [] {
      StepInv(s, moves[0]);
      RunGrows(Step(s, moves[0]), moves[1..]);
      GrowsTransitive(s.db, Step(s, moves[0]).db, Run(s, moves).db);
    }
  }
}
