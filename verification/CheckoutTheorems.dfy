/** What holds over every interleaving of checkouts, cart edits and coupon edits. */
module CheckoutTheorems {
  import opened Prelude
  import opened Checkout
  import opened CheckoutOutcomes
  import opened CheckoutProtocol

  // ---------------------------------------------------------------------------------------------
  // Idempotency keys
  // ---------------------------------------------------------------------------------------------

  /** A committed key names one order for ever, that order carries the key and the key's user, and
      no other order carries it. Conversely every order is named by its own key. */
  lemma KeyNamesOneOrder(before: seq<Move>, after: seq<Move>, k: string)
    requires k in Run(INIT, before).db.keys
    ensures
      var row := Run(INIT, before).db.keys[k];
      var db := Run(Run(INIT, before), after).db;
      && row.order.Some? && row.order.value < |db.orders|
      && k in db.keys && db.keys[k] == row
      && db.orders[row.order.value].user == row.user
      && (forall o :: 0 <= o < |db.orders| ==>
            (db.orders[o].key == k <==> o == row.order.value) && db.orders[o].key in db.keys)
  {
    var s := Run(INIT, before);
    RunGrows(s, after);
    var db := Run(s, after).db;
    assert TablesOk(s.db, s.owners) && KeysOk(s.db);
    forall o | 0 <= o < |db.orders|
      ensures (db.orders[o].key == k <==> o == s.db.keys[k].order.value) && db.orders[o].key in db.keys
    {
      assert OrderOk(db, Run(s, after).owners, o);
    }
  }

  /** However often a key is sent and whatever races, all its replies name one order and go to one
      user, and at most one of them says it created it. */
  lemma RepliesAgree(before: seq<Move>, after: seq<Move>, c: nat, d: nat)
    requires c in Run(INIT, before).calls && Run(INIT, before).calls[c].Replied?
    requires d in Run(Run(INIT, before), after).calls && Run(Run(INIT, before), after).calls[d].Replied?
    requires Run(INIT, before).calls[c].req.key == Run(Run(INIT, before), after).calls[d].req.key
    ensures
      var x := Run(INIT, before).calls[c];
      var y := Run(Run(INIT, before), after).calls[d];
      && x.reply.order == y.reply.order && x.req.user == y.req.user
      && (x.reply.created && y.reply.created ==> c == d)
  {
    var s := Run(INIT, before);
    RunGrows(s, after);
    var s' := Run(s, after);
    assert CallOk(s'.db, s'.owners, s'.calls[c]) && CallOk(s'.db, s'.owners, s'.calls[d]);
    assert c != d ==> Apart(s'.calls[c], s'.calls[d]);
  }

  // ---------------------------------------------------------------------------------------------
  // Cart items
  // ---------------------------------------------------------------------------------------------

  lemma {:induction false} SoldHolds(orders: seq<Order>, i: nat)
    requires i < |orders|
    ensures Ids(orders[i].items) <= Sold(orders)
  {
    if i < |orders| - 1 {
      SoldHolds(orders[..|orders| - 1], i);
    }
  }

  /** No cart item becomes lines of two orders, or two lines of one, even when several checkouts
      of the same cart run under different keys. */
  lemma NoItemOrderedTwice(moves: seq<Move>, i: nat, j: nat, a: nat, b: nat)
    requires i <= j < |Run(INIT, moves).db.orders|
    requires a < |Run(INIT, moves).db.orders[i].items| && b < |Run(INIT, moves).db.orders[j].items|
    requires Run(INIT, moves).db.orders[i].items[a].id == Run(INIT, moves).db.orders[j].items[b].id
    ensures i == j && a == b
  {
    var s := Run(INIT, moves);
    assert OrderOk(s.db, s.owners, j);
    var id := s.db.orders[i].items[a].id;
    assert id in Ids(s.db.orders[i].items) && id in Ids(s.db.orders[j].items);
    if i < j {
      SoldHolds(s.db.orders[..j], i);
    }
  }

  // ---------------------------------------------------------------------------------------------
  // Coupons
  // ---------------------------------------------------------------------------------------------

  /** A coupon's counter is the number of its usage rows and of the orders that carry it, and no
      limit is exceeded: neither the total nor anybody's own. */
  lemma CouponLedger(moves: seq<Move>, c: nat, user: nat)
    requires c < |Run(INIT, moves).db.coupons|
    ensures
      var db := Run(INIT, moves).db;
      var coupon := db.coupons[c];
      var used := CountUsagesBy(db.usages, c, user);
      && coupon.usedCount == CountUsages(db.usages, c) == CountOrdersWith(db.orders, c)
      && (coupon.usageLimitTotal.Some? && coupon.usedCount > 0 ==> coupon.usedCount <= coupon.usageLimitTotal.value)
      && (coupon.usageLimitPerUser.Some? && used > 0 ==> used <= coupon.usageLimitPerUser.value)
  {
    assert CouponOk(Run(INIT, moves).db, c);
  }

  lemma {:induction false} NoneBefore(orders: seq<Order>, user: nat, i: nat)
    requires CountOrdersBy(orders, user) == 0 && i < |orders|
    ensures orders[i].user != user
  {
    if i < |orders| - 1 {
      NoneBefore(orders[..|orders| - 1], user, i);
    }
  }

  /** An order that used a first-order-only coupon is its user's first. */
  lemma FirstOrderOnly(moves: seq<Move>, o: nat, earlier: nat)
    requires earlier < o < |Run(INIT, moves).db.orders|
    requires
      var db := Run(INIT, moves).db;
      && db.orders[o].coupon.Some? && db.orders[o].coupon.value < |db.coupons|
      && db.coupons[db.orders[o].coupon.value].firstOrderOnly
    ensures Run(INIT, moves).db.orders[earlier].user != Run(INIT, moves).db.orders[o].user
  {
    var s := Run(INIT, moves);
    assert OrderOk(s.db, s.owners, o);
    NoneBefore(s.db.orders[..o], s.db.orders[o].user, earlier);
  }

  // ---------------------------------------------------------------------------------------------
  // Bills
  // ---------------------------------------------------------------------------------------------

  /** The bill adds up for some terms: a coupon's as they stood when it was claimed, or none. */
  ghost predicate Charged(bill: Bill, items: seq<CartItem>, coupon: Option<nat>) {
    exists terms: Option<Coupon>, w: World :: BillReads(bill, items, terms, w) && (terms.Some? <==> coupon.Some?)
  }

  ghost predicate AllCharged(s: Sys) {
    && (forall o :: 0 <= o < |s.db.orders| ==> Charged(s.db.orders[o].bill, s.db.orders[o].items, s.db.orders[o].coupon))
    && (forall c :: c in s.calls && s.calls[c].Billed? ==> Charged(s.calls[c].bill, s.calls[c].items, s.calls[c].coupon))
  }

  lemma NextCharged(db: Db, call: Call, w: World)
    requires CallFits(db, call) && !call.Billed?
    ensures
      var next := NextCall(db, call, w);
      next.Billed? ==> Charged(next.bill, next.items, next.coupon)
  {
    hide BillReads, MakeBill, FindCoupon, Validates, HasRoom, AllCheckoutable;
    if call.CartRead? {
      BillIsRead(call.items, None, w);
    } else if call.Validated? {
      BillIsRead(call.items, Some(call.terms), w);
    }
  }

  lemma StepCharged(s: Sys, m: Move)
    requires Inv(s) && AllCharged(s)
    ensures AllCharged(Step(s, m))
  {
    hide TablesOk, Apart, Charged, MakeBill, FindCoupon, Validates, HasRoom, AllCheckoutable, Without, Waits, Entitled, Unsold;
    if m.Advance? && m.cid in s.calls {
      assert CallOk(s.db, s.owners, s.calls[m.cid]);
      if !s.calls[m.cid].Billed? {
        NextCharged(s.db, s.calls[m.cid], m.world);
      }
    }
  }

  lemma {:induction false} RunCharged(s: Sys, moves: seq<Move>)
    requires Inv(s) && AllCharged(s)
    ensures AllCharged(Run(s, moves))
    decreases |moves|
  {
    if moves != [] {
      StepInv(s, moves[0]);
      StepCharged(s, moves[0]);
      RunCharged(Step(s, moves[0]), moves[1..]);
    }
    hide Inv, AllCharged;
  }

  /** Every order ever placed is charged the sum of its lines, less its coupon's discount (none
      without a coupon), plus shipping and tax. */
  lemma BillsAddUp(moves: seq<Move>, o: nat)
    requires o < |Run(INIT, moves).db.orders|
    ensures
      var order := Run(INIT, moves).db.orders[o];
      && order.bill.subtotal == Added(Prices(WholeCart, order.items))
      && order.bill.total == order.bill.subtotal - order.bill.discount + order.bill.shipping + order.bill.taxToAdd
      && (order.coupon.None? ==> order.bill.discount == 0)
      && Charged(order.bill, order.items, order.coupon)
  {
    RunCharged(INIT, moves);
    hide Run;
  }

  // ---------------------------------------------------------------------------------------------
  // The statements add up to the transaction
  // ---------------------------------------------------------------------------------------------

  lemma NextFits(db: Db, call: Call, w: World)
    requires CallFits(db, call)
    ensures CallFits(AdvanceDb(db, call, w), NextCall(db, call, w))
  {
    hide MakeBill, Without, AllCheckoutable;
  }

  /** `n` statements of one call with nothing in between. */
  function Solo(db: Db, call: Call, w: World, n: nat): (Db, Call)
    requires CallFits(db, call)
    decreases n
  {
    if n == 0 then (db, call)
    else NextFits(db, call, w); Solo(AdvanceDb(db, call, w), NextCall(db, call, w), w, n - 1)
  }

  lemma {:induction false} SoloStays(db: Db, call: Call, w: World, n: nat)
    requires call.Replied? || call.Refused?
    ensures Solo(db, call, w, n) == (db, call)
  {
    if n > 0 {
      SoloStays(db, call, w, n - 1);
    }
  }

  /** What a finished call left behind, as the outcome of a transaction. */
  ghost predicate Ends(outcome: TxResult<Db, Reply>, before: Db, end: (Db, Call), req: Request) {
    && end.0 == outcome.After(before)
    && end.1 == match outcome case Commit(_, reply) => Replied(req, reply) case Rollback(_) => Refused(req)
  }

  lemma SoloBilled(db: Db, req: Request, cart: Cart, coupon: Option<nat>, w: World, n: nat)
    requires req.user in db.carts && (coupon.Some? ==> coupon.value < |db.coupons|) && n >= 1
    ensures
      var terms := if coupon.Some? then Some(db.coupons[coupon.value]) else None;
      var call := ToBill(CartRead(req, cart.tenant, cart.items), coupon, MakeBill(cart.items, terms, w));
      Ends(BillAlone(db, req, cart, coupon, w), db, Solo(db, call, w, n), req)
  {
    hide MakeBill, Without;
    var terms := if coupon.Some? then Some(db.coupons[coupon.value]) else None;
    var call := ToBill(CartRead(req, cart.tenant, cart.items), coupon, MakeBill(cart.items, terms, w));
    SoloStays(AdvanceDb(db, call, w), NextCall(db, call, w), w, n - 1);
    if call.Refused? {
      SoloStays(db, call, w, n);
    }
  }

  lemma SoloPlaced(db: Db, req: Request, w: World)
    requires req.user in db.carts && req.key !in db.keys
    ensures Ends(PlaceAlone(db, req, w), db, Solo(db, Claimed(req, db.carts[req.user].tenant), w, 4), req)
  {
    hide MakeBill, Without, Validates, AllCheckoutable, BillAlone, FindCoupon, HasRoom;
    var cart := db.carts[req.user];
    var read := NextCall(db, Claimed(req, cart.tenant), w);
    assert Solo(db, Claimed(req, cart.tenant), w, 4) == Solo(db, read, w, 3);
    if read.Refused? {
      SoloStays(db, read, w, 3);
    } else if req.code.None? {
      SoloBilled(db, req, cart, None, w, 2);
    } else {
      var found := FindCoupon(db.coupons, req.code.value, cart.tenant, w.pick);
      var validated := NextCall(db, read, w);
      NextFits(db, read, w);
      assert Solo(db, read, w, 3) == Solo(db, validated, w, 2);
      if validated.Validated? {
        SoloBilled(db, req, cart, found, w, 1);
        SoloStays(db, Refused(req), w, 1);
      } else {
        SoloStays(db, validated, w, 2);
      }
    }
  }

  /** A checkout that nobody interrupts is exactly the transaction CheckoutStore.Checkout performs. */
  lemma SoloIsAlone(db: Db, req: Request, w: World)
    ensures Ends(CheckoutAlone(db, req, w), db, Solo(db, Opened(req), w, 6), req)
  {
    hide MakeBill, Without, Validates, AllCheckoutable, PlaceAlone, FindCoupon;
    var locked := NextCall(db, Opened(req), w);
    assert Solo(db, Opened(req), w, 6) == Solo(db, locked, w, 5);
    if locked.Refused? {
      SoloStays(db, locked, w, 5);
    } else if req.key in db.keys {
      SoloStays(db, NextCall(db, locked, w), w, 4);
    } else {
      SoloPlaced(db, req, w);
    }
  }

  // ---------------------------------------------------------------------------------------------
  // Nothing gets stuck
  // ---------------------------------------------------------------------------------------------

  /** How many statements a call has before it at most. */
  function StatementsLeft(call: Call): nat {
    match call
    case Begun(_) => 7
    case Opened(_) => 6
    case Locked(_, _) => 5
    case Claimed(_, _) => 4
    case CartRead(_, _, _) => 3
    case Validated(_, _, _, _, _) => 2
    case Billed(_, _, _, _, _) => 1
    case _ => 0
  }

  /** The locks are taken in one order (cart, key, coupon), so there is no deadlock: while some call is
      not over, one of them can go on. */
  lemma NoDeadlock(calls: map<nat, Call>, c: nat)
    requires c in calls && StatementsLeft(calls[c]) > 0
    ensures exists d :: d in calls && StatementsLeft(calls[d]) > 0 && !Waits(calls, d)
  {
    var d := if exists d :: d in calls && calls[d].Billed? then 1
             else if exists d :: d in calls && StatementsLeft(calls[d]) in {2, 3, 4, 7} then 2
             else if exists d :: d in calls && calls[d].Locked? then 3 else 4;
    if d == 1 {
      var b :| b in calls && calls[b].Billed?;
      assert !Waits(calls, b);
    } else if d == 2 {
      var b :| b in calls && StatementsLeft(calls[b]) in {2, 3, 4, 7};
      assert !Waits(calls, b);
    } else if d == 3 {
      var b :| b in calls && calls[b].Locked?;
      assert forall e :: e in calls ==> StatementsLeft(calls[e]) !in {1, 2, 3, 4};
      assert !Waits(calls, b);
    } else {
      assert forall e :: e in calls ==> StatementsLeft(calls[e]) !in {1, 2, 3, 4, 5};
      assert !Waits(calls, c);
    }
  }

  /** And a step of a call that need not wait brings it nearer to its end, touching no other call. */
  lemma StepsCount(s: Sys, c: nat, w: World)
    requires Inv(s) && c in s.calls && !Waits(s.calls, c) && StatementsLeft(s.calls[c]) > 0
    ensures
      var s' := Step(s, Advance(c, w));
      && s'.calls.Keys == s.calls.Keys && StatementsLeft(s'.calls[c]) < StatementsLeft(s.calls[c])
      && forall d :: d in s.calls && d != c ==> s'.calls[d] == s.calls[d]
  {
    hide Inv, Waits, NextCall, AdvanceDb, StatementsLeft, CallFits;
    CallsFit(s, c);
    NextIsNearer(s.db, s.calls[c], w);
  }

  lemma NextIsNearer(db: Db, call: Call, w: World)
    requires CallFits(db, call) && StatementsLeft(call) > 0
    ensures StatementsLeft(NextCall(db, call, w)) < StatementsLeft(call)
  {
    hide MakeBill, FindCoupon, Validates, HasRoom, AllCheckoutable;
  }

  // ---------------------------------------------------------------------------------------------
  // A checkout that runs alone, from the request to its end
  // ---------------------------------------------------------------------------------------------

  /** No other call is inside its transaction. */
  predicate OthersIdle(calls: map<nat, Call>, cid: nat) {
    forall d :: d in calls && d != cid ==> !calls[d].Locked? && !HoldsSomeKey(calls[d])
  }

  function Advances(cid: nat, w: World, n: nat): seq<Move> {
    if n == 0 then [] else [Advance(cid, w)] + Advances(cid, w, n - 1)
  }

  lemma {:induction false} AdvancesAreSolo(s: Sys, cid: nat, w: World, n: nat)
    requires Inv(s) && cid in s.calls && CallFits(s.db, s.calls[cid]) && OthersIdle(s.calls, cid)
    ensures
      var end := Solo(s.db, s.calls[cid], w, n);
      Run(s, Advances(cid, w, n)) == s.(db := end.0, calls := s.calls[cid := end.1])
    decreases n
  {
    hide Inv, MakeBill, FindCoupon, Validates, HasRoom, AllCheckoutable, Without, AdvanceDb, NextCall;
    if n > 0 {
      assert !Waits(s.calls, cid);
      var moves := Advances(cid, w, n);
      assert moves[0] == Advance(cid, w) && moves[1..] == Advances(cid, w, n - 1);
      NextFits(s.db, s.calls[cid], w);
      StepInv(s, moves[0]);
      var s' := Step(s, moves[0]);
      AdvancesAreSolo(s', cid, w, n - 1);
    } else {
      assert s.calls[cid := s.calls[cid]] == s.calls;
    }
  }

  lemma BegunIs(s: Sys, cid: nat, req: Request, w: World)
    requires Inv(s) && cid !in s.calls
    ensures
      var begun := Step(s, Begin(cid, req));
      && Inv(begun) && begun == s.(calls := s.calls[cid := Begun(req)])
      && Solo(s.db, Begun(req), w, 7) == Solo(s.db, if req.key in s.db.keys then Answer(s.db, req) else Opened(req), w, 6)
  {
    StepInv(s, Begin(cid, req));
    hide Inv, AdvanceDb;
    assert AdvanceDb(s.db, Begun(req), w) == s.db;
  }

  /** In any state where no other checkout is inside its transaction: a key that is known is answered for
      its order, to its user only; a new one has exactly the outcome of the transaction. */
  lemma CheckoutRuns(s: Sys, cid: nat, req: Request, w: World)
    requires Inv(s) && cid !in s.calls && OthersIdle(s.calls, cid)
    ensures
      var end := Run(s, [Begin(cid, req)] + Advances(cid, w, 7));
      && cid in end.calls
      && (if req.key in s.db.keys then
            end.db == s.db &&
            end.calls[cid] == (match s.db.keys[req.key].order
                               case Some(o) => (if s.db.keys[req.key].user == req.user then Replied(req, Reply(o, false)) else Refused(req))
                               case None => Refused(req))
          else Ends(CheckoutAlone(s.db, req, w), s.db, (end.db, end.calls[cid]), req))
  {
    hide Inv, CheckoutAlone, MakeBill, FindCoupon, Validates, HasRoom, AllCheckoutable, Without, AdvanceDb, NextCall;
    BegunIs(s, cid, req, w);
    var begun := Step(s, Begin(cid, req));
    var moves := [Begin(cid, req)] + Advances(cid, w, 7);
    assert moves[0] == Begin(cid, req) && moves[1..] == Advances(cid, w, 7);
    AdvancesAreSolo(begun, cid, w, 7);
    if req.key in s.db.keys {
      SoloStays(s.db, Answer(s.db, req), w, 6);
    } else {
      SoloIsAlone(s.db, req, w);
    }
  }
}
