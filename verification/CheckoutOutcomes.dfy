/**
 * What a checkout comes to, on the columns: when it is refused, what a coupon must satisfy, how the
 * bill adds up, and every row it writes.
 */
module CheckoutOutcomes {
  import opened Prelude
  import opened Checkout

  // ---------------------------------------------------------------------------------------------
  // Sums
  // ---------------------------------------------------------------------------------------------

  /** What one line costs. */
  function LinePrice(i: CartItem): int {
    i.quantity * (i.base + (match i.variantDelta case Some(d) => d case None => 0) + Added(i.surcharges))
  }

  function Added(s: seq<int>): int {
    if s == [] then 0 else s[0] + Added(s[1..])
  }

  /** The prices of the lines a coupon with this scope is about: all of them, or those of its category. */
  function Prices(scope: Scope, items: seq<CartItem>): seq<int> {
    if items == [] then []
    else
      (match scope
       case WholeCart => [LinePrice(items[0])]
       case InCategory(c) => if items[0].category == c then [LinePrice(items[0])] else [])
      + Prices(scope, items[1..])
  }

  lemma {:induction false} AddedAppend(s: seq<int>, x: int)
    ensures Added(s + [x]) == Added(s) + x
  {
    if s != [] {
      AddedAppend(s[1..], x);
      assert (s + [x])[1..] == s[1..] + [x];
    }
  }

  lemma {:induction false} SumIsAdded(s: seq<int>)
    ensures Sum(s) == Added(s)
  {
    if s != [] {
      SumIsAdded(s[..|s| - 1]);
      AddedAppend(s[..|s| - 1], s[|s| - 1]);
      assert s == s[..|s| - 1] + [s[|s| - 1]];
    }
  }

  lemma LineIsPrice(i: CartItem)
    ensures LineTotal(i) == LinePrice(i)
  {
    SumIsAdded(i.surcharges);
  }

  lemma {:induction false} PricesAppend(scope: Scope, items: seq<CartItem>, x: CartItem)
    ensures Prices(scope, items + [x]) == Prices(scope, items) + Prices(scope, [x])
  {
    if items != [] {
      PricesAppend(scope, items[1..], x);
      assert (items + [x])[1..] == items[1..] + [x];
    } else {
      assert [] + [x] == [x];
    }
  }

  lemma OnePrice(scope: Scope, x: CartItem)
    ensures Prices(scope, [x]) == if scope.WholeCart? || x.category == scope.category then [LinePrice(x)] else []
  {
    assert [x][1..] == [];
  }

  /** The total a coupon's conditions and discount are computed from, and the subtotal. */
  lemma {:induction false} ScopedIsAdded(scope: Scope, items: seq<CartItem>)
    ensures Scoped(scope, items) == Added(Prices(scope, items))
  {
    if items != [] {
      var front, x := items[..|items| - 1], items[|items| - 1];
      ScopedIsAdded(scope, front);
      assert items == front + [x];
      PricesAppend(scope, front, x);
      OnePrice(scope, x);
      LineIsPrice(x);
      hide Prices, LinePrice, LineTotal, Added;
      if InScope(scope, x) {
        AddedAppend(Prices(scope, front), LinePrice(x));
      } else {
        assert Prices(scope, front) + [] == Prices(scope, front);
      }
    }
  }

  // ---------------------------------------------------------------------------------------------
  // The bill
  // ---------------------------------------------------------------------------------------------

  /** What a coupon of this kind takes off a total. */
  ghost predicate TakesOff(kind: CouponKind, total: int, d: int) {
    match kind
    case Percentage(off) =>
      var product := total * (match off case Some(p) => p case None => 0);
      if product >= 0 then 100 * d <= product < 100 * (d + 1) else 100 * (d - 1) < product <= 100 * d
    case FlatAmount(amount) =>
      var flat := match amount case Some(a) => a case None => 0;
      d <= flat && d <= total && (d == flat || d == total)
    case FreeShipping => d == 0
  }

  /** How a bill for these items must read. */
  ghost predicate BillReads(bill: Bill, items: seq<CartItem>, coupon: Option<Coupon>, w: World) {
    && bill.subtotal == Added(Prices(WholeCart, items))
    && (match coupon
        case None => bill.discount == 0 && bill.shipping == w.shippingFee
        case Some(c) =>
          && TakesOff(c.kind, Added(Prices(c.scope, items)), bill.discount)
          && bill.shipping == if c.kind.FreeShipping? then 0 else w.shippingFee)
    && bill.taxToAdd == (if w.tax.exclusive && w.tax.applied then w.tax.amount else 0)
    && bill.total == bill.subtotal - bill.discount + bill.shipping + bill.taxToAdd
  }

  lemma TruncateBounds(a: int)
    ensures
      var d := Truncate(a, 100);
      if a >= 0 then 100 * d <= a < 100 * (d + 1) else 100 * (d - 1) < a <= 100 * d
  {
  }

  lemma BillIsRead(items: seq<CartItem>, coupon: Option<Coupon>, w: World)
    ensures BillReads(MakeBill(items, coupon, w), items, coupon, w)
  {
    hide Scoped, Prices, Added, Truncate;
    ScopedIsAdded(WholeCart, items);
    if coupon.Some? {
      var c := coupon.value;
      ScopedIsAdded(c.scope, items);
      if c.kind.Percentage? {
        TruncateBounds(Scoped(c.scope, items) * (if c.kind.off.Some? then c.kind.off.value else 0));
      }
    }
  }

  // ---------------------------------------------------------------------------------------------
  // The coupon
  // ---------------------------------------------------------------------------------------------

  /** The rows of a coupon's uses by a user. */
  function UseRows(usages: seq<Usage>, coupon: nat, user: nat): set<nat> {
    set u | 0 <= u < |usages| && usages[u].coupon == coupon && usages[u].user == user
  }

  /** The coupon may be used by this user for these items now, its total limit included. */
  ghost predicate Accepts(db: Db, i: nat, user: nat, items: seq<CartItem>, now: int)
    requires i < |db.coupons|
  {
    var c := db.coupons[i];
    var total := Added(Prices(c.scope, items));
    && c.isActive
    && (c.startsAt.Some? ==> c.startsAt.value <= now)
    && (c.expiresAt.Some? ==> now <= c.expiresAt.value)
    && (c.scope != WholeCart ==> total != 0)
    && (c.minOrderValue.Some? ==> c.minOrderValue.value <= total)
    && (c.firstOrderOnly ==> forall o :: o in db.orders ==> o.user != user)
    && (c.usageLimitPerUser.Some? ==>
          |UseRows(db.usages, i, user)| < c.usageLimitPerUser.value)
    && (c.usageLimitTotal.Some? ==> c.usedCount < c.usageLimitTotal.value)
  }

  lemma {:induction false} NoOrders(orders: seq<Order>, user: nat)
    ensures CountOrdersBy(orders, user) == 0 <==> forall o :: o in orders ==> o.user != user
  {
    if orders != [] {
      NoOrders(orders[..|orders| - 1], user);
      assert orders == orders[..|orders| - 1] + [orders[|orders| - 1]];
    }
  }

  lemma UseRowsOfPrefix(usages: seq<Usage>, coupon: nat, user: nat)
    requires usages != []
    ensures
      var n := |usages| - 1;
      var before := UseRows(usages[..n], coupon, user);
      && n !in before
      && UseRows(usages, coupon, user) == before + if usages[n].coupon == coupon && usages[n].user == user then {n} else {}
  {
  }

  lemma {:induction false} UsesCounted(usages: seq<Usage>, coupon: nat, user: nat)
    ensures CountUsagesBy(usages, coupon, user) == |UseRows(usages, coupon, user)|
  {
    if usages == [] {
      assert UseRows(usages, coupon, user) == {};
    } else {
      hide UseRows;
      UsesCounted(usages[..|usages| - 1], coupon, user);
      UseRowsOfPrefix(usages, coupon, user);
    }
  }

  lemma AcceptsIff(db: Db, i: nat, user: nat, items: seq<CartItem>, now: int)
    requires i < |db.coupons|
    ensures Accepts(db, i, user, items, now) <==>
      Validates(db.coupons, db.orders, db.usages, Some(i), user, items, now) && HasRoom(db.coupons[i])
  {
    hide CountOrdersBy, CountUsagesBy, Scoped, Prices, Added, UseRows;
    ScopedIsAdded(db.coupons[i].scope, items);
    NoOrders(db.orders, user);
    UsesCounted(db.usages, i, user);
  }

  // ---------------------------------------------------------------------------------------------
  // The checkout
  // ---------------------------------------------------------------------------------------------

  /** The tables after a new order: the row with its bill, the key naming it, the emptied cart, and the
      coupon's usage. */
  ghost predicate Places(before: Db, after: Db, req: Request, coupon: Option<nat>, w: World)
    requires req.user in before.carts && (coupon.Some? ==> coupon.value < |before.coupons|)
  {
    var cart := before.carts[req.user];
    var n := |before.orders|;
    && |after.orders| == n + 1 && after.orders[..n] == before.orders
    && after.orders[n] == Order(req.user, cart.tenant, req.key, cart.items, after.orders[n].bill, coupon)
    && BillReads(after.orders[n].bill, cart.items, if coupon.Some? then Some(before.coupons[coupon.value]) else None, w)
    && after.keys == before.keys[req.key := KeyRow(req.user, Some(n))]
    && after.carts == before.carts[req.user := Cart(cart.tenant, [])]
    && (match coupon
        case None => after.coupons == before.coupons && after.usages == before.usages
        case Some(c) =>
          && after.coupons == before.coupons[c := before.coupons[c].(usedCount := before.coupons[c].usedCount + 1)]
          && after.usages == before.usages + [Usage(c, req.user, n, after.orders[n].bill.discount)])
  }

  lemma {:induction false} NothingLeft(items: seq<CartItem>, gone: seq<CartItem>)
    requires forall x :: x in items ==> x in gone
    ensures Without(items, gone) == []
  {
    if items != [] {
      NothingLeft(items[..|items| - 1], gone);
      assert items[|items| - 1] in gone;
    }
  }

  lemma PlacesOrder(db: Db, req: Request, coupon: Option<nat>, w: World)
    requires req.user in db.carts && (coupon.Some? ==> coupon.value < |db.coupons|)
    ensures
      var r := BillAlone(db, req, db.carts[req.user], coupon, w);
      var terms := if coupon.Some? then Some(db.coupons[coupon.value]) else None;
      var bill := MakeBill(db.carts[req.user].items, terms, w);
      && BillReads(bill, db.carts[req.user].items, terms, w)
      && (bill.subtotal - bill.discount < 0 || !w.withinPlan ==> r == Rollback(Rejected))
      && (bill.subtotal - bill.discount >= 0 && w.withinPlan ==>
            r.Commit? && r.value == Reply(|db.orders|, true) && Places(db, r.db, req, coupon, w) && r.db.orders[|db.orders|].bill == bill)
  {
    hide MakeBill, BillReads, Without;
    var cart := db.carts[req.user];
    NothingLeft(cart.items, cart.items);
    BillIsRead(cart.items, if coupon.Some? then Some(db.coupons[coupon.value]) else None, w);
  }

  /** A checkout that nothing interrupts, exactly. Refused without a cart or an active tenant; a known
      key answers its own user with its order and refuses anybody else; refused for an empty cart, an
      item that cannot be checked out, or a code that no coupon of the tenant carries. Otherwise the
      coupon found (if a code was given) decides with the bill whether the order is placed. */
  lemma CheckoutExactly(db: Db, req: Request, w: World)
    ensures
      var r := CheckoutAlone(db, req, w);
      if req.user !in db.carts || !w.tenantActive then r == Rollback(Rejected)
      else if req.key in db.keys then
        (if db.keys[req.key].user == req.user && db.keys[req.key].order.Some? then r == Commit(db, Reply(db.keys[req.key].order.value, false))
         else r == Rollback(Rejected))
      else
        var cart := db.carts[req.user];
        if cart.items == [] || (exists i :: 0 <= i < |cart.items| && !cart.items[i].checkoutable) then r == Rollback(Rejected)
        else if req.code.None? then PlacedOrRefused(db, r, req, None, w)
        else if forall i :: 0 <= i < |db.coupons| ==> !(db.coupons[i].code == req.code.value && db.coupons[i].tenant == cart.tenant)
        then r == Rollback(Rejected)
        else exists i: nat ::
          && i < |db.coupons| && db.coupons[i].code == req.code.value && db.coupons[i].tenant == cart.tenant
          && (if Accepts(db, i, req.user, cart.items, w.now) then PlacedOrRefused(db, r, req, Some(i), w) else r == Rollback(Rejected))
  {
    hide MakeBill, BillReads, Places, Accepts, Validates, HasRoom, BillAlone;
    if req.user in db.carts {
      var cart := db.carts[req.user];
      if req.code.None? {
        Placing(db, req, None, w);
      } else {
        var found := FindCoupon(db.coupons, req.code.value, cart.tenant, w.pick);
        if found.Some? {
          AcceptsIff(db, found.value, req.user, cart.items, w.now);
          Placing(db, req, found, w);
        } else {
          NothingValid(db, req.user, cart.items, w.now);
        }
      }
    }
  }

  lemma NothingValid(db: Db, user: nat, items: seq<CartItem>, now: int)
    ensures !Validates(db.coupons, db.orders, db.usages, None, user, items, now)
  {
  }

  /** The order is placed, unless the discount exceeds the subtotal or the plan's order quota is used up. */
  ghost predicate PlacedOrRefused(db: Db, r: TxResult<Db, Reply>, req: Request, coupon: Option<nat>, w: World)
    requires req.user in db.carts && (coupon.Some? ==> coupon.value < |db.coupons|)
  {
    var terms := if coupon.Some? then Some(db.coupons[coupon.value]) else None;
    exists bill ::
      && BillReads(bill, db.carts[req.user].items, terms, w)
      && (if bill.discount > bill.subtotal || !w.withinPlan then r == Rollback(Rejected)
          else
            && r.Commit? && r.value == Reply(|db.orders|, true) && Places(db, r.db, req, coupon, w)
            && r.db.orders[|db.orders|].bill == bill)
  }

  lemma Placing(db: Db, req: Request, coupon: Option<nat>, w: World)
    requires req.user in db.carts && (coupon.Some? ==> coupon.value < |db.coupons|)
    ensures PlacedOrRefused(db, BillAlone(db, req, db.carts[req.user], coupon, w), req, coupon, w)
  {
    PlacesOrder(db, req, coupon, w);
    hide MakeBill, BillReads, BillAlone;
  }
}
