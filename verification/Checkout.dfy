/**
 * Checkout and coupons: the tables the checkout transaction touches, what it prices and claims,
 * and the transaction itself, in place.
 */
module Checkout {
  import opened Prelude

  /** Money is in paise throughout. `checkoutable` is the outcome of the per-item rules (product
      active, variant available, quantity in bounds, customizations valid). */
  datatype CartItem = CartItem(
    id: nat, category: Option<nat>, base: int, variantDelta: Option<int>, surcharges: seq<int>,
    quantity: int, checkoutable: bool)

  datatype Cart = Cart(tenant: nat, items: seq<CartItem>)

  datatype CouponKind = Percentage(off: Option<int>) | FlatAmount(amount: Option<int>) | FreeShipping
  datatype Scope = WholeCart | InCategory(category: Option<nat>)

  /** A coupons row; its id is its position in the table. */
  datatype Coupon = Coupon(
    code: string, tenant: nat, kind: CouponKind, scope: Scope, minOrderValue: Option<int>,
    usageLimitTotal: Option<int>, usageLimitPerUser: Option<int>, usedCount: int,
    firstOrderOnly: bool, startsAt: Option<int>, expiresAt: Option<int>, isActive: bool)

  datatype Usage = Usage(coupon: nat, user: nat, order: nat, discount: int)
  datatype KeyRow = KeyRow(user: nat, order: Option<nat>)

  datatype Bill = Bill(subtotal: int, discount: int, shipping: int, taxToAdd: int, total: int)

  /** An orders row with its lines; `items` are the cart items its lines were made from. */
  datatype Order = Order(user: nat, tenant: nat, key: string, items: seq<CartItem>, bill: Bill, coupon: Option<nat>)

  datatype Db = Db(
    carts: map<nat, Cart>, keys: map<string, KeyRow>, coupons: seq<Coupon>, usages: seq<Usage>, orders: seq<Order>)

  datatype Request = Request(user: nat, key: string, code: Option<string>)

  datatype Tax = Tax(exclusive: bool, applied: bool, amount: int)

  /** What the transaction reads from tables that checkout does not write, and the clock. */
  datatype World = World(tenantActive: bool, shippingFee: int, pick: nat, now: int, tax: Tax, withinPlan: bool)

  /** The reply: which order, and whether this call created it. */
  datatype Reply = Reply(order: nat, created: bool)

  // ---------------------------------------------------------------------------------------------
  // Pricing
  // ---------------------------------------------------------------------------------------------

  function Sum(s: seq<int>): int {
    if s == [] then 0 else Sum(s[..|s| - 1]) + s[|s| - 1]
  }

  function LineTotal(i: CartItem): int {
    (i.base + (if i.variantDelta.Some? then i.variantDelta.value else 0) + Sum(i.surcharges)) * i.quantity
  }

  predicate InScope(scope: Scope, i: CartItem) {
    scope.WholeCart? || i.category == scope.category
  }

  /** The total of the lines a scope covers; the whole cart's is the subtotal. */
  function Scoped(scope: Scope, items: seq<CartItem>): int {
    if items == [] then 0
    else
      var last := items[|items| - 1];
      Scoped(scope, items[..|items| - 1]) + (if InScope(scope, last) then LineTotal(last) else 0)
  }

  function Subtotal(items: seq<CartItem>): int {
    Scoped(WholeCart, items)
  }

  /** BigInt division rounds towards zero. */
  function Truncate(a: int, b: int): int
    requires b > 0
  {
    if a >= 0 then a / b else -((-a) / b)
  }

  function Discount(kind: CouponKind, scoped: int): int {
    match kind
    case Percentage(off) => Truncate(scoped * (if off.Some? then off.value else 0), 100)
    case FlatAmount(amount) =>
      var flat := if amount.Some? then amount.value else 0;
      if flat < scoped then flat else scoped
    case FreeShipping => 0
  }

  function TaxToAdd(t: Tax): int {
    if t.exclusive && t.applied then t.amount else 0
  }

  function MakeBill(items: seq<CartItem>, coupon: Option<Coupon>, w: World): Bill {
    var subtotal := Subtotal(items);
    var discount := if coupon.Some? then Discount(coupon.value.kind, Scoped(coupon.value.scope, items)) else 0;
    var shipping := if coupon.Some? && coupon.value.kind.FreeShipping? then 0 else w.shippingFee;
    Bill(subtotal, discount, shipping, TaxToAdd(w.tax), subtotal - discount + shipping + TaxToAdd(w.tax))
  }

  predicate PricedFairly(items: seq<CartItem>) {
    forall i :: 0 <= i < |items| ==> LineTotal(items[i]) >= 0
  }

  predicate SensibleKind(kind: CouponKind) {
    match kind
    case Percentage(off) => off.Some? ==> 0 <= off.value <= 100
    case FlatAmount(amount) => amount.Some? ==> amount.value >= 0
    case FreeShipping => true
  }

  lemma {:induction false} ScopedBounds(scope: Scope, items: seq<CartItem>)
    requires PricedFairly(items)
    ensures 0 <= Scoped(scope, items) <= Subtotal(items)
  {
    if items != [] {
      ScopedBounds(scope, items[..|items| - 1]);
    }
  }

  /** A discount never exceeds what it discounts, so the customer never pays less than the
      shipping and tax added. */
  lemma DiscountStaysInScope(items: seq<CartItem>, c: Coupon, w: World)
    requires PricedFairly(items) && SensibleKind(c.kind)
    ensures
      var bill := MakeBill(items, Some(c), w);
      && 0 <= bill.discount <= Scoped(c.scope, items) <= bill.subtotal
      && bill.total >= bill.shipping + bill.taxToAdd
  {
    ScopedBounds(c.scope, items);
    var scoped := Scoped(c.scope, items);
    if c.kind.Percentage? && c.kind.off.Some? {
      PercentBounds(scoped, c.kind.off.value);
    }
  }

  lemma PercentBounds(scoped: int, percent: int)
    requires scoped >= 0 && 0 <= percent <= 100
    ensures 0 <= scoped * percent / 100 <= scoped
    ensures scoped * percent >= 0
  {
    assert scoped * percent <= scoped * 100;
  }

  // ---------------------------------------------------------------------------------------------
  // Coupons
  // ---------------------------------------------------------------------------------------------

  function CountUsages(usages: seq<Usage>, coupon: nat): nat {
    if usages == [] then 0
    else CountUsages(usages[..|usages| - 1], coupon) + (if usages[|usages| - 1].coupon == coupon then 1 else 0)
  }

  function CountUsagesBy(usages: seq<Usage>, coupon: nat, user: nat): nat {
    if usages == [] then 0
    else
      var last := usages[|usages| - 1];
      CountUsagesBy(usages[..|usages| - 1], coupon, user) + (if last.coupon == coupon && last.user == user then 1 else 0)
  }

  function CountOrdersBy(orders: seq<Order>, user: nat): nat {
    if orders == [] then 0
    else CountOrdersBy(orders[..|orders| - 1], user) + (if orders[|orders| - 1].user == user then 1 else 0)
  }

  function CountOrdersWith(orders: seq<Order>, coupon: nat): nat {
    if orders == [] then 0
    else CountOrdersWith(orders[..|orders| - 1], coupon) + (if orders[|orders| - 1].coupon == Some(coupon) then 1 else 0)
  }

  predicate Carries(c: Coupon, code: string, tenant: nat) {
    c.code == code && c.tenant == tenant
  }

  /** findFirst by code and tenant, without an order: any matching row may come back, and `pick`
      says which one the database chose. */
  function FindCoupon(coupons: seq<Coupon>, code: string, tenant: nat, pick: nat): (r: Option<nat>)
    ensures r.Some? ==> r.value < |coupons| && Carries(coupons[r.value], code, tenant)
    ensures r.None? ==> forall i :: 0 <= i < |coupons| ==> !Carries(coupons[i], code, tenant)
  {
    if pick < |coupons| && Carries(coupons[pick], code, tenant) then Some(pick)
    else if coupons == [] then None
    else if Carries(coupons[|coupons| - 1], code, tenant) then Some(|coupons| - 1)
    else FindCoupon(coupons[..|coupons| - 1], code, tenant, pick)
  }

  /** validateCouponCore, everything but the usage-limit compare-and-set: `priorOrders` and
      `priorUses` are the two counts it reads for this user. */
  predicate Usable(c: Coupon, priorOrders: nat, priorUses: nat, items: seq<CartItem>, now: int) {
    var scoped := Scoped(c.scope, items);
    && c.isActive
    && (c.startsAt.Some? ==> now >= c.startsAt.value)
    && (c.expiresAt.Some? ==> now <= c.expiresAt.value)
    && (c.scope.InCategory? ==> scoped != 0)
    && (c.minOrderValue.Some? ==> scoped >= c.minOrderValue.value)
    && (c.firstOrderOnly ==> priorOrders == 0)
    && (c.usageLimitPerUser.Some? ==> priorUses < c.usageLimitPerUser.value)
  }

  predicate Validates(coupons: seq<Coupon>, orders: seq<Order>, usages: seq<Usage>, found: Option<nat>, user: nat, items: seq<CartItem>, now: int): (b: bool)
    ensures b ==> found.Some? && found.value < |coupons|
  {
    && found.Some? && found.value < |coupons|
    && Usable(coupons[found.value], CountOrdersBy(orders, user), CountUsagesBy(usages, found.value, user), items, now)
  }

  predicate HasRoom(c: Coupon) {
    c.usageLimitTotal.Some? ==> c.usedCount < c.usageLimitTotal.value
  }

  // ---------------------------------------------------------------------------------------------
  // The transaction
  // ---------------------------------------------------------------------------------------------

  predicate AllCheckoutable(items: seq<CartItem>) {
    forall i :: 0 <= i < |items| ==> items[i].checkoutable
  }

  /** deleteMany by id: what is left of a cart. */
  function Without(items: seq<CartItem>, gone: seq<CartItem>): (r: seq<CartItem>)
    ensures forall x :: x in r <==> x in items && forall i :: 0 <= i < |gone| ==> gone[i].id != x.id
  {
    if items == [] then []
    else
      var last := items[|items| - 1];
      Without(items[..|items| - 1], gone) +
      (if exists i :: 0 <= i < |gone| && gone[i].id == last.id then [] else [last])
  }

  /** Everything a successful checkout writes; nobody sees any of it before the commit. */
  function Publish(db: Db, req: Request, tenant: nat, items: seq<CartItem>, coupon: Option<nat>, bill: Bill): Db
    requires req.user in db.carts && (coupon.Some? ==> coupon.value < |db.coupons|)
  {
    var id := |db.orders|;
    Db(db.carts[req.user := db.carts[req.user].(items := Without(db.carts[req.user].items, items))],
       db.keys[req.key := KeyRow(req.user, Some(id))],
       if coupon.None? then db.coupons
       else db.coupons[coupon.value := db.coupons[coupon.value].(usedCount := db.coupons[coupon.value].usedCount + 1)],
       if coupon.None? then db.usages else db.usages + [Usage(coupon.value, req.user, id, bill.discount)],
       db.orders + [Order(req.user, tenant, req.key, items, bill, coupon)])
  }

  /** A key that is already claimed answers for its order, to its own user only. */
  function Replay(row: KeyRow, user: nat): Option<Reply> {
    if row.user == user && row.order.Some? then Some(Reply(row.order.value, false)) else None
  }

  /** The whole transaction when nothing runs beside it. */
  function CheckoutAlone(db: Db, req: Request, w: World): TxResult<Db, Reply> {
    if req.user !in db.carts || !w.tenantActive then Rollback(Rejected)
    else if req.key in db.keys then
      match Replay(db.keys[req.key], req.user)
      case Some(reply) => Commit(db, reply)
      case None => Rollback(Rejected)
    else PlaceAlone(db, req, w)
  }

  function PlaceAlone(db: Db, req: Request, w: World): TxResult<Db, Reply>
    requires req.user in db.carts
  {
    var cart := db.carts[req.user];
    if cart.items == [] || !AllCheckoutable(cart.items) then Rollback(Rejected)
    else
      var coupon := if req.code.Some? then FindCoupon(db.coupons, req.code.value, cart.tenant, w.pick) else None;
      if req.code.Some? &&
        !(Validates(db.coupons, db.orders, db.usages, coupon, req.user, cart.items, w.now) && HasRoom(db.coupons[coupon.value]))
      then Rollback(Rejected)
      else BillAlone(db, req, cart, coupon, w)
  }

  function BillAlone(db: Db, req: Request, cart: Cart, coupon: Option<nat>, w: World): TxResult<Db, Reply>
    requires req.user in db.carts && (coupon.Some? ==> coupon.value < |db.coupons|)
  {
    var bill := MakeBill(cart.items, if coupon.Some? then Some(db.coupons[coupon.value]) else None, w);
    // TaxService.computeTax refuses a negative base; then the order quota is checked.
    if bill.subtotal - bill.discount < 0 || !w.withinPlan then Rollback(Rejected)
    else Commit(Publish(db, req, cart.tenant, cart.items, coupon, bill), Reply(|db.orders|, true))
  }

  // ---------------------------------------------------------------------------------------------
  // The same, in place
  // ---------------------------------------------------------------------------------------------

  method ScopedTotal(scope: Scope, items: seq<CartItem>) returns (total: int)
    ensures total == Scoped(scope, items)
  {
    total := 0;
    for i := 0 to |items|
      invariant total == Scoped(scope, items[..i])
    {
      assert items[..i + 1][..i] == items[..i];
      if InScope(scope, items[i]) {
        var line := PriceItem(items[i]);
        total := total + line;
      }
    }
    assert items[..|items|] == items;
  }

  method PriceItem(item: CartItem) returns (lineTotal: int)
    ensures lineTotal == LineTotal(item)
  {
    var variantDelta := if item.variantDelta.Some? then item.variantDelta.value else 0;
    var surcharge := 0;
    for i := 0 to |item.surcharges|
      invariant surcharge == Sum(item.surcharges[..i])
    {
      assert item.surcharges[..i + 1][..i] == item.surcharges[..i];
      surcharge := surcharge + item.surcharges[i];
    }
    assert item.surcharges[..|item.surcharges|] == item.surcharges;
    lineTotal := (item.base + variantDelta + surcharge) * item.quantity;
  }

  method AssertItemsCheckoutable(items: seq<CartItem>) returns (ok: bool)
    ensures ok == AllCheckoutable(items)
  {
    for i := 0 to |items|
      invariant forall k :: 0 <= k < i ==> items[k].checkoutable
    {
      if !items[i].checkoutable {
        return false;
      }
    }
    return true;
  }

  class CheckoutStore {
    var carts: map<nat, Cart>
    var keys: map<string, KeyRow>
    var coupons: seq<Coupon>
    var usages: seq<Usage>
    var orders: seq<Order>

    function Tables(): Db
      reads this
    {
      Db(carts, keys, coupons, usages, orders)
    }

    /** ROLLBACK. */
    method Restore(saved: Db)
      modifies this
      ensures Tables() == saved
    {
      carts, keys, coupons, usages, orders := saved.carts, saved.keys, saved.coupons, saved.usages, saved.orders;
    }

    /** IdempotencyService.claim: INSERT ... ON CONFLICT DO NOTHING. */
    method ClaimKey(key: string, user: nat) returns (claimed: bool)
      modifies this`keys
      ensures claimed == (key !in old(keys))
      ensures keys == if claimed then old(keys)[key := KeyRow(user, None)] else old(keys)
    {
      claimed := key !in keys;
      if claimed {
        keys := keys[key := KeyRow(user, None)];
      }
    }

    /** The checks and the compare-and-set of validateAndClaim. */
    method ValidateAndClaim(found: Option<nat>, user: nat, items: seq<CartItem>, now: int) returns (ok: bool)
      modifies this`coupons
      ensures ok == (Validates(old(coupons), orders, usages, found, user, items, now) && HasRoom(old(coupons)[found.value]))
      ensures !ok ==> coupons == old(coupons)
      ensures ok ==> coupons == old(coupons)[found.value := old(coupons)[found.value].(usedCount := old(coupons)[found.value].usedCount + 1)]
    {
      if found.None? || found.value >= |coupons| {
        return false;
      }
      var c := coupons[found.value];
      var scoped := ScopedTotal(c.scope, items);
      if !c.isActive || (c.startsAt.Some? && now < c.startsAt.value) || (c.expiresAt.Some? && now > c.expiresAt.value) {
        return false;
      }
      if c.scope.InCategory? && scoped == 0 {
        return false;
      }
      if c.minOrderValue.Some? && scoped < c.minOrderValue.value {
        return false;
      }
      if c.firstOrderOnly && CountOrdersBy(orders, user) > 0 {
        return false;
      }
      if c.usageLimitPerUser.Some? && CountUsagesBy(usages, found.value, user) >= c.usageLimitPerUser.value {
        return false;
      }
      if c.usageLimitTotal.Some? && c.usedCount >= c.usageLimitTotal.value {
        return false;
      }
      coupons := coupons[found.value := c.(usedCount := c.usedCount + 1)];
      return true;
    }

    /** The inserts and deletes after pricing: order, usage row, key result, cart. */
    method PlaceOrder(req: Request, tenant: nat, items: seq<CartItem>, coupon: Option<nat>, bill: Bill) returns (id: nat)
      requires req.user in carts
      modifies this`carts, this`keys, this`usages, this`orders
      ensures id == old(|orders|) && orders == old(orders) + [Order(req.user, tenant, req.key, items, bill, coupon)]
      ensures usages == if coupon.None? then old(usages) else old(usages) + [Usage(coupon.value, req.user, id, bill.discount)]
      ensures keys == old(keys)[req.key := KeyRow(req.user, Some(id))]
      ensures carts == old(carts)[req.user := old(carts)[req.user].(items := Without(old(carts)[req.user].items, items))]
    {
      id := |orders|;
      orders := orders + [Order(req.user, tenant, req.key, items, bill, coupon)];
      if coupon.Some? {
        usages := usages + [Usage(coupon.value, req.user, id, bill.discount)];
      }
      keys := keys[req.key := KeyRow(req.user, Some(id))];
      var cart := carts[req.user];
      carts := carts[req.user := cart.(items := Without(cart.items, items))];
    }

    method Checkout(req: Request, w: World) returns (r: Attempted<Reply>)
      modifies this
      ensures Executes(CheckoutAlone(old(Tables()), req, w), old(Tables()), Tables(), r)
    {
      hide Validates, HasRoom, AllCheckoutable, MakeBill, Without, Scoped;
      var saved := Tables();
      if req.user !in carts || !w.tenantActive {
        return Throw(Rejected);
      }
      var claimed := ClaimKey(req.key, req.user);
      if !claimed {
        var raced := Replay(keys[req.key], req.user);
        return if raced.Some? then Done(raced.value) else Throw(Rejected);
      }
      var cart := carts[req.user];
      var checkoutable := AssertItemsCheckoutable(cart.items);
      if cart.items == [] || !checkoutable {
        Restore(saved);
        return Throw(Rejected);
      }
      var coupon: Option<nat> := None;
      var terms: Option<Coupon> := None;
      if req.code.Some? {
        coupon := FindCoupon(coupons, req.code.value, cart.tenant, w.pick);
        var ok := ValidateAndClaim(coupon, req.user, cart.items, w.now);
        if !ok {
          Restore(saved);
          return Throw(Rejected);
        }
        terms := Some(saved.coupons[coupon.value]);
      }
      var bill := MakeBill(cart.items, terms, w);
      if bill.subtotal - bill.discount < 0 || !w.withinPlan {
        Restore(saved);
        return Throw(Rejected);
      }
      var id := PlaceOrder(req, cart.tenant, cart.items, coupon, bill);
      assert keys == saved.keys[req.key := KeyRow(req.user, Some(id))];
      return Done(Reply(id, true));
    }
  }
}
