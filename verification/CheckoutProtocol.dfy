/**
 * Any number of checkouts at once, interleaved statement by statement. A transaction's own writes
 * become visible at its commit; until then it only holds locks: the row of its cart, its
 * idempotency key, and the coupon row it has incremented.
 */
module CheckoutProtocol {
  import opened Prelude
  import opened Checkout

  /** Where a checkout is, with its local variables. From Locked to Billed it is inside the
      transaction and holds the cart row. */
  datatype Call =
    | Begun(req: Request)
    | Opened(req: Request)
    | Locked(req: Request, tenant: nat)
    | Claimed(req: Request, tenant: nat)
    | CartRead(req: Request, tenant: nat, items: seq<CartItem>)
    | Validated(req: Request, tenant: nat, items: seq<CartItem>, found: nat, terms: Coupon)
    | Billed(req: Request, tenant: nat, items: seq<CartItem>, coupon: Option<nat>, bill: Bill)
    | Replied(req: Request, reply: Reply)
    | Refused(req: Request)

  /** `owners` records which user's cart each cart item was ever in. */
  datatype Sys = Sys(db: Db, calls: map<nat, Call>, owners: map<nat, nat>)

  datatype Move =
    | OpenCart(user: nat, tenant: nat)
    | EditCart(editor: nat, items: seq<CartItem>)
    | AddCoupon(coupon: Coupon)
    | EditCoupon(id: nat, edited: Coupon)
    | Begin(cid: nat, req: Request)
    | Advance(cid: nat, world: World)
    | Abort(cid: nat)

  // ---------------------------------------------------------------------------------------------
  // Locks
  // ---------------------------------------------------------------------------------------------

  predicate HoldsCart(call: Call, user: nat) {
    (call.Locked? || HoldsSomeKey(call)) && call.req.user == user
  }

  predicate HoldsSomeKey(call: Call) {
    call.Claimed? || HasItems(call)
  }

  predicate HoldsKey(call: Call, key: string) {
    HoldsSomeKey(call) && call.req.key == key
  }

  predicate HasItems(call: Call) {
    call.CartRead? || call.Validated? || call.Billed?
  }

  predicate HoldsCoupon(call: Call, id: nat) {
    call.Billed? && call.coupon == Some(id)
  }

  /** The statement a call is about to run waits for a lock another call holds: the cart row (FOR
      UPDATE), the key (a concurrent INSERT of it), or the coupon row (a concurrent UPDATE). */
  predicate Waits(calls: map<nat, Call>, cid: nat)
    requires cid in calls
  {
    exists d :: d in calls && d != cid &&
      ((calls[cid].Opened? && HoldsCart(calls[d], calls[cid].req.user)) ||
       (calls[cid].Locked? && HoldsKey(calls[d], calls[cid].req.key)) ||
       (calls[cid].Validated? && HoldsCoupon(calls[d], calls[cid].found)))
  }

  // ---------------------------------------------------------------------------------------------
  // Steps
  // ---------------------------------------------------------------------------------------------

  /** The rows a call refers to exist. */
  predicate CallFits(db: Db, call: Call) {
    && (call.Locked? || HoldsSomeKey(call) ==> call.req.user in db.carts)
    && (call.Validated? ==> call.found < |db.coupons|)
    && (call.Billed? && call.coupon.Some? ==> call.coupon.value < |db.coupons|)
  }

  function Answer(db: Db, req: Request): Call
    requires req.key in db.keys
  {
    match Replay(db.keys[req.key], req.user)
    case Some(reply) => Replied(req, reply)
    case None => Refused(req)
  }

  function ToBill(call: Call, coupon: Option<nat>, bill: Bill): Call
    requires HasItems(call)
  {
    if bill.subtotal - bill.discount < 0 then Refused(call.req)
    else Billed(call.req, call.tenant, call.items, coupon, bill)
  }

  /** A statement that changes nothing anybody else can see. */
  function NextCall(db: Db, call: Call, w: World): Call
    requires CallFits(db, call)
  {
    match call
    case Begun(req) => if req.key in db.keys then Answer(db, req) else Opened(req)
    case Opened(req) =>
      if req.user !in db.carts || !w.tenantActive then Refused(req) else Locked(req, db.carts[req.user].tenant)
    case Locked(req, tenant) => if req.key in db.keys then Answer(db, req) else Claimed(req, tenant)
    case Claimed(req, tenant) =>
      var items := db.carts[req.user].items;
      if items == [] || !AllCheckoutable(items) then Refused(req) else CartRead(req, tenant, items)
    case CartRead(req, tenant, items) =>
      if req.code.None? then ToBill(call, None, MakeBill(items, None, w))
      else
        var found := FindCoupon(db.coupons, req.code.value, tenant, w.pick);
        if Validates(db.coupons, db.orders, db.usages, found, req.user, items, w.now)
        then Validated(req, tenant, items, found.value, db.coupons[found.value]) else Refused(req)
    case Validated(req, tenant, items, found, terms) =>
      if HasRoom(db.coupons[found]) then ToBill(call, Some(found), MakeBill(items, Some(terms), w)) else Refused(req)
    case Billed(req, _, _, _, _) => if w.withinPlan then Replied(req, Reply(|db.orders|, true)) else Refused(req)
    case _ => call
  }

  predicate Commits(call: Call, w: World) {
    call.Billed? && w.withinPlan
  }

  function AdvanceDb(db: Db, call: Call, w: World): Db
    requires CallFits(db, call)
  {
    if Commits(call, w) then Committed(db, call) else db
  }

  function Committed(db: Db, call: Call): Db
    requires CallFits(db, call) && call.Billed?
  {
    Publish(db, call.req, call.tenant, call.items, call.coupon, call.bill)
  }

  /** Adding, changing and removing items of one's own cart: ids are never reused. */
  predicate EditAllowed(s: Sys, user: nat, items: seq<CartItem>) {
    && user in s.db.carts && DistinctIds(items)
    && forall id :: id in Ids(items) ==> id in Ids(s.db.carts[user].items) || id !in s.owners
  }

  /** An administrator may change anything about a coupon but its limits. */
  predicate SameLimits(a: Coupon, b: Coupon) {
    && a.usedCount == b.usedCount && a.usageLimitTotal == b.usageLimitTotal
    && a.usageLimitPerUser == b.usageLimitPerUser && a.firstOrderOnly == b.firstOrderOnly
  }

  function EditCartTables(s: Sys, user: nat, items: seq<CartItem>): Sys
    requires user in s.db.carts
  {
    s.(db := s.db.(carts := s.db.carts[user := s.db.carts[user].(items := items)]),
       owners := s.owners + map id | id in Ids(items) :: user)
  }

  function Step(s: Sys, m: Move): Sys
    requires Inv(s)
  {
    match m
    case OpenCart(user, tenant) =>
      if user in s.db.carts then s else s.(db := s.db.(carts := s.db.carts[user := Cart(tenant, [])]))
    case EditCart(user, items) => if EditAllowed(s, user, items) then EditCartTables(s, user, items) else s
    case AddCoupon(c) => s.(db := s.db.(coupons := s.db.coupons + [c.(usedCount := 0)]))
    case EditCoupon(id, c) =>
      if id < |s.db.coupons| && SameLimits(s.db.coupons[id], c) then s.(db := s.db.(coupons := s.db.coupons[id := c])) else s
    case Begin(cid, req) => if cid in s.calls then s else s.(calls := s.calls[cid := Begun(req)])
    case Abort(cid) =>
      if cid !in s.calls || s.calls[cid].Replied? then s else s.(calls := s.calls[cid := Refused(s.calls[cid].req)])
    case Advance(cid, w) => if cid !in s.calls || Waits(s.calls, cid) then s else Proceed(s, cid, w)
  }

  function Proceed(s: Sys, cid: nat, w: World): Sys
    requires cid in s.calls && CallFits(s.db, s.calls[cid])
  {
    s.(db := AdvanceDb(s.db, s.calls[cid], w), calls := s.calls[cid := NextCall(s.db, s.calls[cid], w)])
  }

  const INIT := Sys(Db(map[], map[], [], [], []), map[], map[])

  // ---------------------------------------------------------------------------------------------
  // The invariant
  // ---------------------------------------------------------------------------------------------

  function Ids(items: seq<CartItem>): set<nat> {
    set i | 0 <= i < |items| :: items[i].id
  }

  predicate DistinctIds(items: seq<CartItem>) {
    forall i, j :: 0 <= i < j < |items| ==> items[i].id != items[j].id
  }

  /** The cart items that have become order lines. */
  function Sold(orders: seq<Order>): set<nat> {
    if orders == [] then {} else Sold(orders[..|orders| - 1]) + Ids(orders[|orders| - 1].items)
  }

  /** These items are one user's, and none of them was ever ordered. */
  ghost predicate Unsold(db: Db, owners: map<nat, nat>, user: nat, items: seq<CartItem>) {
    && DistinctIds(items) && Ids(items) !! Sold(db.orders)
    && forall id :: id in Ids(items) ==> id in owners && owners[id] == user
  }

  ghost predicate CartsOk(db: Db, owners: map<nat, nat>) {
    && (forall u :: u in db.carts ==> Unsold(db, owners, u, db.carts[u].items))
    && (forall id :: id in Sold(db.orders) ==> id in owners)
  }

  /** An order against the orders before it. */
  ghost predicate OrderOk(db: Db, owners: map<nat, nat>, o: nat)
    requires o < |db.orders|
  {
    var order := db.orders[o];
    && DistinctIds(order.items) && Ids(order.items) !! Sold(db.orders[..o])
    && (forall id :: id in Ids(order.items) ==> id in owners && owners[id] == order.user)
    && (order.coupon.Some? ==>
          order.coupon.value < |db.coupons| &&
          (db.coupons[order.coupon.value].firstOrderOnly ==> CountOrdersBy(db.orders[..o], order.user) == 0))
    && order.key in db.keys && db.keys[order.key] == KeyRow(order.user, Some(o))
  }

  ghost predicate KeysOk(db: Db) {
    forall k :: k in db.keys ==>
      db.keys[k].order.Some? && db.keys[k].order.value < |db.orders| &&
      db.orders[db.keys[k].order.value].key == k && db.orders[db.keys[k].order.value].user == db.keys[k].user
  }

  ghost predicate CouponOk(db: Db, c: nat)
    requires c < |db.coupons|
  {
    var coupon := db.coupons[c];
    && coupon.usedCount == CountUsages(db.usages, c) == CountOrdersWith(db.orders, c)
    && (coupon.usedCount > 0 && coupon.usageLimitTotal.Some? ==> coupon.usedCount <= coupon.usageLimitTotal.value)
    && (forall u: nat :: coupon.usageLimitPerUser.Some? && CountUsagesBy(db.usages, c, u) > 0 ==>
          CountUsagesBy(db.usages, c, u) <= coupon.usageLimitPerUser.value)
  }

  /** A usage row records an order that really carries its coupon. */
  ghost predicate UsagesOk(db: Db) {
    forall i :: 0 <= i < |db.usages| ==>
      var u := db.usages[i];
      u.coupon < |db.coupons| && u.order < |db.orders| && db.orders[u.order].coupon == Some(u.coupon) &&
      db.orders[u.order].user == u.user && db.orders[u.order].bill.discount == u.discount
  }

  ghost predicate TablesOk(db: Db, owners: map<nat, nat>) {
    && CartsOk(db, owners) && KeysOk(db) && UsagesOk(db)
    && (forall o :: 0 <= o < |db.orders| ==> OrderOk(db, owners, o))
    && (forall c :: 0 <= c < |db.coupons| ==> CouponOk(db, c))
  }

  /** The user-bound limits of the coupon still let this user use it once more. */
  ghost predicate Entitled(db: Db, id: nat, user: nat)
    requires id < |db.coupons|
  {
    && (db.coupons[id].firstOrderOnly ==> CountOrdersBy(db.orders, user) == 0)
    && (db.coupons[id].usageLimitPerUser.Some? ==> CountUsagesBy(db.usages, id, user) < db.coupons[id].usageLimitPerUser.value)
  }

  ghost predicate CallOk(db: Db, owners: map<nat, nat>, call: Call) {
    && CallFits(db, call)
    && (HoldsSomeKey(call) ==> call.req.key !in db.keys)
    && (HasItems(call) ==> Unsold(db, owners, call.req.user, call.items))
    && (call.Validated? ==> Entitled(db, call.found, call.req.user))
    && (call.Billed? && call.coupon.Some? ==> Entitled(db, call.coupon.value, call.req.user) && HasRoom(db.coupons[call.coupon.value]))
    && (call.Replied? ==> call.req.key in db.keys && db.keys[call.req.key] == KeyRow(call.req.user, Some(call.reply.order)))
  }

  /** Two calls never hold the same lock, and never both created the same order. */
  ghost predicate Apart(a: Call, b: Call) {
    && (forall u :: !(HoldsCart(a, u) && HoldsCart(b, u)))
    && (forall k :: !(HoldsKey(a, k) && HoldsKey(b, k)))
    && (forall c :: !(HoldsCoupon(a, c) && HoldsCoupon(b, c)))
    && (a.Replied? && b.Replied? && a.reply.created && b.reply.created ==> a.reply.order != b.reply.order)
  }

  ghost predicate Inv(s: Sys) {
    && TablesOk(s.db, s.owners)
    && (forall c :: c in s.calls ==> CallOk(s.db, s.owners, s.calls[c]))
    && (forall c, d :: c in s.calls && d in s.calls && c != d ==> Apart(s.calls[c], s.calls[d]))
  }

  // ---------------------------------------------------------------------------------------------
  // Counting and appending
  // ---------------------------------------------------------------------------------------------

  lemma Append(db: Db, order: Order)
    ensures Sold(db.orders + [order]) == Sold(db.orders) + Ids(order.items)
    ensures forall u :: CountOrdersBy(db.orders + [order], u) == CountOrdersBy(db.orders, u) + (if order.user == u then 1 else 0)
    ensures forall c: nat :: CountOrdersWith(db.orders + [order], c) == CountOrdersWith(db.orders, c) + (if order.coupon == Some(c) then 1 else 0)
  {
    assert (db.orders + [order])[..|db.orders|] == db.orders;
  }

  lemma AppendUsage(usages: seq<Usage>, u: Usage)
    ensures forall c :: CountUsages(usages + [u], c) == CountUsages(usages, c) + (if u.coupon == c then 1 else 0)
    ensures forall c, v ::
      CountUsagesBy(usages + [u], c, v) == CountUsagesBy(usages, c, v) + (if u.coupon == c && u.user == v then 1 else 0)
  {
    assert (usages + [u])[..|usages|] == usages;
  }

  lemma {:induction false} CountsOfNobody(db: Db, c: nat)
    requires forall i :: 0 <= i < |db.usages| ==> db.usages[i].coupon < c
    requires forall i :: 0 <= i < |db.orders| && db.orders[i].coupon.Some? ==> db.orders[i].coupon.value < c
    ensures CountUsages(db.usages, c) == 0 && CountOrdersWith(db.orders, c) == 0
    ensures forall u :: CountUsagesBy(db.usages, c, u) == 0
    decreases |db.usages| + |db.orders|
  {
    if |db.usages| > 0 {
      CountsOfNobody(db.(usages := db.usages[..|db.usages| - 1]), c);
    } else if |db.orders| > 0 {
      CountsOfNobody(db.(orders := db.orders[..|db.orders| - 1]), c);
    }
  }

  // ---------------------------------------------------------------------------------------------
  // A commit
  // ---------------------------------------------------------------------------------------------

  lemma CommitCarts(db: Db, owners: map<nat, nat>, call: Call)
    requires TablesOk(db, owners) && CallOk(db, owners, call) && call.Billed?
    ensures CartsOk(Committed(db, call), owners)
  {
    hide KeysOk, OrderOk, CouponOk, UsagesOk, Entitled, HasRoom;
    var db' := Committed(db, call);
    Append(db, db'.orders[|db.orders|]);
    forall u | u in db'.carts
      ensures Unsold(db', owners, u, db'.carts[u].items)
    {
      assert Unsold(db, owners, u, db.carts[u].items);
      if u == call.req.user {
        WithoutIds(db.carts[u].items, call.items);
      }
    }
  }

  lemma {:induction false} WithoutIds(items: seq<CartItem>, gone: seq<CartItem>)
    requires DistinctIds(items)
    ensures DistinctIds(Without(items, gone)) && Ids(Without(items, gone)) <= Ids(items)
    ensures Ids(Without(items, gone)) !! Ids(gone)
  {
    if items != [] {
      WithoutIds(items[..|items| - 1], gone);
      var rest := Without(items[..|items| - 1], gone);
      assert forall i :: 0 <= i < |rest| ==> rest[i] in rest;
    }
    var left := Without(items, gone);
    assert forall i :: 0 <= i < |left| ==> left[i] in left;
  }

  lemma CommitKeys(db: Db, owners: map<nat, nat>, call: Call)
    requires TablesOk(db, owners) && CallOk(db, owners, call) && call.Billed?
    ensures KeysOk(Committed(db, call)) && UsagesOk(Committed(db, call))
  {
    hide CartsOk, OrderOk, CouponOk, Entitled, HasRoom, Unsold, Without, KeysOk;
    CommitKeyRows(db, owners, call);
  }

  lemma CommitKeyRows(db: Db, owners: map<nat, nat>, call: Call)
    requires TablesOk(db, owners) && CallOk(db, owners, call) && call.Billed?
    ensures KeysOk(Committed(db, call))
  {
    hide CartsOk, OrderOk, CouponOk, Entitled, HasRoom, Unsold, Without, UsagesOk;
  }

  lemma CommitOrders(db: Db, owners: map<nat, nat>, call: Call)
    requires TablesOk(db, owners) && CallOk(db, owners, call) && call.Billed?
    ensures forall o :: 0 <= o <= |db.orders| ==> OrderOk(Committed(db, call), owners, o)
  {
    hide CartsOk, CouponOk, HasRoom, Without, KeysOk, UsagesOk;
    var db' := Committed(db, call);
    forall o | 0 <= o <= |db.orders|
      ensures OrderOk(db', owners, o)
    {
      if o < |db.orders| {
        assert OrderOk(db, owners, o);
        assert db'.orders[..o] == db.orders[..o];
      } else {
        assert db'.orders[..o] == db.orders;
      }
    }
  }

  lemma CommitCoupons(db: Db, owners: map<nat, nat>, call: Call)
    requires TablesOk(db, owners) && CallOk(db, owners, call) && call.Billed?
    ensures forall c :: 0 <= c < |db.coupons| ==> CouponOk(Committed(db, call), c)
  {
    hide CartsOk, OrderOk, Without, KeysOk, UsagesOk, Unsold;
    var db' := Committed(db, call);
    Append(db, db'.orders[|db.orders|]);
    if call.coupon.Some? {
      AppendUsage(db.usages, db'.usages[|db.usages|]);
    }
    forall c | 0 <= c < |db.coupons|
      ensures CouponOk(db', c)
    {
      assert CouponOk(db, c);
    }
  }

  lemma CommitOk(db: Db, owners: map<nat, nat>, call: Call)
    requires TablesOk(db, owners) && CallOk(db, owners, call) && call.Billed?
    ensures TablesOk(Committed(db, call), owners)
  {
    CommitCarts(db, owners, call);
    CommitKeys(db, owners, call);
    CommitOrders(db, owners, call);
    CommitCoupons(db, owners, call);
    hide CartsOk, KeysOk, UsagesOk, OrderOk, CouponOk, CallOk, Without;
  }

  /** The cart lock: a commit sells only its own user's items and adds to its own user's counts. */
  lemma CommitSparesItems(db: Db, owners: map<nat, nat>, call: Call, user: nat, items: seq<CartItem>)
    requires CallOk(db, owners, call) && call.Billed? && call.req.user != user && Unsold(db, owners, user, items)
    ensures Unsold(Committed(db, call), owners, user, items)
  {
    hide Without, Entitled, HasRoom, KeysOk;
    Append(db, Committed(db, call).orders[|db.orders|]);
    assert forall id :: id in Ids(items) && id in Ids(call.items) ==> owners[id] == user;
  }

  lemma CommitSparesUser(db: Db, owners: map<nat, nat>, call: Call, id: nat, user: nat)
    requires CallOk(db, owners, call) && call.Billed? && call.req.user != user && id < |db.coupons| && Entitled(db, id, user)
    ensures Entitled(Committed(db, call), id, user)
  {
    hide Without, Unsold, HasRoom, KeysOk;
    var db' := Committed(db, call);
    Append(db, db'.orders[|db.orders|]);
    if call.coupon.Some? {
      AppendUsage(db.usages, db'.usages[|db.usages|]);
    }
  }

  /** The locks are what keeps everybody else's beliefs true across a commit. */
  lemma CommitSpares(db: Db, owners: map<nat, nat>, call: Call, other: Call)
    requires CallOk(db, owners, call) && CallOk(db, owners, other) && call.Billed? && Apart(call, other)
    ensures CallOk(Committed(db, call), owners, other)
  {
    hide Without, Unsold, Entitled;
    assert HoldsCart(call, call.req.user) && HoldsKey(call, call.req.key);
    assert call.coupon.Some? ==> HoldsCoupon(call, call.coupon.value);
    if HasItems(other) {
      assert HoldsCart(other, other.req.user);
      CommitSparesItems(db, owners, call, other.req.user, other.items);
      if other.Validated? {
        CommitSparesUser(db, owners, call, other.found, other.req.user);
      } else if other.Billed? && other.coupon.Some? {
        CommitSparesUser(db, owners, call, other.coupon.value, other.req.user);
      }
    }
  }

  // ---------------------------------------------------------------------------------------------
  // The other steps
  // ---------------------------------------------------------------------------------------------

  lemma NextOk(db: Db, owners: map<nat, nat>, call: Call, w: World)
    requires TablesOk(db, owners) && CallOk(db, owners, call)
    ensures CallOk(AdvanceDb(db, call, w), owners, NextCall(db, call, w))
  {
    hide OrderOk, CouponOk, UsagesOk, MakeBill, FindCoupon, Without, AllCheckoutable;
  }

  /** A statement takes at most the lock it would have waited for. */
  lemma NextHolds(db: Db, call: Call, w: World)
    requires CallFits(db, call)
    ensures
      var next := NextCall(db, call, w);
      && (forall u :: HoldsCart(next, u) ==> HoldsCart(call, u) || (call.Opened? && u == call.req.user))
      && (forall k :: HoldsKey(next, k) ==> HoldsKey(call, k) || (call.Locked? && k == call.req.key))
      && (forall c :: HoldsCoupon(next, c) ==> call.Validated? && c == call.found)
      && (next.Replied? && next.reply.created && !call.Replied? ==> next.reply.order == |db.orders|)
      && (call.Replied? ==> next == call)
  {
    hide MakeBill, FindCoupon, Validates, AllCheckoutable, HasRoom;
  }

  lemma NextApart(s: Sys, cid: nat, w: World, d: nat)
    requires Inv(s) && cid in s.calls && !Waits(s.calls, cid) && d in s.calls && d != cid
    ensures Apart(NextCall(s.db, s.calls[cid], w), s.calls[d])
  {
    hide TablesOk, NextCall, CallOk, HoldsCart, HoldsKey, HoldsCoupon;
    var a, b := s.calls[cid], s.calls[d];
    assert Apart(a, b);
    CallsFit(s, cid);
    NextHolds(s.db, a, w);
    if b.Replied? {
      RepliesExist(s, d);
    }
  }

  lemma CallsFit(s: Sys, cid: nat)
    requires Inv(s) && cid in s.calls
    ensures CallFits(s.db, s.calls[cid])
  {
    hide TablesOk, Apart, CallFits;
    assert CallOk(s.db, s.owners, s.calls[cid]);
  }

  /** An order somebody was told about exists. */
  lemma RepliesExist(s: Sys, d: nat)
    requires Inv(s) && d in s.calls && s.calls[d].Replied?
    ensures s.calls[d].reply.order < |s.db.orders|
  {
    assert CallOk(s.db, s.owners, s.calls[d]);
  }

  lemma ProceedInv(s: Sys, cid: nat, w: World)
    requires Inv(s) && cid in s.calls && !Waits(s.calls, cid)
    ensures Inv(Proceed(s, cid, w))
  {
    hide TablesOk, CallOk, Apart, NextCall, CallFits, Committed;
    var call := s.calls[cid];
    CallsFit(s, cid);
    if Commits(call, w) {
      CommitOk(s.db, s.owners, call);
    }
    NextOk(s.db, s.owners, call, w);
    forall d | d in s.calls && d != cid
      ensures CallOk(AdvanceDb(s.db, call, w), s.owners, s.calls[d])
      ensures Apart(NextCall(s.db, call, w), s.calls[d])
    {
      if Commits(call, w) {
        CommitSpares(s.db, s.owners, call, s.calls[d]);
      }
      NextApart(s, cid, w, d);
    }
    ApartIsSymmetric();
  }

  lemma ApartIsSymmetric()
    ensures forall a, b :: Apart(a, b) ==> Apart(b, a)
  {
  }

  lemma OpenCartInv(s: Sys, user: nat, tenant: nat)
    requires Inv(s) && user !in s.db.carts
    ensures Inv(s.(db := s.db.(carts := s.db.carts[user := Cart(tenant, [])])))
  {
    hide Apart, CouponOk, UsagesOk, KeysOk, OrderOk, Entitled, HasRoom;
    CartsOnly(s, s.db.carts[user := Cart(tenant, [])]);
  }

  /** Tables that do not mention carts are not affected by a change of them. */
  lemma CartsOnly(s: Sys, carts: map<nat, Cart>)
    requires Inv(s)
    requires forall u :: u in s.db.carts ==> u in carts
    requires forall u :: u in carts ==> Unsold(s.db, s.owners, u, carts[u].items)
    ensures Inv(s.(db := s.db.(carts := carts)))
  {
    var db' := s.db.(carts := carts);
    forall o | 0 <= o < |s.db.orders|
      ensures OrderOk(db', s.owners, o)
    {
      assert OrderOk(s.db, s.owners, o);
    }
    forall c | 0 <= c < |s.db.coupons|
      ensures CouponOk(db', c)
    {
      assert CouponOk(s.db, c);
    }
    forall c | c in s.calls
      ensures CallOk(db', s.owners, s.calls[c])
    {
      assert CallOk(s.db, s.owners, s.calls[c]);
    }
    hide Apart, CallOk, CouponOk, OrderOk;
  }

  lemma EditCartInv(s: Sys, user: nat, items: seq<CartItem>)
    requires Inv(s) && EditAllowed(s, user, items)
    ensures Inv(EditCartTables(s, user, items))
  {
    var s1 := s.(owners := s.owners + map id | id in Ids(items) :: user);
    assert Unsold(s.db, s.owners, user, s.db.carts[user].items);
    MoreOwners(s, s1.owners);
    forall u | u in s.db.carts
      ensures Unsold(s.db, s1.owners, u, s.db.carts[u].items)
    {
      assert Unsold(s.db, s.owners, u, s.db.carts[u].items);
    }
    assert Unsold(s.db, s1.owners, user, items);
    hide Unsold, TablesOk, CallOk, Apart, EditAllowed;
    CartsOnly(s1, s.db.carts[user := s.db.carts[user].(items := items)]);
  }

  lemma MoreOwners(s: Sys, owners: map<nat, nat>)
    requires Inv(s)
    requires forall id :: id in s.owners ==> id in owners && owners[id] == s.owners[id]
    ensures Inv(s.(owners := owners))
  {
    forall o | 0 <= o < |s.db.orders|
      ensures OrderOk(s.db, owners, o)
    {
      assert OrderOk(s.db, s.owners, o);
    }
    forall c | c in s.calls
      ensures CallOk(s.db, owners, s.calls[c])
    {
      assert CallOk(s.db, s.owners, s.calls[c]);
    }
    assert CartsOk(s.db, owners);
    hide Apart, CallOk, OrderOk, CouponOk, CartsOk, KeysOk, UsagesOk;
  }

  /** Limits stay, and new coupons start unused. */
  ghost predicate LimitsKept(a: seq<Coupon>, b: seq<Coupon>) {
    && |a| <= |b|
    && (forall c :: 0 <= c < |a| ==> SameLimits(a[c], b[c]))
    && (forall c :: |a| <= c < |b| ==> b[c].usedCount == 0)
  }

  lemma CouponsOnlyRest(db: Db, owners: map<nat, nat>, coupons: seq<Coupon>)
    requires TablesOk(db, owners) && LimitsKept(db.coupons, coupons)
    ensures
      var db' := db.(coupons := coupons);
      && CartsOk(db', owners) && KeysOk(db') && UsagesOk(db')
      && forall o :: 0 <= o < |db.orders| ==>
           OrderOk(db', owners, o) && (db.orders[o].coupon.Some? ==> db.orders[o].coupon.value < |db.coupons|)
  {
    hide CouponOk;
    var db' := db.(coupons := coupons);
    forall o | 0 <= o < |db.orders|
      ensures OrderOk(db', owners, o) && (db.orders[o].coupon.Some? ==> db.orders[o].coupon.value < |db.coupons|)
    {
      assert OrderOk(db, owners, o);
    }
  }

  lemma CouponsOnlyTables(db: Db, owners: map<nat, nat>, coupons: seq<Coupon>)
    requires TablesOk(db, owners) && LimitsKept(db.coupons, coupons)
    ensures TablesOk(db.(coupons := coupons), owners)
  {
    hide CartsOk, KeysOk, OrderOk;
    var db' := db.(coupons := coupons);
    CouponsOnlyRest(db, owners, coupons);
    forall c | 0 <= c < |coupons|
      ensures CouponOk(db', c)
    {
      if c < |db.coupons| {
        assert CouponOk(db, c);
      } else {
        CountsOfNobody(db', c);
      }
    }
  }

  lemma CouponsOnlyCall(db: Db, owners: map<nat, nat>, coupons: seq<Coupon>, call: Call)
    requires CallOk(db, owners, call) && LimitsKept(db.coupons, coupons)
    ensures CallOk(db.(coupons := coupons), owners, call)
  {
    hide Sold;
  }

  /** Neither a new coupon nor an edited one touches the ledgers. */
  lemma CouponsOnly(s: Sys, coupons: seq<Coupon>)
    requires Inv(s) && LimitsKept(s.db.coupons, coupons)
    ensures Inv(s.(db := s.db.(coupons := coupons)))
  {
    CouponsOnlyTables(s.db, s.owners, coupons);
    forall c | c in s.calls
      ensures CallOk(s.db.(coupons := coupons), s.owners, s.calls[c])
    {
      CouponsOnlyCall(s.db, s.owners, coupons, s.calls[c]);
    }
    hide Apart, CallOk, TablesOk, LimitsKept;
  }

  lemma AbortInv(s: Sys, cid: nat)
    requires Inv(s) && cid in s.calls && !s.calls[cid].Replied?
    ensures Inv(s.(calls := s.calls[cid := Refused(s.calls[cid].req)]))
  {
    hide TablesOk, Entitled, Unsold, HasRoom;
  }

  lemma StepInv(s: Sys, m: Move)
    requires Inv(s)
    ensures Inv(Step(s, m))
  {
    hide Inv, Proceed, EditAllowed;
    match m {
      case OpenCart(user, tenant) =>
        if user !in s.db.carts {
          OpenCartInv(s, user, tenant);
        }
      case EditCart(user, items) =>
        if EditAllowed(s, user, items) {
          EditCartInv(s, user, items);
        }
      case AddCoupon(c) => CouponsOnly(s, s.db.coupons + [c.(usedCount := 0)]);
      case EditCoupon(id, c) =>
        if id < |s.db.coupons| && SameLimits(s.db.coupons[id], c) {
          CouponsOnly(s, s.db.coupons[id := c]);
        }
      case Begin(cid, req) => BeginInv(s, cid, req);
      case Abort(cid) =>
        if cid in s.calls && !s.calls[cid].Replied? {
          AbortInv(s, cid);
        }
      case Advance(cid, w) =>
        if cid in s.calls && !Waits(s.calls, cid) {
          ProceedInv(s, cid, w);
        }
    }
  }

  lemma BeginInv(s: Sys, cid: nat, req: Request)
    requires Inv(s)
    ensures Inv(Step(s, Begin(cid, req)))
  {
    hide TablesOk, Entitled, Unsold, HasRoom;
  }

  function Run(s: Sys, moves: seq<Move>): (s': Sys)
    requires Inv(s)
    ensures Inv(s')
    decreases |moves|
  {
    if moves == [] then s else StepInv(s, moves[0]); Run(Step(s, moves[0]), moves[1..])
  }

  // ---------------------------------------------------------------------------------------------
  // What is never taken back
  // ---------------------------------------------------------------------------------------------

  ghost predicate Grows(s: Sys, s': Sys) {
    && s.db.orders <= s'.db.orders && s.db.usages <= s'.db.usages
    && (forall k :: k in s.db.keys ==> k in s'.db.keys && s'.db.keys[k] == s.db.keys[k])
    && (forall c :: c in s.calls && s.calls[c].Replied? ==> c in s'.calls && s'.calls[c] == s.calls[c])
  }

  lemma StepGrows(s: Sys, m: Move)
    requires Inv(s)
    ensures Grows(s, Step(s, m))
  {
    hide TablesOk, Entitled, Unsold, HasRoom, Apart, MakeBill, FindCoupon, Validates, AllCheckoutable, Without, Waits;
    if m.Advance? && m.cid in s.calls {
      assert CallOk(s.db, s.owners, s.calls[m.cid]);
    }
  }

  lemma {:induction false} RunGrows(s: Sys, moves: seq<Move>)
    requires Inv(s)
    ensures Grows(s, Run(s, moves))
    decreases |moves|
  {
    if moves != [] {
      StepInv(s, moves[0]);
      StepGrows(s, moves[0]);
      RunGrows(Step(s, moves[0]), moves[1..]);
    }
    hide Inv;
  }
}
