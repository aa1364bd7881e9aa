/**
 * What the two scripts leave in every tenantId, storeId and customerId, table by table: the row's own
 * value where it had one, else the value of the parent, of the user's customer, or the constant.
 */
module BackfillOutcomes {
  import opened Prelude
  import opened Backfill
  import opened BackfillScripts

  // ---------------------------------------------------------------------------------------------
  // What a column can end as
  // ---------------------------------------------------------------------------------------------

  ghost predicate Holds(row: Row, c: Column, v: Option<nat>) {
    match v
    case Some(x) => c in row.columns && row.columns[c] == x
    case None => c !in row.columns
  }

  ghost predicate SameIds(before: Db, after: Db, t: Table) {
    (t in before <==> t in after) && (t in before ==> before[t].Keys == after[t].Keys)
  }

  /** The column of this row is as it was. */
  ghost predicate Kept(before: Row, after: Row, c: Column) {
    if c in before.columns then Holds(after, c, Some(before.columns[c])) else Holds(after, c, None)
  }

  ghost predicate AllKept(before: Db, after: Db, t: Table, c: Column) {
    SameIds(before, after, t) && (t in before ==> forall id :: id in before[t] ==> Kept(before[t][id], after[t][id], c))
  }

  /** Rows that had none have the customer of their user, if the user has one. */
  ghost predicate CustomersOfUsers(before: Db, after: Db, t: Table, customers: map<nat, nat>) {
    SameIds(before, after, t) && (t in before ==> forall id :: id in before[t] ==>
      var row := before[t][id];
      if Customer in row.columns then Kept(row, after[t][id], Customer)
      else Holds(after[t][id], Customer, match row.user case Some(u) => (if u in customers then Some(customers[u]) else None) case None => None))
  }

  /** Rows that had none have this tenant. */
  ghost predicate Assigned(before: Db, after: Db, t: Table, tenant: nat) {
    SameIds(before, after, t) && (t in before ==> forall id :: id in before[t] ==>
      if Tenant in before[t][id].columns then Kept(before[t][id], after[t][id], Tenant) else Holds(after[t][id], Tenant, Some(tenant)))
  }

  /** Rows that had no tenant are in this store, whatever they were in before. */
  ghost predicate StoreAssigned(before: Db, after: Db, t: Table, store: nat) {
    SameIds(before, after, t) && (t in before ==> forall id :: id in before[t] ==>
      if Tenant in before[t][id].columns then Kept(before[t][id], after[t][id], Store) else Holds(after[t][id], Store, Some(store)))
  }

  /** Rows that had none have what the row they refer to has. */
  ghost predicate Copied(before: Db, after: Db, t: Table, fk: ForeignKey, parent: Table, c: Column) {
    SameIds(before, after, t) && SameIds(before, after, parent) && (t in before ==> forall id :: id in before[t] ==>
      var row := before[t][id];
      if c in row.columns then Kept(row, after[t][id], c)
      else if fk in row.refs && parent in before && row.refs[fk] in before[parent] then
        var p := after[parent][row.refs[fk]];
        Holds(after[t][id], c, if c in p.columns then Some(p.columns[c]) else None)
      else Holds(after[t][id], c, None))
  }

  /** The same for outbox events, of orders only. */
  ghost predicate CopiedToEvents(before: Db, after: Db) {
    && SameIds(before, after, OutboxEvents) && SameIds(before, after, Orders)
    && (OutboxEvents in before ==> forall id :: id in before[OutboxEvents] ==>
          var row := before[OutboxEvents][id];
          if Tenant in row.columns then Kept(row, after[OutboxEvents][id], Tenant)
          else if row.aggregateType == "Order" && AggregateId in row.refs && Orders in before && row.refs[AggregateId] in before[Orders] then
            var p := after[Orders][row.refs[AggregateId]];
            Holds(after[OutboxEvents][id], Tenant, if Tenant in p.columns then Some(p.columns[Tenant]) else None)
          else Holds(after[OutboxEvents][id], Tenant, None))
  }

  /** An idempotency key has the tenant of its order, and without an order this tenant. */
  ghost predicate KeysAssigned(before: Db, after: Db, tenant: nat) {
    && SameIds(before, after, IdempotencyKeys) && SameIds(before, after, Orders)
    && (IdempotencyKeys in before ==> forall id :: id in before[IdempotencyKeys] ==>
          var row := before[IdempotencyKeys][id];
          if Tenant in row.columns then Kept(row, after[IdempotencyKeys][id], Tenant)
          else if ResultOrderId in row.refs && Orders in before && row.refs[ResultOrderId] in before[Orders] then
            var p := after[Orders][row.refs[ResultOrderId]];
            Holds(after[IdempotencyKeys][id], Tenant, if Tenant in p.columns then Some(p.columns[Tenant]) else Some(tenant))
          else Holds(after[IdempotencyKeys][id], Tenant, Some(tenant)))
  }

  // ---------------------------------------------------------------------------------------------
  // One column that one step fills
  // ---------------------------------------------------------------------------------------------

  ghost predicate OnlyFiller(steps: seq<Step>, k: nat) {
    && k < |steps| && WellOrdered(steps) && Guards(steps, steps[k].table, steps[k].guard)
    && forall j :: 0 <= j < |steps| && j != k ==> !(steps[j].table == steps[k].table && steps[j].guard == steps[k].guard)
  }

  /** A row of a table whose column one step fills ends with its own value or with the step's offer. */
  lemma FilledOnce(db: Db, steps: seq<Step>, k: nat, id: nat)
    requires OnlyFiller(steps, k) && steps[k].table in db && id in db[steps[k].table]
    ensures
      var t, c := steps[k].table, steps[k].guard;
      var after, row := Run(db, steps), db[t][id];
      var offer := Offer(after, steps[k].source, row);
      && t in after && id in after[t]
      && (c in row.columns ==> Kept(row, after[t][id], c))
      && (c !in row.columns ==> Holds(after[t][id], c, if c in offer then Some(offer[c]) else None))
  {
    hide Run, WellOrdered, FirstOffer, Offer;
    FinalValue(db, steps, steps[k].table, id, steps[k].guard);
    OfferedOnce(Run(db, steps), steps, k, db[steps[k].table][id]);
  }

  lemma TablesKept(db: Db, steps: seq<Step>)
    ensures forall t :: SameIds(db, Run(db, steps), t)
  {
    RunKeepsRows(db, steps);
  }

  lemma JoinedByUser(db: Db, steps: seq<Step>, k: nat, t: Table, customers: map<nat, nat>)
    requires OnlyFiller(steps, k) && steps[k] == CustomerIdFromUserJoin(t, customers)
    ensures CustomersOfUsers(db, Run(db, steps), t, customers)
  {
    TablesKept(db, steps);
    hide Run, WellOrdered, Holds, Kept, OnlyFiller;
    if t in db {
      forall id | id in db[t] {
        FilledOnce(db, steps, k, id);
      }
    }
  }

  lemma AssignedByConstant(db: Db, steps: seq<Step>, k: nat, t: Table, tenant: nat, store: nat)
    requires OnlyFiller(steps, k) && (steps[k] == DirectAssignTenantStore(t, tenant, store) || steps[k] == DirectAssignTenant(t, tenant))
    ensures Assigned(db, Run(db, steps), t, tenant)
  {
    TablesKept(db, steps);
    hide Run, WellOrdered, Holds, Kept, OnlyFiller;
    if t in db {
      forall id | id in db[t] {
        FilledOnce(db, steps, k, id);
      }
    }
  }

  lemma CopiedFromParent(db: Db, steps: seq<Step>, k: nat, t: Table, fk: ForeignKey, parent: Table, c: Column)
    requires OnlyFiller(steps, k) && steps[k].table == t && steps[k].guard == c && steps[k].source == Parent(fk, parent, None)
    ensures Copied(db, Run(db, steps), t, fk, parent, c)
  {
    hide Run, OnlyFiller, Offer, Holds, Kept;
    TablesKept(db, steps);
    assert SameIds(db, Run(db, steps), parent);
    if t in db {
      forall id | id in db[t] {
        FilledOnce(db, steps, k, id);
      }
      forall id | id in db[t] {
        OfferOfParent(Run(db, steps), fk, parent, db[t][id]);
      }
    }
  }

  lemma OfferOfParent(db: Db, fk: ForeignKey, parent: Table, row: Row)
    ensures
      Offer(db, Parent(fk, parent, None), row) ==
      if fk in row.refs && parent in db && row.refs[fk] in db[parent] then db[parent][row.refs[fk]].columns else map[]
  {
  }

  lemma KeptByAll(db: Db, steps: seq<Step>, t: Table, c: Column)
    requires forall s :: s in steps ==> !(s.table == t && c in s.columns)
    ensures AllKept(db, Run(db, steps), t, c)
  {
    TablesKept(db, steps);
    hide Run;
    if t in db {
      forall id | id in db[t] {
        UntouchedByAll(db, steps, t, id, c);
      }
    }
  }

  // ---------------------------------------------------------------------------------------------
  // W4
  // ---------------------------------------------------------------------------------------------

  lemma FillsAlone(k: nat, tenant: nat, store: nat, customers: map<nat, nat>)
    requires k < W4_COUNT && !(W4Step(k, tenant, store, customers).table == IdempotencyKeys && W4Step(k, tenant, store, customers).guard == Tenant)
    ensures OnlyFiller(W4Steps(tenant, store, customers), k) && W4Steps(tenant, store, customers)[k] == W4Step(k, tenant, store, customers)
  {
    var steps := W4Steps(tenant, store, customers);
    assert W4Step(25, tenant, store, customers) == CopyTenantFromParent(IdempotencyKeys, ResultOrderId, Orders);
    hide W4Step, W4Stage, WellOrdered;
    W4IsWellOrdered(tenant, store, customers);
    W4Stages(k, tenant, store, customers);
    forall j | 0 <= j < |steps| && j != k
      ensures !(steps[j].table == steps[k].table && steps[j].guard == steps[k].guard)
    {
      W4Stages(j, tenant, store, customers);
    }
  }

  /** customerId after W4. */
  lemma W4Customers(db: Db, tenant: nat, store: nat, customers: map<nat, nat>)
    ensures
      var after := Run(db, W4Steps(tenant, store, customers));
      && CustomersOfUsers(db, after, UploadedFiles, customers)
      && CustomersOfUsers(db, after, Carts, customers)
      && CustomersOfUsers(db, after, Orders, customers)
      && CustomersOfUsers(db, after, OrderStatusHistory, customers)
      && CustomersOfUsers(db, after, CouponUsages, customers)
      && CustomersOfUsers(db, after, Reviews, customers)
      && CustomersOfUsers(db, after, IdempotencyKeys, customers)
      && forall t :: t !in {UploadedFiles, Carts, Orders, OrderStatusHistory, CouponUsages, Reviews, IdempotencyKeys} ==>
           AllKept(db, after, t, Customer)
  {
    hide CustomersOfUsers, AllKept, OnlyFiller, Run, W4Steps;
    W4JoinsUsers(db, 7, UploadedFiles, tenant, store, customers);
    W4JoinsUsers(db, 9, Carts, tenant, store, customers);
    W4JoinsUsers(db, 13, Orders, tenant, store, customers);
    W4JoinsUsers(db, 20, OrderStatusHistory, tenant, store, customers);
    W4JoinsUsers(db, 22, CouponUsages, tenant, store, customers);
    W4JoinsUsers(db, 24, Reviews, tenant, store, customers);
    W4JoinsUsers(db, 27, IdempotencyKeys, tenant, store, customers);
    forall t | t !in {UploadedFiles, Carts, Orders, OrderStatusHistory, CouponUsages, Reviews, IdempotencyKeys}
      ensures AllKept(db, Run(db, W4Steps(tenant, store, customers)), t, Customer)
    {
      W4LeavesCustomers(db, t, tenant, store, customers);
    }
  }

  lemma W4JoinsUsers(db: Db, k: nat, t: Table, tenant: nat, store: nat, customers: map<nat, nat>)
    requires k < W4_COUNT && W4Step(k, tenant, store, customers) == CustomerIdFromUserJoin(t, customers)
    ensures CustomersOfUsers(db, Run(db, W4Steps(tenant, store, customers)), t, customers)
  {
    hide W4Step, W4Steps, OnlyFiller, Run, CustomersOfUsers;
    FillsAlone(k, tenant, store, customers);
    JoinedByUser(db, W4Steps(tenant, store, customers), k, t, customers);
  }

  lemma W4LeavesCustomers(db: Db, t: Table, tenant: nat, store: nat, customers: map<nat, nat>)
    requires t !in {UploadedFiles, Carts, Orders, OrderStatusHistory, CouponUsages, Reviews, IdempotencyKeys}
    ensures AllKept(db, Run(db, W4Steps(tenant, store, customers)), t, Customer)
  {
    hide Run, AllKept, W4Step;
    var steps := W4Steps(tenant, store, customers);
    forall s | s in steps
      ensures !(s.table == t && Customer in s.columns)
    {
      var k :| 0 <= k < |steps| && s == steps[k];
      CustomerTables(k, tenant, store, customers);
    }
    KeptByAll(db, steps, t, Customer);
  }

  lemma CustomerTables(k: nat, tenant: nat, store: nat, customers: map<nat, nat>)
    requires k < W4_COUNT
    ensures
      var s := W4Step(k, tenant, store, customers);
      Customer in s.columns ==> s.table in {UploadedFiles, Carts, Orders, OrderStatusHistory, CouponUsages, Reviews, IdempotencyKeys}
  {
  }

  lemma W4AssignsToCatalogue(db: Db, tenant: nat, store: nat, customers: map<nat, nat>)
    ensures
      var after := Run(db, W4Steps(tenant, store, customers));
      && Assigned(db, after, Categories, tenant)
      && Assigned(db, after, Products, tenant)
      && Assigned(db, after, Coupons, tenant)
  {
    hide Assigned, Copied, OnlyFiller, Run, W4Steps;
    W4Assigns(db, 0, Categories, tenant, store, customers);
    W4Assigns(db, 1, Products, tenant, store, customers);
    W4Assigns(db, 5, Coupons, tenant, store, customers);
  }

  lemma W4AssignsToOthers(db: Db, tenant: nat, store: nat, customers: map<nat, nat>)
    ensures
      var after := Run(db, W4Steps(tenant, store, customers));
      && Assigned(db, after, UploadedFiles, tenant)
      && Assigned(db, after, Carts, tenant)
      && Assigned(db, after, Orders, tenant)
      && Assigned(db, after, Reviews, tenant)
  {
    hide Assigned, Copied, OnlyFiller, Run, W4Steps;
    W4Assigns(db, 6, UploadedFiles, tenant, store, customers);
    W4Assigns(db, 8, Carts, tenant, store, customers);
    W4Assigns(db, 12, Orders, tenant, store, customers);
    W4Assigns(db, 23, Reviews, tenant, store, customers);
  }

  lemma W4CopiesOfCatalogue(db: Db, tenant: nat, store: nat, customers: map<nat, nat>)
    ensures
      var after := Run(db, W4Steps(tenant, store, customers));
      && Copied(db, after, ProductImages, ProductId, Products, Tenant)
      && Copied(db, after, ProductVariants, ProductId, Products, Tenant)
      && Copied(db, after, CustomizationFields, ProductId, Products, Tenant)
      && Copied(db, after, CartItems, CartId, Carts, Tenant)
      && Copied(db, after, CartItemCustomizations, CartItemId, CartItems, Tenant)
  {
    hide Assigned, Copied, OnlyFiller, Run, W4Steps;
    W4Copies(db, 2, ProductImages, ProductId, Products, tenant, store, customers);
    W4Copies(db, 3, ProductVariants, ProductId, Products, tenant, store, customers);
    W4Copies(db, 4, CustomizationFields, ProductId, Products, tenant, store, customers);
    W4Copies(db, 10, CartItems, CartId, Carts, tenant, store, customers);
    W4Copies(db, 11, CartItemCustomizations, CartItemId, CartItems, tenant, store, customers);
  }

  lemma W4CopiesOfOrders(db: Db, tenant: nat, store: nat, customers: map<nat, nat>)
    ensures
      var after := Run(db, W4Steps(tenant, store, customers));
      && Copied(db, after, OrderItems, OrderId, Orders, Tenant)
      && Copied(db, after, OrderItemCustomizations, OrderItemId, OrderItems, Tenant)
      && Copied(db, after, Invoices, OrderId, Orders, Tenant)
  {
    hide Assigned, Copied, OnlyFiller, Run, W4Steps;
    W4Copies(db, 14, OrderItems, OrderId, Orders, tenant, store, customers);
    W4Copies(db, 15, OrderItemCustomizations, OrderItemId, OrderItems, tenant, store, customers);
    W4Copies(db, 16, Invoices, OrderId, Orders, tenant, store, customers);
  }

  lemma W4CopiesOfPayments(db: Db, tenant: nat, store: nat, customers: map<nat, nat>)
    ensures
      var after := Run(db, W4Steps(tenant, store, customers));
      && Copied(db, after, PaymentAttempts, OrderId, Orders, Tenant)
      && Copied(db, after, Refunds, PaymentAttemptId, PaymentAttempts, Tenant)
  {
    hide Assigned, Copied, OnlyFiller, Run, W4Steps;
    W4Copies(db, 17, PaymentAttempts, OrderId, Orders, tenant, store, customers);
    W4Copies(db, 18, Refunds, PaymentAttemptId, PaymentAttempts, tenant, store, customers);
  }

  lemma W4CopiesOfOthers(db: Db, tenant: nat, store: nat, customers: map<nat, nat>)
    ensures
      var after := Run(db, W4Steps(tenant, store, customers));
      && Copied(db, after, OrderStatusHistory, OrderId, Orders, Tenant)
      && Copied(db, after, CouponUsages, OrderId, Orders, Tenant)
  {
    hide Assigned, Copied, OnlyFiller, Run, W4Steps;
    W4Copies(db, 19, OrderStatusHistory, OrderId, Orders, tenant, store, customers);
    W4Copies(db, 21, CouponUsages, OrderId, Orders, tenant, store, customers);
  }

  /** tenantId after W4. */
  lemma W4Tenants(db: Db, tenant: nat, store: nat, customers: map<nat, nat>)
    ensures
      var after := Run(db, W4Steps(tenant, store, customers));
      && Assigned(db, after, Categories, tenant)
      && Assigned(db, after, Products, tenant)
      && Assigned(db, after, Coupons, tenant)
      && Assigned(db, after, UploadedFiles, tenant)
      && Assigned(db, after, Carts, tenant)
      && Assigned(db, after, Orders, tenant)
      && Assigned(db, after, Reviews, tenant)
      && Copied(db, after, ProductImages, ProductId, Products, Tenant)
      && Copied(db, after, ProductVariants, ProductId, Products, Tenant)
      && Copied(db, after, CustomizationFields, ProductId, Products, Tenant)
      && Copied(db, after, CartItems, CartId, Carts, Tenant)
      && Copied(db, after, CartItemCustomizations, CartItemId, CartItems, Tenant)
      && Copied(db, after, OrderItems, OrderId, Orders, Tenant)
      && Copied(db, after, OrderItemCustomizations, OrderItemId, OrderItems, Tenant)
      && Copied(db, after, Invoices, OrderId, Orders, Tenant)
      && Copied(db, after, PaymentAttempts, OrderId, Orders, Tenant)
      && Copied(db, after, Refunds, PaymentAttemptId, PaymentAttempts, Tenant)
      && Copied(db, after, OrderStatusHistory, OrderId, Orders, Tenant)
      && Copied(db, after, CouponUsages, OrderId, Orders, Tenant)
      && KeysAssigned(db, after, tenant)
      && CopiedToEvents(db, after)
  {
    hide *;
    W4AssignsToCatalogue(db, tenant, store, customers);
    W4AssignsToOthers(db, tenant, store, customers);
    W4CopiesOfCatalogue(db, tenant, store, customers);
    W4CopiesOfOrders(db, tenant, store, customers);
    W4CopiesOfPayments(db, tenant, store, customers);
    W4CopiesOfOthers(db, tenant, store, customers);
    W4Keys(db, tenant, store, customers);
    W4Events(db, tenant, store, customers);
  }

  lemma W4Assigns(db: Db, k: nat, t: Table, tenant: nat, store: nat, customers: map<nat, nat>)
    requires k < W4_COUNT && t != IdempotencyKeys
    requires W4Step(k, tenant, store, customers) == DirectAssignTenantStore(t, tenant, store) || W4Step(k, tenant, store, customers) == DirectAssignTenant(t, tenant)
    ensures Assigned(db, Run(db, W4Steps(tenant, store, customers)), t, tenant)
  {
    hide W4Step, W4Steps, OnlyFiller, Run, Assigned;
    FillsAlone(k, tenant, store, customers);
    AssignedByConstant(db, W4Steps(tenant, store, customers), k, t, tenant, store);
  }

  lemma W4Copies(db: Db, k: nat, t: Table, fk: ForeignKey, parent: Table, tenant: nat, store: nat, customers: map<nat, nat>)
    requires k < W4_COUNT && t != IdempotencyKeys
    requires W4Step(k, tenant, store, customers) == CopyTenantFromParent(t, fk, parent) || W4Step(k, tenant, store, customers) == CopyTenantAndStoreFromParent(t, fk, parent)
    ensures Copied(db, Run(db, W4Steps(tenant, store, customers)), t, fk, parent, Tenant)
  {
    hide W4Step, W4Steps, OnlyFiller, Run, Copied;
    FillsAlone(k, tenant, store, customers);
    CopiedFromParent(db, W4Steps(tenant, store, customers), k, t, fk, parent, Tenant);
  }

  lemma W4Events(db: Db, tenant: nat, store: nat, customers: map<nat, nat>)
    ensures CopiedToEvents(db, Run(db, W4Steps(tenant, store, customers)))
  {
    hide W4Step, W4Steps, Run, WellOrdered, Holds, Kept, OnlyFiller;
    var steps := W4Steps(tenant, store, customers);
    LastSteps(tenant, store, customers);
    FillsAlone(28, tenant, store, customers);
    TablesKept(db, steps);
    assert SameIds(db, Run(db, steps), Orders);
    if OutboxEvents in db {
      forall id | id in db[OutboxEvents] {
        FilledOnce(db, steps, 28, id);
      }
    }
  }

  /** When exactly two steps fill a column of a table, the earlier one's offer comes first. */
  lemma {:induction false} OfferedTwice(db: Db, steps: seq<Step>, j: nat, k: nat, row: Row)
    requires j < k < |steps| && steps[j].table == steps[k].table && steps[j].guard == steps[k].guard
    requires forall i :: 0 <= i < |steps| && i != j && i != k ==> !(steps[i].table == steps[k].table && steps[i].guard == steps[k].guard)
    ensures
      var c, first, second := steps[k].guard, Offer(db, steps[j].source, row), Offer(db, steps[k].source, row);
      FirstOffer(db, steps, steps[k].table, row, c) ==
      if c in first then Some(first[c]) else if c in second then Some(second[c]) else None
  {
    hide Offer;
    var front := steps[..|steps| - 1];
    if k < |front| {
      OfferedTwice(db, front, j, k, row);
    } else {
      OfferedOnce(db, front, j, row);
    }
  }

  lemma W4KeySteps(tenant: nat, store: nat, customers: map<nat, nat>)
    ensures
      var steps := W4Steps(tenant, store, customers);
      && |steps| == W4_COUNT
      && steps[25] == CopyTenantFromParent(IdempotencyKeys, ResultOrderId, Orders)
      && steps[26] == DirectAssignTenant(IdempotencyKeys, tenant)
      && forall j :: 0 <= j < |steps| && j != 25 && j != 26 ==> !(steps[j].table == IdempotencyKeys && steps[j].guard == Tenant)
  {
    var steps := W4Steps(tenant, store, customers);
    assert W4Step(25, tenant, store, customers) == CopyTenantFromParent(IdempotencyKeys, ResultOrderId, Orders);
    assert W4Step(26, tenant, store, customers) == DirectAssignTenant(IdempotencyKeys, tenant);
    hide W4Step;
    forall j | 0 <= j < |steps| && j != 25 && j != 26
      ensures !(steps[j].table == IdempotencyKeys && steps[j].guard == Tenant)
    {
      W4Stages(j, tenant, store, customers);
    }
  }

  lemma W4Keys(db: Db, tenant: nat, store: nat, customers: map<nat, nat>)
    ensures KeysAssigned(db, Run(db, W4Steps(tenant, store, customers)), tenant)
  {
    hide W4Step, W4Steps, Run, WellOrdered, FirstOffer, Holds;
    var steps := W4Steps(tenant, store, customers);
    W4KeySteps(tenant, store, customers);
    W4IsWellOrdered(tenant, store, customers);
    TablesKept(db, steps);
    assert SameIds(db, Run(db, steps), Orders);
    if IdempotencyKeys in db {
      forall id | id in db[IdempotencyKeys] {
        KeyFilled(db, steps, tenant, id);
      }
    }
  }

  lemma KeyFilled(db: Db, steps: seq<Step>, tenant: nat, id: nat)
    requires |steps| > 26 && WellOrdered(steps) && Guards(steps, IdempotencyKeys, Tenant)
    requires steps[25] == CopyTenantFromParent(IdempotencyKeys, ResultOrderId, Orders) && steps[26] == DirectAssignTenant(IdempotencyKeys, tenant)
    requires forall j :: 0 <= j < |steps| && j != 25 && j != 26 ==> !(steps[j].table == IdempotencyKeys && steps[j].guard == Tenant)
    requires IdempotencyKeys in db && id in db[IdempotencyKeys]
    ensures
      var after, row := Run(db, steps), db[IdempotencyKeys][id];
      var offer := Offer(after, Parent(ResultOrderId, Orders, None), row);
      && IdempotencyKeys in after && id in after[IdempotencyKeys]
      && (Tenant in row.columns ==> Kept(row, after[IdempotencyKeys][id], Tenant))
      && (Tenant !in row.columns ==> Holds(after[IdempotencyKeys][id], Tenant, Some(if Tenant in offer then offer[Tenant] else tenant)))
  {
    hide Run, WellOrdered, FirstOffer;
    FinalValue(db, steps, IdempotencyKeys, id, Tenant);
    OfferedTwice(Run(db, steps), steps, 25, 26, db[IdempotencyKeys][id]);
  }

  /** storeId after W4. */
  lemma W4Stores(db: Db, tenant: nat, store: nat, customers: map<nat, nat>)
    ensures
      var after := Run(db, W4Steps(tenant, store, customers));
      && StoreAssigned(db, after, Categories, store)
      && StoreAssigned(db, after, Products, store)
      && StoreAssigned(db, after, Coupons, store)
      && StoreAssigned(db, after, Carts, store)
      && StoreAssigned(db, after, Orders, store)
      && StoreAssigned(db, after, Reviews, store)
      && forall t :: t !in {Categories, Products, Coupons, Carts, Orders, Reviews, CouponUsages} ==> AllKept(db, after, t, Store)
  {
    hide StoreAssigned, AllKept, Run, W4Steps;
    W4AssignsStore(db, 0, Categories, tenant, store, customers);
    W4AssignsStore(db, 1, Products, tenant, store, customers);
    W4AssignsStore(db, 5, Coupons, tenant, store, customers);
    W4AssignsStore(db, 8, Carts, tenant, store, customers);
    W4AssignsStore(db, 12, Orders, tenant, store, customers);
    W4AssignsStore(db, 23, Reviews, tenant, store, customers);
    forall t | t !in {Categories, Products, Coupons, Carts, Orders, Reviews, CouponUsages}
      ensures AllKept(db, Run(db, W4Steps(tenant, store, customers)), t, Store)
    {
      W4LeavesStores(db, t, tenant, store, customers);
    }
  }

  lemma W4AssignsStore(db: Db, k: nat, t: Table, tenant: nat, store: nat, customers: map<nat, nat>)
    requires k < W4_COUNT && W4Step(k, tenant, store, customers) == DirectAssignTenantStore(t, tenant, store)
    ensures StoreAssigned(db, Run(db, W4Steps(tenant, store, customers)), t, store)
  {
    hide W4Step, W4Stage, Run;
    var steps := W4Steps(tenant, store, customers);
    forall j | 0 <= j < |steps| && j != k
      ensures !(steps[j].table == t && Tenant in steps[j].columns) && !(steps[j].table == t && Store in steps[j].columns)
    {
      W4Stages(k, tenant, store, customers);
      W4Stages(j, tenant, store, customers);
      OnlyDirectStepsWriteStores(k, tenant, store, customers);
      OnlyDirectStepsWriteStores(j, tenant, store, customers);
    }
    TablesKept(db, steps);
    if t in db {
      forall id | id in db[t] {
        DirectStoreFate(db, steps, k, tenant, store, id);
      }
    }
  }

  lemma W4LeavesStores(db: Db, t: Table, tenant: nat, store: nat, customers: map<nat, nat>)
    requires t !in {Categories, Products, Coupons, Carts, Orders, Reviews, CouponUsages}
    ensures AllKept(db, Run(db, W4Steps(tenant, store, customers)), t, Store)
  {
    hide Run, AllKept, W4Step;
    var steps := W4Steps(tenant, store, customers);
    forall s | s in steps
      ensures !(s.table == t && Store in s.columns)
    {
      var k :| 0 <= k < |steps| && s == steps[k];
      StoreTables(k, tenant, store, customers);
    }
    KeptByAll(db, steps, t, Store);
  }

  lemma StoreTables(k: nat, tenant: nat, store: nat, customers: map<nat, nat>)
    requires k < W4_COUNT
    ensures
      var s := W4Step(k, tenant, store, customers);
      Store in s.columns ==> s.table in {Categories, Products, Coupons, Carts, Orders, Reviews, CouponUsages}
  {
  }

  // ---------------------------------------------------------------------------------------------
  // W6
  // ---------------------------------------------------------------------------------------------

  /** storeId after W6; nothing else changes. */
  lemma W6Stores(db: Db)
    ensures
      var after := Run(db, W6Steps());
      && Copied(db, after, ProductImages, ProductId, Products, Store)
      && Copied(db, after, ProductVariants, ProductId, Products, Store)
      && Copied(db, after, CustomizationFields, ProductId, Products, Store)
      && Copied(db, after, CartItems, CartId, Carts, Store)
      && Copied(db, after, CartItemCustomizations, CartItemId, CartItems, Store)
      && Copied(db, after, OrderItems, OrderId, Orders, Store)
      && (forall t :: t !in {ProductImages, ProductVariants, CustomizationFields, CartItems, CartItemCustomizations, OrderItems} ==>
            AllKept(db, after, t, Store))
      && (forall t :: AllKept(db, after, t, Tenant) && AllKept(db, after, t, Customer))
  {
    hide Copied, AllKept, Run, W6Steps;
    W6Copies(db, 0, ProductImages, ProductId, Products);
    W6Copies(db, 1, ProductVariants, ProductId, Products);
    W6Copies(db, 2, CustomizationFields, ProductId, Products);
    W6Copies(db, 3, CartItems, CartId, Carts);
    W6Copies(db, 4, CartItemCustomizations, CartItemId, CartItems);
    W6Copies(db, 5, OrderItems, OrderId, Orders);
    forall t, c | c != Store || t !in {ProductImages, ProductVariants, CustomizationFields, CartItems, CartItemCustomizations, OrderItems}
      ensures AllKept(db, Run(db, W6Steps()), t, c)
    {
      W6Leaves(db, t, c);
    }
  }

  lemma W6Copies(db: Db, k: nat, t: Table, fk: ForeignKey, parent: Table)
    requires k < W6_COUNT && W6Step(k) == CopyStoreFromParent(t, fk, parent)
    ensures Copied(db, Run(db, W6Steps()), t, fk, parent, Store)
  {
    hide W6Step, Run, Copied, WellOrdered;
    W6IsWellOrdered();
    W6StepsDiffer(k);
    CopiedFromParent(db, W6Steps(), k, t, fk, parent, Store);
  }

  lemma W6Leaves(db: Db, t: Table, c: Column)
    requires c != Store || t !in {ProductImages, ProductVariants, CustomizationFields, CartItems, CartItemCustomizations, OrderItems}
    ensures AllKept(db, Run(db, W6Steps()), t, c)
  {
    hide Run, AllKept;
    KeptByAll(db, W6Steps(), t, c);
  }

  // ---------------------------------------------------------------------------------------------
  // The counts
  // ---------------------------------------------------------------------------------------------

  /** The rows of a table that have the column in `after` and had none in `before`. */
  ghost function Filled(before: Db, after: Db, t: Table, c: Column): set<nat> {
    if t in before && t in after
    then set id | id in before[t] && id in after[t] && c !in before[t][id].columns && c in after[t][id].columns else {}
  }

  lemma HitsAreFilled(db: Db, step: Step)
    requires step.guard in step.columns
    ensures HitRows(db, step) == Filled(db, Apply(db, step), step.table, step.guard)
  {
  }

  /** A step's reported count is the number of rows whose guarded column it filled. */
  lemma {:induction false} AffectedCountsFilled(db: Db, steps: seq<Step>, k: nat)
    requires k < |steps| && steps[k].guard in steps[k].columns
    ensures |Affected(db, steps)| == |steps|
    ensures Affected(db, steps)[k] == |Filled(Run(db, steps[..k]), Run(db, steps[..k + 1]), steps[k].table, steps[k].guard)|
  {
    AffectedLength(db, steps);
    var front := steps[..|steps| - 1];
    AffectedLength(db, front);
    if k < |front| {
      AffectedCountsFilled(db, front, k);
      assert front[..k] == steps[..k] && front[..k + 1] == steps[..k + 1];
    } else {
      assert steps[..k + 1] == steps && steps[..k] == front;
      HitsAreFilled(Run(db, front), steps[k]);
    }
  }

  lemma {:induction false} AffectedLength(db: Db, steps: seq<Step>)
    ensures |Affected(db, steps)| == |steps|
  {
    if steps != [] {
      AffectedLength(db, steps[..|steps| - 1]);
    }
  }
}
