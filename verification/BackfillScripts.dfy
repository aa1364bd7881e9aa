/** The two backfill scripts as lists of steps, in the order they are run. */
module BackfillScripts {
  import opened Prelude
  import opened Backfill

  // ---------------------------------------------------------------------------------------------
  // The step shapes
  // ---------------------------------------------------------------------------------------------

  function DirectAssignTenantStore(t: Table, tenant: nat, store: nat): Step {
    Step(t, Tenant, {Tenant, Store}, Constant(map[Tenant := tenant, Store := store]))
  }

  function DirectAssignTenant(t: Table, tenant: nat): Step {
    Step(t, Tenant, {Tenant}, Constant(map[Tenant := tenant]))
  }

  function CopyTenantFromParent(t: Table, fk: ForeignKey, parent: Table): Step {
    Step(t, Tenant, {Tenant}, Parent(fk, parent, None))
  }

  function CopyTenantAndStoreFromParent(t: Table, fk: ForeignKey, parent: Table): Step {
    Step(t, Tenant, {Tenant, Store}, Parent(fk, parent, None))
  }

  function CustomerIdFromUserJoin(t: Table, customers: map<nat, nat>): Step {
    Step(t, Customer, {Customer}, UserJoin(customers))
  }

  function CopyStoreFromParent(t: Table, fk: ForeignKey, parent: Table): Step {
    Step(t, Store, {Store}, Parent(fk, parent, None))
  }

  // ---------------------------------------------------------------------------------------------
  // The scripts
  // ---------------------------------------------------------------------------------------------

  const W4_COUNT: nat := 29

  /** The i-th UPDATE of w4-backfill.ts. `customers` maps each CUSTOMER user to the customer row of
      the target store with the same email. idempotencyKeyTenantId is steps 25 and 26. */
  function W4Step(i: nat, tenant: nat, store: nat, customers: map<nat, nat>): Step
    requires i < W4_COUNT
  {
    match i
    case 0 => DirectAssignTenantStore(Categories, tenant, store)
    case 1 => DirectAssignTenantStore(Products, tenant, store)
    case 2 => CopyTenantFromParent(ProductImages, ProductId, Products)
    case 3 => CopyTenantFromParent(ProductVariants, ProductId, Products)
    case 4 => CopyTenantFromParent(CustomizationFields, ProductId, Products)
    case 5 => DirectAssignTenantStore(Coupons, tenant, store)
    case 6 => DirectAssignTenant(UploadedFiles, tenant)
    case 7 => CustomerIdFromUserJoin(UploadedFiles, customers)
    case 8 => DirectAssignTenantStore(Carts, tenant, store)
    case 9 => CustomerIdFromUserJoin(Carts, customers)
    case 10 => CopyTenantFromParent(CartItems, CartId, Carts)
    case 11 => CopyTenantFromParent(CartItemCustomizations, CartItemId, CartItems)
    case 12 => DirectAssignTenantStore(Orders, tenant, store)
    case 13 => CustomerIdFromUserJoin(Orders, customers)
    case 14 => CopyTenantFromParent(OrderItems, OrderId, Orders)
    case 15 => CopyTenantFromParent(OrderItemCustomizations, OrderItemId, OrderItems)
    case 16 => CopyTenantFromParent(Invoices, OrderId, Orders)
    case 17 => CopyTenantFromParent(PaymentAttempts, OrderId, Orders)
    case 18 => CopyTenantFromParent(Refunds, PaymentAttemptId, PaymentAttempts)
    case 19 => CopyTenantFromParent(OrderStatusHistory, OrderId, Orders)
    case 20 => CustomerIdFromUserJoin(OrderStatusHistory, customers)
    case 21 => CopyTenantAndStoreFromParent(CouponUsages, OrderId, Orders)
    case 22 => CustomerIdFromUserJoin(CouponUsages, customers)
    case 23 => DirectAssignTenantStore(Reviews, tenant, store)
    case 24 => CustomerIdFromUserJoin(Reviews, customers)
    case 25 => CopyTenantFromParent(IdempotencyKeys, ResultOrderId, Orders)
    case 26 => DirectAssignTenant(IdempotencyKeys, tenant)
    case 27 => CustomerIdFromUserJoin(IdempotencyKeys, customers)
    case _ => Step(OutboxEvents, Tenant, {Tenant}, Parent(AggregateId, Orders, Some("Order")))
  }

  function W4Steps(tenant: nat, store: nat, customers: map<nat, nat>): seq<Step> {
    seq(W4_COUNT, i requires 0 <= i < W4_COUNT => W4Step(i, tenant, store, customers))
  }

  const W6_COUNT: nat := 6

  /** COPY_STORE_SPECS of w6-storeid-backfill.ts. */
  function W6Step(i: nat): Step
    requires i < W6_COUNT
  {
    match i
    case 0 => CopyStoreFromParent(ProductImages, ProductId, Products)
    case 1 => CopyStoreFromParent(ProductVariants, ProductId, Products)
    case 2 => CopyStoreFromParent(CustomizationFields, ProductId, Products)
    case 3 => CopyStoreFromParent(CartItems, CartId, Carts)
    case 4 => CopyStoreFromParent(CartItemCustomizations, CartItemId, CartItems)
    case _ => CopyStoreFromParent(OrderItems, OrderId, Orders)
  }

  function W6Steps(): seq<Step> {
    seq(W6_COUNT, i requires 0 <= i < W6_COUNT => W6Step(i))
  }

  // ---------------------------------------------------------------------------------------------
  // Both are well ordered
  // ---------------------------------------------------------------------------------------------

  lemma {:induction false} PairwiseIsWellOrdered(steps: seq<Step>)
    requires forall i :: 0 <= i < |steps| ==> SelfContained(steps[i])
    requires forall i, j :: 0 <= i < j < |steps| ==> Harmless(steps[i], steps[j])
    ensures WellOrdered(steps)
  {
    if steps != [] {
      PairwiseIsWellOrdered(steps[..|steps| - 1]);
    }
  }

  /** The last W4 step that fills a table's guarded column. */
  function W4Stage(t: Table, c: Column): nat {
    if c == Customer then
      match t
      case UploadedFiles => 7
      case Carts => 9
      case Orders => 13
      case OrderStatusHistory => 20
      case CouponUsages => 22
      case Reviews => 24
      case _ => 27
    else
      match t
      case Categories => 0
      case Products => 1
      case ProductImages => 2
      case ProductVariants => 3
      case CustomizationFields => 4
      case Coupons => 5
      case UploadedFiles => 6
      case Carts => 8
      case CartItems => 10
      case CartItemCustomizations => 11
      case Orders => 12
      case OrderItems => 14
      case OrderItemCustomizations => 15
      case Invoices => 16
      case PaymentAttempts => 17
      case Refunds => 18
      case OrderStatusHistory => 19
      case CouponUsages => 21
      case Reviews => 23
      case IdempotencyKeys => 26
      case _ => 28
  }

  ghost predicate InItsStage(s: Step, i: nat) {
    && SelfContained(s) && s.guard != Store && i <= W4Stage(s.table, s.guard)
    && (s.source.Parent? ==> W4Stage(s.source.parent, s.guard) < i)
    && (forall c :: c in s.columns && c != Store ==> c == s.guard)
    && (i != 25 ==> W4Stage(s.table, s.guard) == i)
  }

  lemma CatalogueStages(i: nat, tenant: nat, store: nat, customers: map<nat, nat>)
    requires i < 12
    ensures InItsStage(W4Step(i, tenant, store, customers), i)
  {
  }

  lemma OrderStages(i: nat, tenant: nat, store: nat, customers: map<nat, nat>)
    requires 12 <= i < 21
    ensures InItsStage(W4Step(i, tenant, store, customers), i)
  {
  }

  lemma OtherStages(i: nat, tenant: nat, store: nat, customers: map<nat, nat>)
    requires 21 <= i < W4_COUNT
    ensures InItsStage(W4Step(i, tenant, store, customers), i)
  {
  }

  lemma W4Stages(i: nat, tenant: nat, store: nat, customers: map<nat, nat>)
    requires i < W4_COUNT
    ensures InItsStage(W4Step(i, tenant, store, customers), i)
  {
    hide W4Step, InItsStage;
    if i < 12 {
      CatalogueStages(i, tenant, store, customers);
    } else if i < 21 {
      OrderStages(i, tenant, store, customers);
    } else {
      OtherStages(i, tenant, store, customers);
    }
  }

  lemma W4IsWellOrdered(tenant: nat, store: nat, customers: map<nat, nat>)
    ensures WellOrdered(W4Steps(tenant, store, customers))
    ensures forall t :: Guards(W4Steps(tenant, store, customers), t, Tenant)
    ensures forall t :: Guards(W4Steps(tenant, store, customers), t, Customer)
  {
    hide W4Step, W4Stage, WellOrdered;
    var steps := W4Steps(tenant, store, customers);
    forall i | 0 <= i < |steps|
      ensures SelfContained(steps[i])
      ensures forall c :: c in steps[i].columns && c != Store ==> c == steps[i].guard
    {
      W4Stages(i, tenant, store, customers);
    }
    forall i, j | 0 <= i < j < |steps|
      ensures Harmless(steps[i], steps[j])
    {
      W4Stages(i, tenant, store, customers);
      W4Stages(j, tenant, store, customers);
    }
    PairwiseIsWellOrdered(steps);
  }

  lemma W6IsWellOrdered()
    ensures WellOrdered(W6Steps())
    ensures forall t :: Guards(W6Steps(), t, Store)
  {
    PairwiseIsWellOrdered(W6Steps());
  }

  // ---------------------------------------------------------------------------------------------
  // Results
  // ---------------------------------------------------------------------------------------------

  /** Interrupting either script after any steps, any number of times, does not change where a
      complete run ends, and running it once more affects nothing. */
  lemma ScriptsAreResumable(db: Db, tenant: nat, store: nat, customers: map<nat, nat>, stops4: seq<nat>, stops6: seq<nat>)
    requires forall i :: 0 <= i < |stops4| ==> stops4[i] <= W4_COUNT
    requires forall i :: 0 <= i < |stops6| ==> stops6[i] <= W6_COUNT
    ensures
      var w4 := W4Steps(tenant, store, customers);
      && Run(Interrupted(db, w4, stops4), w4) == Run(db, w4)
      && Run(Run(db, w4), w4) == Run(db, w4) && Affected(Run(db, w4), w4) == seq(W4_COUNT, _ => 0)
    ensures
      var w6 := W6Steps();
      && Run(Interrupted(db, w6, stops6), w6) == Run(db, w6)
      && Run(Run(db, w6), w6) == Run(db, w6) && Affected(Run(db, w6), w6) == seq(W6_COUNT, _ => 0)
  {
    var w4, w6 := W4Steps(tenant, store, customers), W6Steps();
    W4IsWellOrdered(tenant, store, customers);
    W6IsWellOrdered();
    InterruptionsDoNotMatter(db, w4, stops4);
    SecondRunAffectsNothing(db, w4);
    InterruptionsDoNotMatter(db, w6, stops6);
    SecondRunAffectsNothing(db, w6);
  }

  /** No non-null tenantId or customerId is overwritten by W4, and no non-null storeId by W6. */
  lemma ScriptsOverwriteNothing(db: Db, tenant: nat, store: nat, customers: map<nat, nat>, t: Table, id: nat, c: Column)
    requires t in db && id in db[t] && c in db[t][id].columns
    ensures
      var after := Run(db, if c == Store then W6Steps() else W4Steps(tenant, store, customers));
      t in after && id in after[t] && Value(after[t][id], c) == Value(db[t][id], c)
  {
    W4IsWellOrdered(tenant, store, customers);
    W6IsWellOrdered();
    NeverOverwritten(db, if c == Store then W6Steps() else W4Steps(tenant, store, customers), t, id, c);
  }

  /** W4 does overwrite a non-null storeId, in the tables it assigns directly: exactly on rows whose
      tenantId is NULL and whose storeId is another store's. */
  lemma W4OverwritesStoreIff(db: Db, tenant: nat, store: nat, customers: map<nat, nat>, i: nat, id: nat, was: nat)
    requires i < W4_COUNT && W4Step(i, tenant, store, customers) == DirectAssignTenantStore(W4Step(i, tenant, store, customers).table, tenant, store)
    requires
      var t := W4Step(i, tenant, store, customers).table;
      t in db && id in db[t] && Value(db[t][id], Store) == Some(was)
    ensures
      var t := W4Step(i, tenant, store, customers).table;
      var after := Run(db, W4Steps(tenant, store, customers));
      && t in after && id in after[t]
      && (Value(after[t][id], Store) != Some(was) <==> Tenant !in db[t][id].columns && was != store)
  {
    hide W4Step, W4Stage;
    var steps := W4Steps(tenant, store, customers);
    var t := steps[i].table;
    forall j | 0 <= j < |steps| && j != i
      ensures !(steps[j].table == t && Tenant in steps[j].columns) && !(steps[j].table == t && Store in steps[j].columns)
    {
      W4Stages(i, tenant, store, customers);
      W4Stages(j, tenant, store, customers);
      OnlyDirectStepsWriteStores(i, tenant, store, customers);
      OnlyDirectStepsWriteStores(j, tenant, store, customers);
    }
    DirectStoreFate(db, steps, i, tenant, store, id);
  }

  /** The store column of a table that only one step, a direct assignment, writes. */
  lemma DirectStoreFate(db: Db, steps: seq<Step>, i: nat, tenant: nat, store: nat, id: nat)
    requires i < |steps| && steps[i] == DirectAssignTenantStore(steps[i].table, tenant, store)
    requires forall j :: 0 <= j < |steps| && j != i ==>
      !(steps[j].table == steps[i].table && Tenant in steps[j].columns) && !(steps[j].table == steps[i].table && Store in steps[j].columns)
    requires steps[i].table in db && id in db[steps[i].table]
    ensures
      var t := steps[i].table;
      var after := Run(db, steps);
      && t in after && id in after[t]
      && Value(after[t][id], Store) == if Tenant in db[t][id].columns then Value(db[t][id], Store) else Some(store)
  {
    var step := steps[i];
    var t := step.table;
    var before := Run(db, steps[..i]);
    UntouchedByAll(db, steps[..i], t, id, Tenant);
    UntouchedByAll(db, steps[..i], t, id, Store);
    var now := Apply(before, step);
    assert Value(now[t][id], Store) == if Tenant in db[t][id].columns then Value(db[t][id], Store) else Some(store);
    UntouchedByAll(now, steps[i + 1..], t, id, Store);
    assert steps == (steps[..i] + [step]) + steps[i + 1..];
    RunAppend(db, steps[..i] + [step], steps[i + 1..]);
    assert (steps[..i] + [step])[..i] == steps[..i];
    hide Apply;
  }

  /** The other table whose storeId W4 writes, coupon_usages: a row without a tenantId whose order
      exists loses its storeId to the order's final one, NULL included; any other row keeps it. */
  lemma W4CouponUsageStore(db: Db, tenant: nat, store: nat, customers: map<nat, nat>, id: nat)
    requires CouponUsages in db && id in db[CouponUsages]
    ensures
      var after := Run(db, W4Steps(tenant, store, customers));
      var row := db[CouponUsages][id];
      && CouponUsages in after && id in after[CouponUsages] && after.Keys == db.Keys
      && (ParentExists(db, CopyTenantAndStoreFromParent(CouponUsages, OrderId, Orders), row) ==> row.refs[OrderId] in after[Orders])
      && Value(after[CouponUsages][id], Store) ==
         if Tenant in row.columns || !ParentExists(db, CopyTenantAndStoreFromParent(CouponUsages, OrderId, Orders), row)
         then Value(row, Store) else Value(after[Orders][row.refs[OrderId]], Store)
  {
    var steps := W4Steps(tenant, store, customers);
    var step := CopyTenantAndStoreFromParent(CouponUsages, OrderId, Orders);
    var row := db[CouponUsages][id];
    assert steps[21] == step;
    forall j | 0 <= j < |steps|
      ensures j != 21 ==> !(steps[j].table == CouponUsages && Tenant in steps[j].columns) && !(steps[j].table == CouponUsages && Store in steps[j].columns)
      ensures j >= 21 ==> !(steps[j].table == Orders && Tenant in steps[j].columns) && !(steps[j].table == Orders && Store in steps[j].columns)
    {
      CouponUsageSteps(j, tenant, store, customers);
    }
    hide W4Step, W4Stage, Run, Apply;
    RunKeepsRows(db, steps);
    RunKeepsRows(db, steps[..21]);
    if ParentExists(db, step, row) {
      OrderIsFinal(db, tenant, store, customers, row.refs[OrderId]);
    }
    CopiedStoreFate(db, steps, 21, id);
  }

  lemma CouponUsageSteps(j: nat, tenant: nat, store: nat, customers: map<nat, nat>)
    requires j < W4_COUNT
    ensures
      var s := W4Step(j, tenant, store, customers);
      && (j != 21 ==> !(s.table == CouponUsages && Tenant in s.columns) && !(s.table == CouponUsages && Store in s.columns))
      && (j >= 21 ==> !(s.table == Orders && Tenant in s.columns) && !(s.table == Orders && Store in s.columns))
  {
  }

  /** By the time coupon_usages is copied to, its order has its final tenant and store. */
  lemma OrderIsFinal(db: Db, tenant: nat, store: nat, customers: map<nat, nat>, o: nat)
    requires Orders in db && o in db[Orders]
    ensures
      var steps := W4Steps(tenant, store, customers);
      var before, after := Run(db, steps[..21]), Run(db, steps);
      && Orders in before && o in before[Orders] && Orders in after && o in after[Orders]
      && Tenant in before[Orders][o].columns && Value(before[Orders][o], Store) == Value(after[Orders][o], Store)
  {
    var steps := W4Steps(tenant, store, customers);
    var before := Run(db, steps[..21]);
    forall j | 21 <= j < |steps|
      ensures !(steps[j].table == Orders && Tenant in steps[j].columns) && !(steps[j].table == Orders && Store in steps[j].columns)
    {
      CouponUsageSteps(j, tenant, store, customers);
    }
    OrdersGetTenants(db, tenant, store, customers, o);
    hide W4Step, W4Stage, Run;
    FinalByThen(db, steps, 21, Orders, o, Tenant);
    FinalByThen(db, steps, 21, Orders, o, Store);
  }

  /** A column no later step writes already has its final value. */
  lemma FinalByThen(db: Db, steps: seq<Step>, k: nat, t: Table, id: nat, c: Column)
    requires k <= |steps| && t in db && id in db[t]
    requires forall j :: k <= j < |steps| ==> !(steps[j].table == t && c in steps[j].columns)
    ensures
      var before, after := Run(db, steps[..k]), Run(db, steps);
      t in before && id in before[t] && t in after && id in after[t] && Value(before[t][id], c) == Value(after[t][id], c)
  {
    hide Run;
    RunKeepsRows(db, steps[..k]);
    UntouchedByAll(Run(db, steps[..k]), steps[k..], t, id, c);
    assert steps == steps[..k] + steps[k..];
    RunAppend(db, steps[..k], steps[k..]);
  }

  lemma OrdersGetTenants(db: Db, tenant: nat, store: nat, customers: map<nat, nat>, o: nat)
    requires Orders in db && o in db[Orders]
    ensures
      var after := Run(db, W4Steps(tenant, store, customers));
      Orders in after && o in after[Orders] && Tenant in after[Orders][o].columns
  {
    var steps := W4Steps(tenant, store, customers);
    LastSteps(tenant, store, customers);
    W4IsWellOrdered(tenant, store, customers);
    hide W4Step, W4Stage, Run, WellOrdered;
    FinalValue(db, steps, Orders, o, Tenant);
    OfferedSomewhere(Run(db, steps), steps, 12, db[Orders][o]);
  }

  /** The store of a row that only step `k` writes, copying it with the tenant from a parent row
      that is final by then. */
  lemma CopiedStoreFate(db: Db, steps: seq<Step>, k: nat, id: nat)
    requires k < |steps| && steps[k] == CopyTenantAndStoreFromParent(CouponUsages, OrderId, Orders)
    requires forall j :: 0 <= j < |steps| && j != k ==>
      !(steps[j].table == CouponUsages && Tenant in steps[j].columns) && !(steps[j].table == CouponUsages && Store in steps[j].columns)
    requires CouponUsages in db && id in db[CouponUsages]
    requires
      var row := db[CouponUsages][id];
      var before, after := Run(db, steps[..k]), Run(db, steps);
      ParentExists(db, steps[k], row) ==>
        && Orders in before && row.refs[OrderId] in before[Orders] && Orders in after && row.refs[OrderId] in after[Orders]
        && Tenant in before[Orders][row.refs[OrderId]].columns
        && Value(before[Orders][row.refs[OrderId]], Store) == Value(after[Orders][row.refs[OrderId]], Store)
    ensures
      var row := db[CouponUsages][id];
      var after := Run(db, steps);
      && CouponUsages in after && id in after[CouponUsages]
      && Value(after[CouponUsages][id], Store) ==
         if Tenant in row.columns || !ParentExists(db, steps[k], row) then Value(row, Store)
         else Value(after[Orders][row.refs[OrderId]], Store)
  {
    hide Run;
    var row, before := db[CouponUsages][id], Run(db, steps[..k]);
    RunKeepsRows(db, steps[..k]);
    UntouchedByAll(db, steps[..k], CouponUsages, id, Tenant);
    UntouchedByAll(db, steps[..k], CouponUsages, id, Store);
    var now := Apply(before, steps[k]);
    CopyOnce(before, steps[k], id);
    assert before[CouponUsages][id].refs == row.refs;
    hide Apply;
    ApplyKeepsRows(before, steps[k]);
    UntouchedByAll(now, steps[k + 1..], CouponUsages, id, Store);
    assert steps == (steps[..k] + [steps[k]]) + steps[k + 1..];
    RunAppend(db, steps[..k] + [steps[k]], steps[k + 1..]);
    RunOneMore(db, steps[..k], steps[k]);
  }

  lemma RunOneMore(db: Db, steps: seq<Step>, s: Step)
    ensures Run(db, steps + [s]) == Apply(Run(db, steps), s)
  {
    assert (steps + [s])[..|steps|] == steps;
  }

  lemma CopyOnce(d: Db, step: Step, id: nat)
    requires step == CopyTenantAndStoreFromParent(CouponUsages, OrderId, Orders) && CouponUsages in d && id in d[CouponUsages]
    ensures
      var row := d[CouponUsages][id];
      Value(Apply(d, step)[CouponUsages][id], Store) ==
      if Tenant !in row.columns && ParentExists(d, step, row) && Tenant in d[Orders][row.refs[OrderId]].columns
      then Value(d[Orders][row.refs[OrderId]], Store) else Value(row, Store)
  {
  }

  lemma OnlyDirectStepsWriteStores(j: nat, tenant: nat, store: nat, customers: map<nat, nat>)
    requires j < W4_COUNT
    ensures
      var s := W4Step(j, tenant, store, customers);
      && (Store in s.columns ==> s.guard == Tenant && s.table != IdempotencyKeys)
      && (s.guard == Tenant && s.table != IdempotencyKeys ==> j == W4Stage(s.table, Tenant))
  {
  }

  // ---------------------------------------------------------------------------------------------
  // Completeness
  // ---------------------------------------------------------------------------------------------

  /** The mandatory references: every copied-from parent exists, except that an idempotency key may
      have no order yet and an outbox event may belong to something other than an order. */
  ghost predicate RefsHold(db: Db) {
    forall i, id ::
      0 <= i < W4_COUNT && i != 25 && i != 28 && W4Step(i, 0, 0, map[]).source.Parent? &&
      W4Step(i, 0, 0, map[]).table in db && id in db[W4Step(i, 0, 0, map[]).table] ==>
      ParentExists(db, W4Step(i, 0, 0, map[]), db[W4Step(i, 0, 0, map[]).table][id])
  }

  predicate ParentExists(db: Db, step: Step, row: Row) {
    && step.source.Parent? && step.source.fk in row.refs && step.source.parent in db
    && row.refs[step.source.fk] in db[step.source.parent]
  }

  ghost predicate OnlyTenant(db: Db, tenant: nat) {
    forall t, id :: t in db && id in db[t] && Tenant in db[t][id].columns ==> db[t][id].columns[Tenant] == tenant
  }

  lemma {:induction false} OnlyTenantKept(db: Db, steps: seq<Step>, tenant: nat)
    requires OnlyTenant(db, tenant)
    requires forall s :: s in steps ==>
      (s.source.Constant? && Tenant in s.source.values ==> s.source.values[Tenant] == tenant) && (s.source.UserJoin? ==> s.guard == Customer)
    ensures OnlyTenant(Run(db, steps), tenant)
  {
    if steps != [] {
      OnlyTenantKept(db, steps[..|steps| - 1], tenant);
      StepKeepsTenant(Run(db, steps[..|steps| - 1]), steps[|steps| - 1], tenant);
      hide OnlyTenant, Apply;
    }
  }

  lemma StepKeepsTenant(db: Db, s: Step, tenant: nat)
    requires OnlyTenant(db, tenant)
    requires (s.source.Constant? && Tenant in s.source.values ==> s.source.values[Tenant] == tenant) && (s.source.UserJoin? ==> s.guard == Customer)
    ensures OnlyTenant(Apply(db, s), tenant)
  {
  }

  /** After W4 every row filled by step `i` has a tenant: follow the references up to a table that is
      assigned directly. */
  lemma {:induction false} RowsFilled(db: Db, tenant: nat, store: nat, customers: map<nat, nat>, i: nat, id: nat)
    requires RefsHold(db) && i < W4_COUNT && i != 25 && i != 28
    requires W4Step(i, tenant, store, customers).guard == Tenant
    requires
      var t := W4Step(i, tenant, store, customers).table;
      t in db && id in db[t]
    ensures
      var t := W4Step(i, tenant, store, customers).table;
      var after := Run(db, W4Steps(tenant, store, customers));
      t in after && id in after[t] && Tenant in after[t][id].columns
    decreases i
  {
    hide W4Step, W4Stage, WellOrdered, Run, FirstOffer;
    var steps := W4Steps(tenant, store, customers);
    var step := steps[i];
    var row := db[step.table][id];
    var after := Run(db, steps);
    W4IsWellOrdered(tenant, store, customers);
    RunKeepsRows(db, steps);
    FinalValue(db, steps, step.table, id, Tenant);
    W4Stages(i, tenant, store, customers);
    if step.source.Parent? {
      SameShape(i, tenant, store, customers);
      assert ParentExists(db, W4Step(i, 0, 0, map[]), row);
      ParentsAreFilled(i, tenant, store, customers);
      RowsFilled(db, tenant, store, customers, W4Stage(step.source.parent, Tenant), row.refs[step.source.fk]);
    }
    TenantSources(i, tenant, store, customers);
    OfferedSomewhere(after, steps, i, row);
  }

  lemma TenantSources(i: nat, tenant: nat, store: nat, customers: map<nat, nat>)
    requires i < W4_COUNT && W4Step(i, tenant, store, customers).guard == Tenant
    ensures
      var source := W4Step(i, tenant, store, customers).source;
      && !source.UserJoin? && (source.Constant? ==> Tenant in source.values)
      && (source.Parent? && i != 28 ==> source.onlyType.None?)
  {
  }

  lemma SameShape(i: nat, tenant: nat, store: nat, customers: map<nat, nat>)
    requires i < W4_COUNT
    ensures
      var a, b := W4Step(i, tenant, store, customers), W4Step(i, 0, 0, map[]);
      a.table == b.table && (a.source.Parent? ==> b.source == a.source)
  {
  }

  lemma ParentsAreFilled(i: nat, tenant: nat, store: nat, customers: map<nat, nat>)
    requires i < W4_COUNT && W4Step(i, tenant, store, customers).source.Parent?
    ensures
      var parent := W4Step(i, tenant, store, customers).source.parent;
      var k := W4Stage(parent, Tenant);
      && k < W4_COUNT && k != 25 && k != 28
      && W4Step(k, tenant, store, customers).table == parent && W4Step(k, tenant, store, customers).guard == Tenant
  {
  }

  /** W4 on a database that holds one tenant's data: every row ends with that tenant, except that an
      outbox event does exactly when it had it or belongs to an existing order. */
  lemma W4Completes(db: Db, tenant: nat, store: nat, customers: map<nat, nat>, i: nat, id: nat)
    requires RefsHold(db) && OnlyTenant(db, tenant) && i < W4_COUNT && W4Step(i, tenant, store, customers).guard == Tenant
    requires
      var t := W4Step(i, tenant, store, customers).table;
      t in db && id in db[t]
    ensures
      var t := W4Step(i, tenant, store, customers).table;
      var after := Run(db, W4Steps(tenant, store, customers));
      var row := db[t][id];
      && t in after && id in after[t]
      && (Value(after[t][id], Tenant) == Some(tenant) || Value(after[t][id], Tenant).None?)
      && (Value(after[t][id], Tenant).Some? <==>
            t != OutboxEvents || Tenant in row.columns ||
            (row.aggregateType == "Order" && ParentExists(db, W4Step(28, tenant, store, customers), row)))
  {
    LastSteps(tenant, store, customers);
    ConstantsNameTheTenant(i, tenant, store, customers);
    hide W4Step, W4Stage, RefsHold, WellOrdered, Run;
    var steps := W4Steps(tenant, store, customers);
    W4IsWellOrdered(tenant, store, customers);
    RunKeepsRows(db, steps);
    forall k | 0 <= k < |steps|
      ensures steps[k].source.Constant? && Tenant in steps[k].source.values ==> steps[k].source.values[Tenant] == tenant
      ensures steps[k].source.UserJoin? ==> steps[k].guard == Customer
    {
      ConstantsNameTheTenant(k, tenant, store, customers);
    }
    OnlyTenantKept(db, steps, tenant);
    if i == 28 {
      OutboxFilled(db, tenant, store, customers, id);
    } else {
      RowsFilled(db, tenant, store, customers, if i == 25 then 26 else i, id);
    }
  }

  lemma ConstantsNameTheTenant(k: nat, tenant: nat, store: nat, customers: map<nat, nat>)
    requires k < W4_COUNT
    ensures
      var s := W4Step(k, tenant, store, customers);
      && (s.source.Constant? && Tenant in s.source.values ==> s.source.values[Tenant] == tenant)
      && (s.source.UserJoin? ==> s.guard == Customer)
      && (s.table == OutboxEvents ==> k == 28)
  {
  }

  lemma LastSteps(tenant: nat, store: nat, customers: map<nat, nat>)
    ensures W4Step(25, tenant, store, customers).table == W4Step(26, tenant, store, customers).table == IdempotencyKeys
    ensures W4Step(26, tenant, store, customers) == DirectAssignTenant(IdempotencyKeys, tenant)
    ensures W4Step(28, tenant, store, customers) == Step(OutboxEvents, Tenant, {Tenant}, Parent(AggregateId, Orders, Some("Order")))
    ensures W4Step(12, tenant, store, customers) == DirectAssignTenantStore(Orders, tenant, store)
  {
  }

  lemma OutboxFilled(db: Db, tenant: nat, store: nat, customers: map<nat, nat>, id: nat)
    requires RefsHold(db) && OutboxEvents in db && id in db[OutboxEvents]
    ensures
      var after := Run(db, W4Steps(tenant, store, customers));
      var row := db[OutboxEvents][id];
      && OutboxEvents in after && id in after[OutboxEvents]
      && (Tenant in after[OutboxEvents][id].columns <==>
            Tenant in row.columns || (row.aggregateType == "Order" && ParentExists(db, W4Step(28, tenant, store, customers), row)))
  {
    LastSteps(tenant, store, customers);
    hide W4Step, W4Stage, RefsHold, WellOrdered, Run;
    var steps := W4Steps(tenant, store, customers);
    var row := db[OutboxEvents][id];
    var after := Run(db, steps);
    W4IsWellOrdered(tenant, store, customers);
    RunKeepsRows(db, steps);
    FinalValue(db, steps, OutboxEvents, id, Tenant);
    forall k | 0 <= k < |steps| && k != 28
      ensures steps[k].table != OutboxEvents
    {
      ConstantsNameTheTenant(k, tenant, store, customers);
    }
    OfferedOnce(after, steps, 28, row);
    if ParentExists(db, steps[28], row) {
      RowsFilled(db, tenant, store, customers, 12, row.refs[AggregateId]);
    }
  }

  /** W6's own completeness check: a table has no NULL storeId left exactly when every row that had
      none refers to a parent that ends with one. */
  lemma W6CompleteIff(db: Db, k: nat)
    requires k < W6_COUNT && W6Step(k).table in db
    ensures
      var step := W6Step(k);
      var after := Run(db, W6Steps());
      NullRows(after, step.table, Store) == {} <==>
      forall id :: id in db[step.table] && Store !in db[step.table][id].columns ==>
        ParentExists(db, step, db[step.table][id]) &&
        step.source.parent in after && db[step.table][id].refs[step.source.fk] in after[step.source.parent] &&
        Store in after[step.source.parent][db[step.table][id].refs[step.source.fk]].columns
  {
    hide W6Step, WellOrdered, Run, FirstOffer;
    var steps := W6Steps();
    var step := steps[k];
    var after: Db := Run(db, steps);
    W6IsWellOrdered();
    RunKeepsRows(db, steps);
    W6StepsDiffer(k);
    forall id | id in db[step.table]
      ensures Store in after[step.table][id].columns <==>
        Store in db[step.table][id].columns || Store in Offer(after, step.source, db[step.table][id])
    {
      FinalValue(db, steps, step.table, id, Store);
      OfferedOnce(after, steps, k, db[step.table][id]);
    }
    assert NullRows(after, step.table, Store) == {} <==> forall id :: id in db[step.table] ==> Store in after[step.table][id].columns by {
      forall id | id in db[step.table] && Store !in after[step.table][id].columns
        ensures id in NullRows(after, step.table, Store)
      {
      }
    }
  }

  lemma W6StepsDiffer(k: nat)
    requires k < W6_COUNT
    ensures W6Step(k) == CopyStoreFromParent(W6Step(k).table, W6Step(k).source.fk, W6Step(k).source.parent)
    ensures forall j :: 0 <= j < W6_COUNT && j != k ==> W6Step(j).table != W6Step(k).table
  {
  }
}
