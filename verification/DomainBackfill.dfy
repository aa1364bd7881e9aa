/**
 * The store-domain backfill: four steps that give every store a classified set of domains with one
 * primary, and the reconciliation that checks the result.
 */
module DomainBackfill {
  import opened Prelude
  import opened DomainRows
  import opened PlatformHostnames

  /** A stores row; its id is its position, and rows are in creation order. */
  datatype Store = Store(tenant: nat, slug: string, isPrimary: bool)

  datatype Db = Db(stores: seq<Store>, domains: seq<Domain>, mode: Option<string>)

  /** What a step reports: rows affected and anomalies left for a human. */
  datatype Report = Report(affected: nat, anomalies: nat)

  const TENANT_1_HOSTNAME := "www.printforge.world"
  const LEGACY_MODE := "legacy"

  // ---------------------------------------------------------------------------------------------
  // Queries
  // ---------------------------------------------------------------------------------------------

  predicate HasPlatformRow(db: Db, s: nat) {
    exists i :: 0 <= i < |db.domains| && db.domains[i].store == s && db.domains[i].kind == Some(PlatformSubdomain)
  }

  predicate HasPrimaryRow(db: Db, s: nat) {
    exists i :: 0 <= i < |db.domains| && db.domains[i].store == s && db.domains[i].isPrimary
  }

  /** findUnique by hostname. */
  function Holder(domains: seq<Domain>, hostname: string): (r: Option<nat>)
    ensures r.Some? ==> r.value < |domains| && domains[r.value].hostname == hostname
    ensures r.None? ==> forall i :: 0 <= i < |domains| ==> domains[i].hostname != hostname
  {
    if domains == [] then None
    else if domains[|domains| - 1].hostname == hostname then Some(|domains| - 1)
    else Holder(domains[..|domains| - 1], hostname)
  }

  /** The tenant's primary store; there is at most one. */
  function PrimaryStore(stores: seq<Store>, tenant: nat): (r: Option<nat>)
    ensures r.Some? ==> r.value < |stores| && stores[r.value].tenant == tenant && stores[r.value].isPrimary
    ensures r.None? ==> forall i :: 0 <= i < |stores| ==> !(stores[i].tenant == tenant && stores[i].isPrimary)
  {
    if stores == [] then None
    else if stores[|stores| - 1].tenant == tenant && stores[|stores| - 1].isPrimary then Some(|stores| - 1)
    else PrimaryStore(stores[..|stores| - 1], tenant)
  }

  // ---------------------------------------------------------------------------------------------
  // B-1: classify
  // ---------------------------------------------------------------------------------------------

  function Classified(d: Domain, platform: string): Domain {
    if d.kind.Some? then d
    else d.(kind := Some(if IsUnderPlatformDomain(d.hostname, platform) then PlatformSubdomain else Custom))
  }

  function ClassifyAll(domains: seq<Domain>, platform: string): (r: seq<Domain>)
    ensures |r| == |domains| && forall i :: 0 <= i < |r| ==> r[i] == Classified(domains[i], platform)
  {
    if domains == [] then []
    else ClassifyAll(domains[..|domains| - 1], platform) + [Classified(domains[|domains| - 1], platform)]
  }

  function CountUntyped(domains: seq<Domain>): nat {
    if domains == [] then 0
    else CountUntyped(domains[..|domains| - 1]) + (if domains[|domains| - 1].kind.None? then 1 else 0)
  }

  function B1(db: Db, platform: string): Db {
    db.(domains := ClassifyAll(db.domains, platform))
  }

  // ---------------------------------------------------------------------------------------------
  // B-2: provision
  // ---------------------------------------------------------------------------------------------

  datatype Provision = AlreadyThere | Collision | Inserts(row: Domain) | Clash

  /** What B-2 does for one store. A store's own custom row under the derived name makes the insert
      hit the unique hostname index. */
  function ProvisionOf(db: Db, platform: string, s: nat): Provision
    requires s < |db.stores|
  {
    var hostname := DerivePlatformHostname(db.stores[s].slug, platform);
    var holder := Holder(db.domains, hostname);
    if HasPlatformRow(db, s) then AlreadyThere
    else if holder.Some? && db.domains[holder.value].store != s then Collision
    else if holder.Some? then Clash
    else Inserts(Domain(s, db.stores[s].tenant, hostname, !HasPrimaryRow(db, s), Some(PlatformSubdomain), Verified, None))
  }

  /** B-2 for the first `n` stores; it throws at the first clash. */
  function B2(db: Db, platform: string, n: nat): TxResult<Db, Report>
    requires n <= |db.stores|
    ensures B2(db, platform, n).Commit? ==> B2(db, platform, n).db.stores == db.stores
  {
    if n == 0 then Commit(db, Report(0, 0))
    else
      match B2(db, platform, n - 1)
      case Rollback(e) => Rollback(e)
      case Commit(d, r) =>
        match ProvisionOf(d, platform, n - 1)
        case AlreadyThere => Commit(d, r)
        case Collision => Commit(d, r.(anomalies := r.anomalies + 1))
        case Inserts(row) => Commit(d.(domains := d.domains + [row]), r.(affected := r.affected + 1))
        case Clash => Rollback(UniqueViolation)
  }

  // ---------------------------------------------------------------------------------------------
  // B-3 and B-4
  // ---------------------------------------------------------------------------------------------

  function DemoteAll(domains: seq<Domain>, s: nat): (r: seq<Domain>)
    ensures |r| == |domains|
    ensures forall i :: 0 <= i < |r| ==> r[i] == if domains[i].store == s then domains[i].(isPrimary := false) else domains[i]
  {
    if domains == [] then []
    else
      var last := domains[|domains| - 1];
      DemoteAll(domains[..|domains| - 1], s) + [if last.store == s then last.(isPrimary := false) else last]
  }

  function B3(db: Db, tenant: nat): (Db, Report) {
    match PrimaryStore(db.stores, tenant)
    case None => (db, Report(0, 1))
    case Some(s) =>
      match Holder(db.domains, TENANT_1_HOSTNAME)
      case None =>
        var row := Domain(s, tenant, TENANT_1_HOSTNAME, true, Some(Custom), Verified, Some(Issued));
        (db.(domains := DemoteAll(db.domains, s) + [row]), Report(1, 0))
      case Some(i) =>
        if db.domains[i].store != s then (db, Report(0, 1))
        else if db.domains[i].isPrimary then (db, Report(0, 0))
        else
          var demoted := DemoteAll(db.domains, s);
          (db.(domains := demoted[i := demoted[i].(isPrimary := true)]), Report(1, 0))
  }

  function B4(db: Db): (Db, Report) {
    match db.mode
    case None => (db.(mode := Some(LEGACY_MODE)), Report(1, 0))
    case Some(m) => (db, Report(0, if m == LEGACY_MODE then 0 else 1))
  }

  /** runAllSteps; it throws only in B-2. */
  function RunAll(db: Db, tenant: nat, platform: string): TxResult<Db, Report> {
    var d1 := B1(db, platform);
    match B2(d1, platform, |d1.stores|)
    case Rollback(e) => Rollback(e)
    case Commit(d2, r2) =>
      var (d3, r3) := B3(d2, tenant);
      var (d4, r4) := B4(d3);
      Commit(d4, Report(CountUntyped(db.domains) + r2.affected + r3.affected + r4.affected, r2.anomalies + r3.anomalies + r4.anomalies))
  }

  // ---------------------------------------------------------------------------------------------
  // Reconciliation
  // ---------------------------------------------------------------------------------------------

  function CountPlatform(domains: seq<Domain>, s: nat): nat {
    if domains == [] then 0
    else
      var last := domains[|domains| - 1];
      CountPlatform(domains[..|domains| - 1], s) + (if last.store == s && last.kind == Some(PlatformSubdomain) then 1 else 0)
  }

  function CountPrimary(domains: seq<Domain>, s: nat): nat {
    if domains == [] then 0
    else
      var last := domains[|domains| - 1];
      CountPrimary(domains[..|domains| - 1], s) + (if last.store == s && last.isPrimary then 1 else 0)
  }

  /** findFirst of the tenant's primary domains, without an order: `pick` is the row it returned. */
  predicate ReturnsPrimary(db: Db, tenant: nat, pick: Option<nat>) {
    if pick.Some? then pick.value < |db.domains| && db.domains[pick.value].tenant == tenant && db.domains[pick.value].isPrimary
    else forall i :: 0 <= i < |db.domains| ==> !(db.domains[i].tenant == tenant && db.domains[i].isPrimary)
  }

  datatype Reconciliation = Reconciliation(
    untyped: nat, withoutPlatform: nat, withoutPrimary: nat, withSeveralPrimaries: nat,
    tenantPrimary: Option<string>, mode: Option<string>)

  /** reconciliationVerdicts: all five pass. */
  predicate AllPass(r: Reconciliation) {
    && r.untyped == 0
    && r.withoutPlatform == 0
    && r.withoutPrimary == 0 && r.withSeveralPrimaries == 0
    && r.tenantPrimary == Some(TENANT_1_HOSTNAME)
    && r.mode == Some(LEGACY_MODE)
  }

  /** What the five verdicts are meant to establish. */
  ghost predicate Reconciled(db: Db, pick: Option<nat>) {
    && (forall i :: 0 <= i < |db.domains| ==> db.domains[i].kind.Some?)
    && (forall s: nat :: s < |db.stores| ==> HasPlatformRow(db, s))
    && OneEach(db)
    && pick.Some? && pick.value < |db.domains| && db.domains[pick.value].hostname == TENANT_1_HOSTNAME
    && db.mode == Some(LEGACY_MODE)
  }

  lemma {:induction false} NoneUntyped(domains: seq<Domain>)
    ensures CountUntyped(domains) == 0 <==> forall i :: 0 <= i < |domains| ==> domains[i].kind.Some?
  {
    if domains != [] {
      NoneUntyped(domains[..|domains| - 1]);
    }
  }

  lemma {:induction false} SomePlatform(db: Db, s: nat)
    ensures CountPlatform(db.domains, s) > 0 <==> HasPlatformRow(db, s)
    decreases |db.domains|
  {
    if db.domains != [] {
      var n := |db.domains| - 1;
      var front := db.(domains := db.domains[..n]);
      SomePlatform(front, s);
      AppendPrimary(front, db.domains[n], s);
      assert db == front.(domains := front.domains + [db.domains[n]]);
      hide HasPlatformRow;
    }
  }

  lemma {:induction false} PrimaryCount(db: Db, s: nat)
    requires OnePrimaryPerStore(db.domains)
    ensures CountPrimary(db.domains, s) == if HasPrimaryRow(db, s) then 1 else 0
    decreases |db.domains|
  {
    if db.domains != [] {
      var n := |db.domains| - 1;
      var front := db.(domains := db.domains[..n]);
      PrimaryCount(front, s);
      AppendPrimary(front, db.domains[n], s);
      assert db == front.(domains := front.domains + [db.domains[n]]);
      if db.domains[n].isPrimary {
        NotBoth(front, db.domains[n]);
      }
      hide HasPrimaryRow, OnePrimaryPerStore;
    }
  }

  lemma NotBoth(front: Db, last: Domain)
    requires OnePrimaryPerStore(front.domains + [last]) && last.isPrimary
    ensures !HasPrimaryRow(front, last.store)
  {
    var all := front.domains + [last];
    forall i | 0 <= i < |front.domains|
      ensures !(front.domains[i].store == last.store && front.domains[i].isPrimary)
    {
      assert all[i] == front.domains[i] && all[|front.domains|] == last;
    }
  }

  // ---------------------------------------------------------------------------------------------
  // What the steps keep
  // ---------------------------------------------------------------------------------------------

  /** The unique hostname index and the partial unique index on primaries. */
  ghost predicate DistinctHostnames(domains: seq<Domain>) {
    forall i, j :: 0 <= i < j < |domains| ==> domains[i].hostname != domains[j].hostname
  }

  ghost predicate OnePrimaryPerStore(domains: seq<Domain>) {
    forall i, j :: 0 <= i < j < |domains| ==> !(domains[i].store == domains[j].store && domains[i].isPrimary && domains[j].isPrimary)
  }

  ghost predicate Wf(db: Db) {
    && DistinctHostnames(db.domains) && OnePrimaryPerStore(db.domains)
    && (forall i :: 0 <= i < |db.domains| ==>
          db.domains[i].store < |db.stores| && db.domains[i].tenant == db.stores[db.domains[i].store].tenant)
  }

  ghost predicate AllTyped(domains: seq<Domain>) {
    forall i :: 0 <= i < |domains| ==> domains[i].kind.Some?
  }

  lemma B1Keeps(db: Db, platform: string)
    requires Wf(db)
    ensures Wf(B1(db, platform)) && AllTyped(B1(db, platform).domains)
    ensures forall s :: HasPrimaryRow(B1(db, platform), s) <==> HasPrimaryRow(db, s)
  {
    hide ClassifyAll;
    var d := B1(db, platform);
    forall s
      ensures HasPrimaryRow(d, s) <==> HasPrimaryRow(db, s)
    {
      if HasPrimaryRow(db, s) {
        var i :| 0 <= i < |db.domains| && db.domains[i].store == s && db.domains[i].isPrimary;
        assert d.domains[i].store == s && d.domains[i].isPrimary;
      }
    }
  }

  lemma AppendPrimary(db: Db, row: Domain, s: nat)
    ensures HasPrimaryRow(db.(domains := db.domains + [row]), s) <==> HasPrimaryRow(db, s) || (row.store == s && row.isPrimary)
    ensures HasPlatformRow(db.(domains := db.domains + [row]), s) <==> HasPlatformRow(db, s) || (row.store == s && row.kind == Some(PlatformSubdomain))
  {
    var d := db.(domains := db.domains + [row]);
    if HasPrimaryRow(db, s) {
      var i :| 0 <= i < |db.domains| && db.domains[i].store == s && db.domains[i].isPrimary;
      assert d.domains[i] == db.domains[i];
    }
    if HasPlatformRow(db, s) {
      var i :| 0 <= i < |db.domains| && db.domains[i].store == s && db.domains[i].kind == Some(PlatformSubdomain);
      assert d.domains[i] == db.domains[i];
    }
    assert d.domains[|db.domains|] == row;
  }

  /** B-2 left store `s` alone for good: it has its row, or its hostname is another store's. */
  ghost predicate Provisioned(db: Db, platform: string, s: nat)
    requires s < |db.stores|
  {
    || HasPlatformRow(db, s)
    || exists i :: 0 <= i < |db.domains| && db.domains[i].store != s && db.domains[i].hostname == DerivePlatformHostname(db.stores[s].slug, platform)
  }

  lemma InsertKeeps(d: Db, platform: string, s: nat)
    requires s < |d.stores| && ProvisionOf(d, platform, s).Inserts? && Wf(d) && AllTyped(d.domains)
    ensures
      var d' := d.(domains := d.domains + [ProvisionOf(d, platform, s).row]);
      && Wf(d') && AllTyped(d'.domains) && HasPlatformRow(d', s) && HasPrimaryRow(d', s)
      && (forall t :: t != s ==> (HasPrimaryRow(d', t) <==> HasPrimaryRow(d, t)) && (HasPlatformRow(d', t) <==> HasPlatformRow(d, t)))
  {
    var row := ProvisionOf(d, platform, s).row;
    var d' := d.(domains := d.domains + [row]);
    forall t
      ensures HasPrimaryRow(d', t) <==> HasPrimaryRow(d, t) || (row.store == t && row.isPrimary)
      ensures HasPlatformRow(d', t) <==> HasPlatformRow(d, t) || (row.store == t && row.kind == Some(PlatformSubdomain))
    {
      AppendPrimary(d, row, t);
    }
    forall i | 0 <= i < |d.domains|
      ensures !(d.domains[i].store == row.store && d.domains[i].isPrimary && row.isPrimary)
    {
    }
    hide HasPrimaryRow, HasPlatformRow, Holder, DerivePlatformHostname;
  }

  /** After the first `n` stores: what each store has, against what it had before. */
  lemma {:induction false} B2Keeps(db: Db, platform: string, n: nat)
    requires Wf(db) && AllTyped(db.domains) && n <= |db.stores| && B2(db, platform, n).Commit?
    ensures
      var d := B2(db, platform, n).db;
      var clean := B2(db, platform, n).value.anomalies == 0;
      && d.stores == db.stores && d.mode == db.mode && Wf(d) && AllTyped(d.domains)
      && (forall s :: n <= s ==> (HasPrimaryRow(d, s) <==> HasPrimaryRow(db, s)) && (HasPlatformRow(d, s) <==> HasPlatformRow(db, s)))
      && (forall s: nat :: s < n ==> Provisioned(d, platform, s))
      && (forall s: nat :: s < n && clean ==> HasPlatformRow(d, s))
      && (forall s: nat :: s < n && clean ==> (HasPrimaryRow(d, s) <==> HasPrimaryRow(db, s) || !HasPlatformRow(db, s)))
  {
    hide Wf, HasPrimaryRow, HasPlatformRow, AllTyped, Provisioned, ProvisionOf;
    if n > 0 {
      var s := n - 1;
      B2Keeps(db, platform, s);
      var d0 := B2(db, platform, s).db;
      var p := ProvisionOf(d0, platform, s);
      var d := B2(db, platform, n).db;
      if p.Inserts? {
        InsertKeeps(d0, platform, s);
        forall t: nat | t < s
          ensures Provisioned(d, platform, t)
        {
          ProvisionedStays(d0, d, platform, t);
        }
      }
      ProvisionMeans(d0, platform, s);
      ProvisionMeans(d, platform, s);
    }
  }

  lemma ProvisionMeans(d: Db, platform: string, s: nat)
    requires s < |d.stores|
    ensures ProvisionOf(d, platform, s).AlreadyThere? <==> HasPlatformRow(d, s)
    ensures HasPlatformRow(d, s) || ProvisionOf(d, platform, s).Collision? ==> Provisioned(d, platform, s)
  {
    hide HasPlatformRow, HasPrimaryRow, DerivePlatformHostname;
  }

  /** Rows keep their store and hostname, and platform rows stay platform rows. */
  lemma ProvisionedStays(d: Db, d': Db, platform: string, s: nat)
    requires s < |d.stores| && d'.stores == d.stores && Provisioned(d, platform, s)
    requires |d.domains| <= |d'.domains|
    requires forall i :: 0 <= i < |d.domains| ==>
      d'.domains[i].store == d.domains[i].store && d'.domains[i].hostname == d.domains[i].hostname && d'.domains[i].kind == d.domains[i].kind
    ensures Provisioned(d', platform, s)
  {
    if HasPlatformRow(d, s) {
      var i :| 0 <= i < |d.domains| && d.domains[i].store == s && d.domains[i].kind == Some(PlatformSubdomain);
      assert d'.domains[i].store == s && d'.domains[i].kind == Some(PlatformSubdomain);
    } else {
      var i :| 0 <= i < |d.domains| && d.domains[i].store != s && d.domains[i].hostname == DerivePlatformHostname(d.stores[s].slug, platform);
      assert d'.domains[i].store != s && d'.domains[i].hostname == DerivePlatformHostname(d.stores[s].slug, platform);
    }
  }

  /** B-3 moves only the primary of the tenant's primary store. */
  lemma B3Keeps(db: Db, tenant: nat)
    requires Wf(db) && AllTyped(db.domains)
    ensures
      var (d, r) := B3(db, tenant);
      var s := PrimaryStore(db.stores, tenant);
      && d.stores == db.stores && d.mode == db.mode && Wf(d) && AllTyped(d.domains)
      && |db.domains| <= |d.domains|
      && (forall i :: 0 <= i < |db.domains| ==> d.domains[i] == db.domains[i].(isPrimary := d.domains[i].isPrimary))
      && (forall i :: 0 <= i < |db.domains| && Some(db.domains[i].store) != s ==> d.domains[i] == db.domains[i])
      && (forall i :: |db.domains| <= i < |d.domains| ==> Some(d.domains[i].store) == s && d.domains[i].kind == Some(Custom))
      && (r.anomalies == 0 ==>
            s.Some? && exists i :: 0 <= i < |d.domains| && d.domains[i].store == s.value && d.domains[i].isPrimary && d.domains[i].hostname == TENANT_1_HOSTNAME)
  {
    hide DemoteAll, Wf, AllTyped, Holder, PrimaryStore;
    var (d, r) := B3(db, tenant);
    var s := PrimaryStore(db.stores, tenant);
    var holder := Holder(db.domains, TENANT_1_HOSTNAME);
    if s.Some? {
      if holder.None? {
        RegisterKeeps(db, s.value, tenant);
      } else if db.domains[holder.value].store == s.value {
        PromoteKeeps(db, s.value, holder.value);
      }
    }
    if r.anomalies == 0 {
      var i := if holder.Some? then holder.value else |db.domains|;
      assert d.domains[i].store == s.value && d.domains[i].isPrimary && d.domains[i].hostname == TENANT_1_HOSTNAME;
    }
  }

  /** A new primary row of a store whose other domains are demoted. */
  lemma RegisterKeeps(db: Db, s: nat, tenant: nat)
    requires Wf(db) && AllTyped(db.domains) && s < |db.stores| && db.stores[s].tenant == tenant
    requires forall i :: 0 <= i < |db.domains| ==> db.domains[i].hostname != TENANT_1_HOSTNAME
    ensures
      var row := Domain(s, tenant, TENANT_1_HOSTNAME, true, Some(Custom), Verified, Some(Issued));
      var domains := DemoteAll(db.domains, s) + [row];
      Wf(db.(domains := domains)) && AllTyped(domains)
  {
    hide DemoteAll;
  }

  lemma PromoteKeeps(db: Db, s: nat, i: nat)
    requires Wf(db) && AllTyped(db.domains) && i < |db.domains| && db.domains[i].store == s
    ensures
      var demoted := DemoteAll(db.domains, s);
      var domains := demoted[i := demoted[i].(isPrimary := true)];
      Wf(db.(domains := domains)) && AllTyped(domains)
  {
    hide DemoteAll;
  }

  lemma B3Rows(db: Db, tenant: nat, t: nat)
    requires Wf(db) && AllTyped(db.domains)
    ensures HasPlatformRow(B3(db, tenant).0, t) <==> HasPlatformRow(db, t)
    ensures Some(t) != PrimaryStore(db.stores, tenant) ==> (HasPrimaryRow(B3(db, tenant).0, t) <==> HasPrimaryRow(db, t))
  {
    B3Keeps(db, tenant);
    hide B3;
    var d := B3(db, tenant).0;
    if HasPlatformRow(db, t) {
      var i :| 0 <= i < |db.domains| && db.domains[i].store == t && db.domains[i].kind == Some(PlatformSubdomain);
      assert d.domains[i].store == t && d.domains[i].kind == Some(PlatformSubdomain);
    }
    if HasPrimaryRow(db, t) && Some(t) != PrimaryStore(db.stores, tenant) {
      var i :| 0 <= i < |db.domains| && db.domains[i].store == t && db.domains[i].isPrimary;
      assert d.domains[i].store == t && d.domains[i].isPrimary;
    }
  }

  // ---------------------------------------------------------------------------------------------
  // Writer meets checker
  // ---------------------------------------------------------------------------------------------

  /** The named tenant has one store, its primary one. */
  ghost predicate OnlyStore(db: Db, tenant: nat, s: nat) {
    && s < |db.stores| && db.stores[s].isPrimary
    && forall t: nat :: t < |db.stores| ==> (db.stores[t].tenant == tenant <==> t == s)
  }

  lemma CleanRunIs(db: Db, tenant: nat, platform: string)
    requires RunAll(db, tenant, platform).Commit? && RunAll(db, tenant, platform).value.anomalies == 0
    ensures
      var d1 := B1(db, platform);
      var r2 := B2(d1, platform, |d1.stores|);
      && d1.stores == db.stores && r2.Commit? && r2.value.anomalies == 0 && B3(r2.db, tenant).1.anomalies == 0
      && RunAll(db, tenant, platform).db == B3(r2.db, tenant).0.(mode := Some(LEGACY_MODE))
  {
    hide B2, B3, B1;
    var d1 := B1(db, platform);
    B1Stores(db, platform);
    var d3 := B3(B2(d1, platform, |d1.stores|).db, tenant).0;
    assert B4(d3).1.anomalies == 0;
    assert d3.mode.Some? ==> d3 == d3.(mode := Some(d3.mode.value));
  }

  lemma B1Stores(db: Db, platform: string)
    ensures B1(db, platform).stores == db.stores
  {
  }

  /** A run that completes without anomalies passes all five verdicts exactly when no other store
      already had a platform row (or one that B-1 classifies so) without having a primary: B-2
      skips such a store, and nothing else gives it a primary. */
  lemma PassesIff(db: Db, tenant: nat, platform: string, s: nat, pick: Option<nat>)
    requires Wf(db) && OnlyStore(db, tenant, s)
    requires RunAll(db, tenant, platform).Commit? && RunAll(db, tenant, platform).value.anomalies == 0
    requires ReturnsPrimary(RunAll(db, tenant, platform).db, tenant, pick)
    ensures
      Reconciled(RunAll(db, tenant, platform).db, pick) <==>
      forall t: nat :: t < |db.stores| && t != s && HasPlatformRow(B1(db, platform), t) ==> HasPrimaryRow(db, t)
  {
    hide RunAll, B1, B2, B3, B4, HasPlatformRow, HasPrimaryRow, CountPrimary, PrimaryStore, OnePrimaryPerStore, DistinctHostnames;
    var d1 := B1(db, platform);
    B1Keeps(db, platform);
    CleanRunIs(db, tenant, platform);
    B2Keeps(d1, platform, |d1.stores|);
    var d2 := B2(d1, platform, |d1.stores|).db;
    B3Keeps(d2, tenant);
    var d3 := B3(d2, tenant).0;
    var d := RunAll(db, tenant, platform).db;
    assert PrimaryStore(d2.stores, tenant) == Some(s);
    PrimaryAmong(d3, s);
    forall t: nat | t < |db.stores|
      ensures HasPlatformRow(d, t)
      ensures t != s ==> (HasPrimaryRow(d, t) <==> HasPrimaryRow(db, t) || !HasPlatformRow(d1, t))
      ensures t == s ==> HasPrimaryRow(d, t)
      ensures CountPrimary(d.domains, t) == if HasPrimaryRow(d, t) then 1 else 0
    {
      B3Rows(d2, tenant, t);
      ModeOnly(d3, d, t);
      PrimaryCount(d, t);
    }
    TenantPrimaryIs(d, tenant, s, pick);
  }

  lemma PrimaryAmong(d: Db, s: nat)
    ensures (exists i :: 0 <= i < |d.domains| && d.domains[i].store == s && d.domains[i].isPrimary && d.domains[i].hostname == TENANT_1_HOSTNAME)
      ==> HasPrimaryRow(d, s)
  {
  }

  lemma ModeOnly(a: Db, b: Db, t: nat)
    requires b == a.(mode := b.mode)
    ensures (HasPrimaryRow(a, t) <==> HasPrimaryRow(b, t)) && (HasPlatformRow(a, t) <==> HasPlatformRow(b, t))
  {
  }

  lemma TenantPrimaryIs(d: Db, tenant: nat, s: nat, pick: Option<nat>)
    requires Wf(d) && OnlyStore(d, tenant, s) && ReturnsPrimary(d, tenant, pick)
    requires exists i :: 0 <= i < |d.domains| && d.domains[i].store == s && d.domains[i].isPrimary && d.domains[i].hostname == TENANT_1_HOSTNAME
    ensures pick.Some? && d.domains[pick.value].hostname == TENANT_1_HOSTNAME
  {
    var i :| 0 <= i < |d.domains| && d.domains[i].store == s && d.domains[i].isPrimary && d.domains[i].hostname == TENANT_1_HOSTNAME;
    assert d.domains[i].tenant == tenant;
    var k := pick.value;
    assert d.stores[d.domains[k].store].tenant == tenant;
    assert k == i;
  }

  /** In particular it passes when every store that owns a domain has a primary. */
  lemma WriterMeetsChecker(db: Db, tenant: nat, platform: string, s: nat, pick: Option<nat>)
    requires Wf(db) && OnlyStore(db, tenant, s)
    requires forall i :: 0 <= i < |db.domains| ==> HasPrimaryRow(db, db.domains[i].store)
    requires RunAll(db, tenant, platform).Commit? && RunAll(db, tenant, platform).value.anomalies == 0
    requires ReturnsPrimary(RunAll(db, tenant, platform).db, tenant, pick)
    ensures Reconciled(RunAll(db, tenant, platform).db, pick)
  {
    hide RunAll, Reconciled, ReturnsPrimary, Wf, ClassifyAll;
    PassesIff(db, tenant, platform, s, pick);
    forall t: nat | t < |db.stores| && HasPlatformRow(B1(db, platform), t)
      ensures HasPrimaryRow(db, t)
    {
      var i :| 0 <= i < |db.domains| && B1(db, platform).domains[i].store == t;
      assert db.domains[i].store == t;
    }
  }

  // ---------------------------------------------------------------------------------------------
  // A second run
  // ---------------------------------------------------------------------------------------------

  lemma {:induction false} B2Idle(d: Db, platform: string, n: nat)
    requires n <= |d.stores| && DistinctHostnames(d.domains)
    requires forall s: nat :: s < n ==> Provisioned(d, platform, s)
    ensures B2(d, platform, n).Commit? && B2(d, platform, n).db == d && B2(d, platform, n).value.affected == 0
  {
    if n > 0 {
      B2Idle(d, platform, n - 1);
      var s := n - 1;
      assert Provisioned(d, platform, s);
      var hostname := DerivePlatformHostname(d.stores[s].slug, platform);
      if !HasPlatformRow(d, s) {
        var i :| 0 <= i < |d.domains| && d.domains[i].store != s && d.domains[i].hostname == hostname;
        var holder := Holder(d.domains, hostname);
        assert holder.Some? && (holder.value < i || i < holder.value || holder.value == i);
      }
    }
  }

  lemma {:induction false} ClassifyIdle(domains: seq<Domain>, platform: string)
    requires AllTyped(domains)
    ensures ClassifyAll(domains, platform) == domains && CountUntyped(domains) == 0
  {
    NoneUntyped(domains);
    assert forall i :: 0 <= i < |domains| ==> ClassifyAll(domains, platform)[i] == domains[i];
  }

  lemma HolderIs(domains: seq<Domain>, k: nat)
    requires DistinctHostnames(domains) && k < |domains|
    ensures Holder(domains, domains[k].hostname) == Some(k)
  {
    var r := Holder(domains, domains[k].hostname);
    assert r.Some? && !(r.value < k) && !(k < r.value);
  }

  lemma B3Idle(db: Db, tenant: nat)
    requires Wf(db) && AllTyped(db.domains)
    ensures
      var d := B3(db, tenant).0;
      B3(d, tenant).0 == d && B3(d, tenant).1.affected == 0
  {
    hide DemoteAll, Holder, PrimaryStore, OnePrimaryPerStore, AllTyped;
    var (d, r) := B3(db, tenant);
    if r.affected == 1 {
      B3Keeps(db, tenant);
      var before := Holder(db.domains, TENANT_1_HOSTNAME);
      HolderIs(d.domains, if before.Some? then before.value else |db.domains|);
    }
    hide Wf, DistinctHostnames;
  }

  /** Where a completed run leaves the tables. */
  ghost predicate Finished(d: Db, tenant: nat, platform: string) {
    && Wf(d) && AllTyped(d.domains) && d.mode.Some?
    && (forall s: nat :: s < |d.stores| ==> Provisioned(d, platform, s))
    && B3(d, tenant).0 == d && B3(d, tenant).1.affected == 0
  }

  lemma RunAllIs(db: Db, tenant: nat, platform: string)
    requires RunAll(db, tenant, platform).Commit?
    ensures
      var d1 := B1(db, platform);
      var r2 := B2(d1, platform, |d1.stores|);
      var d := RunAll(db, tenant, platform).db;
      && r2.Commit? && d.mode.Some? && d == B3(r2.db, tenant).0.(mode := d.mode)
  {
    hide B1, B2, B3;
  }

  lemma B3Mode(d: Db, tenant: nat, mode: Option<string>)
    ensures B3(d.(mode := mode), tenant) == (B3(d, tenant).0.(mode := mode), B3(d, tenant).1)
  {
  }

  lemma RunFinishes(db: Db, tenant: nat, platform: string)
    requires Wf(db) && RunAll(db, tenant, platform).Commit?
    ensures Finished(RunAll(db, tenant, platform).db, tenant, platform)
  {
    hide B1, B2, B3, RunAll, AllTyped, Provisioned, HasPlatformRow, HasPrimaryRow, DistinctHostnames, OnePrimaryPerStore;
    var d1 := B1(db, platform);
    RunAllIs(db, tenant, platform);
    B1Keeps(db, platform);
    B2Keeps(d1, platform, |d1.stores|);
    var d2 := B2(d1, platform, |d1.stores|).db;
    B3Keeps(d2, tenant);
    B3Idle(d2, tenant);
    var d3 := B3(d2, tenant).0;
    var d := RunAll(db, tenant, platform).db;
    B3Mode(d3, tenant, d.mode);
    forall s: nat | s < |d.stores|
      ensures Provisioned(d, platform, s)
    {
      ProvisionedStays(d2, d, platform, s);
    }
  }

  /** After any run that completes, with or without anomalies, a second run changes nothing. */
  lemma SecondRunAffectsNothing(db: Db, tenant: nat, platform: string)
    requires Wf(db) && RunAll(db, tenant, platform).Commit?
    ensures
      var d := RunAll(db, tenant, platform).db;
      && RunAll(d, tenant, platform).Commit? && RunAll(d, tenant, platform).db == d
      && RunAll(d, tenant, platform).value.affected == 0
  {
    RunFinishes(db, tenant, platform);
    FinishedIsIdle(RunAll(db, tenant, platform).db, tenant, platform);
    hide RunAll;
  }

  lemma FinishedIsIdle(d: Db, tenant: nat, platform: string)
    requires Finished(d, tenant, platform)
    ensures RunAll(d, tenant, platform).Commit? && RunAll(d, tenant, platform).db == d
    ensures RunAll(d, tenant, platform).value.affected == 0
  {
    ClassifyIdle(d.domains, platform);
    B2Idle(d, platform, |d.stores|);
    assert B1(d, platform) == d;
    hide B1, B2, B3, Wf, AllTyped, Provisioned;
  }

  // ---------------------------------------------------------------------------------------------
  // When the script throws, and what it then leaves
  // ---------------------------------------------------------------------------------------------

  /** The tables after the first `n` of the four committed steps. A clash in B-2 ends the script:
      B-2 leaves nothing, and B-1 stays. */
  function Committed(db: Db, tenant: nat, platform: string, n: nat): Db {
    if n == 0 then db
    else
      var d1 := B1(db, platform);
      if n == 1 then d1
      else
        match B2(d1, platform, |d1.stores|)
        case Rollback(_) => d1
        case Commit(d2, _) => if n == 2 then d2 else if n == 3 then B3(d2, tenant).0 else B4(B3(d2, tenant).0).0
  }

  /** The store has no platform row, and one of its own rows holds the hostname it is to get. */
  predicate HoldsOwnName(db: Db, platform: string, s: nat)
    requires s < |db.stores|
  {
    && !HasPlatformRow(db, s)
    && exists i :: 0 <= i < |db.domains| && db.domains[i].store == s
                   && db.domains[i].hostname == DerivePlatformHostname(db.stores[s].slug, platform)
  }

  /** B-2 only appends rows, of stores it has passed. */
  lemma {:induction false} B2Appends(db: Db, platform: string, n: nat)
    requires n <= |db.stores| && B2(db, platform, n).Commit?
    ensures
      var d := B2(db, platform, n).db;
      db.domains <= d.domains && forall i :: |db.domains| <= i < |d.domains| ==> d.domains[i].store < n
  {
    if n > 0 {
      B2Appends(db, platform, n - 1);
      hide DerivePlatformHostname, Holder, HasPlatformRow, HasPrimaryRow;
    }
  }

  lemma ClashMeans(d: Db, platform: string, s: nat)
    requires s < |d.stores| && DistinctHostnames(d.domains)
    ensures ProvisionOf(d, platform, s).Clash? <==> HoldsOwnName(d, platform, s)
  {
    var hostname := DerivePlatformHostname(d.stores[s].slug, platform);
    var holder := Holder(d.domains, hostname);
    forall i | 0 <= i < |d.domains| && d.domains[i].hostname == hostname
      ensures holder == Some(i)
    {
      HolderIs(d.domains, i);
    }
    hide HasPlatformRow, HasPrimaryRow, DerivePlatformHostname, Holder;
  }

  /** What the earlier inserts of B-2 leave a store that is still to come. */
  lemma SameName(db: Db, d: Db, platform: string, s: nat)
    requires s < |db.stores| && d.stores == db.stores && db.domains <= d.domains
    requires forall i :: |db.domains| <= i < |d.domains| ==> d.domains[i].store < s
    requires HasPlatformRow(d, s) <==> HasPlatformRow(db, s)
    ensures HoldsOwnName(d, platform, s) <==> HoldsOwnName(db, platform, s)
  {
    var hostname := DerivePlatformHostname(db.stores[s].slug, platform);
    if i :| 0 <= i < |db.domains| && db.domains[i].store == s && db.domains[i].hostname == hostname {
      assert d.domains[i] == db.domains[i];
    }
    hide HasPlatformRow, DerivePlatformHostname;
  }

  lemma StoreThrowsIff(db: Db, platform: string, s: nat)
    requires Wf(db) && AllTyped(db.domains) && s < |db.stores| && B2(db, platform, s).Commit?
    ensures ProvisionOf(B2(db, platform, s).db, platform, s).Clash? <==> HoldsOwnName(db, platform, s)
  {
    hide HoldsOwnName, ProvisionOf, HasPlatformRow, HasPrimaryRow, Provisioned, AllTyped;
    B2Keeps(db, platform, s);
    B2Appends(db, platform, s);
    var d := B2(db, platform, s).db;
    assert DistinctHostnames(d.domains);
    hide B2, Wf, DistinctHostnames;
    SameName(db, d, platform, s);
    ClashMeans(d, platform, s);
  }

  lemma {:induction false} B2ThrowsIff(db: Db, platform: string, n: nat)
    requires Wf(db) && AllTyped(db.domains) && n <= |db.stores|
    ensures B2(db, platform, n).Rollback? <==> exists s: nat :: s < n && HoldsOwnName(db, platform, s)
    ensures B2(db, platform, n).Rollback? ==> B2(db, platform, n).reason == UniqueViolation
  {
    hide HoldsOwnName, ProvisionOf, Wf, AllTyped;
    if n > 0 {
      var s := n - 1;
      B2ThrowsIff(db, platform, s);
      if B2(db, platform, s).Commit? {
        StoreThrowsIff(db, platform, s);
      }
      assert HoldsOwnName(db, platform, s) ==> exists t: nat :: t < n && HoldsOwnName(db, platform, t);
    }
  }

  /** The script throws exactly when some store that has no platform row after B-1 holds its own
      derived hostname already, as a custom domain. */
  lemma ThrowsIff(db: Db, tenant: nat, platform: string)
    requires Wf(db)
    ensures
      RunAll(db, tenant, platform).Rollback? <==>
      exists s: nat :: s < |db.stores| && HoldsOwnName(B1(db, platform), platform, s)
    ensures RunAll(db, tenant, platform).Rollback? ==> RunAll(db, tenant, platform).reason == UniqueViolation
  {
    B1Keeps(db, platform);
    B2ThrowsIff(B1(db, platform), platform, |db.stores|);
    hide HoldsOwnName, Wf, AllTyped, ClassifyAll;
  }

  lemma B1Idle(db: Db, platform: string)
    requires AllTyped(db.domains)
    ensures B1(db, platform) == db
  {
    ClassifyIdle(db.domains, platform);
  }

  /** Stopping after any of the committed steps and starting over ends where one complete run ends,
      also when the script throws; so a second complete run changes nothing. */
  lemma RestartsDoNotMatter(db: Db, tenant: nat, platform: string, n: nat)
    requires Wf(db) && n <= 4
    ensures
      var stopped := Committed(db, tenant, platform, n);
      && Committed(stopped, tenant, platform, 4) == Committed(db, tenant, platform, 4)
      && (RunAll(stopped, tenant, platform).Rollback? <==> RunAll(db, tenant, platform).Rollback?)
  {
    hide B1, B2, B3, B4, Wf, AllTyped, HasPrimaryRow;
    var d1 := B1(db, platform);
    B1Keeps(db, platform);
    B1Idle(d1, platform);
    if n >= 2 && B2(d1, platform, |d1.stores|).Commit? {
      RestartsAfterB2(d1, tenant, platform, n);
    }
  }

  /** B-1 and B-2 find nothing to do. */
  ghost predicate Quiet(d: Db, platform: string) {
    B1(d, platform) == d && B2(d, platform, |d.stores|).Commit? && B2(d, platform, |d.stores|).db == d
  }

  lemma QuietAfterB2(d1: Db, platform: string)
    requires Wf(d1) && AllTyped(d1.domains) && B2(d1, platform, |d1.stores|).Commit?
    ensures
      var d2 := B2(d1, platform, |d1.stores|).db;
      && Wf(d2) && AllTyped(d2.domains) && Quiet(d2, platform)
      && forall s: nat :: s < |d2.stores| ==> Provisioned(d2, platform, s)
  {
    B2Keeps(d1, platform, |d1.stores|);
    var d2 := B2(d1, platform, |d1.stores|).db;
    B1Idle(d2, platform);
    B2Idle(d2, platform, |d2.stores|);
    hide B1, B2, AllTyped, Provisioned;
  }

  lemma QuietAfterB3(d2: Db, tenant: nat, platform: string, mode: Option<string>)
    requires Wf(d2) && AllTyped(d2.domains)
    requires forall s: nat :: s < |d2.stores| ==> Provisioned(d2, platform, s)
    ensures
      var d := B3(d2, tenant).0.(mode := mode);
      Quiet(d, platform) && B3(d, tenant).0 == d
  {
    B3Keeps(d2, tenant);
    B3Idle(d2, tenant);
    var d := B3(d2, tenant).0.(mode := mode);
    assert B3(d, tenant).0 == d;
    hide B1, B2, B3, Provisioned;
    forall s: nat | s < |d.stores|
      ensures Provisioned(d, platform, s)
    {
      ProvisionedStays(d2, d, platform, s);
    }
    B1Idle(d, platform);
    B2Idle(d, platform, |d.stores|);
  }

  lemma RestartsAfterB2(d1: Db, tenant: nat, platform: string, n: nat)
    requires Wf(d1) && AllTyped(d1.domains) && B2(d1, platform, |d1.stores|).Commit? && 2 <= n <= 4
    ensures
      var d2 := B2(d1, platform, |d1.stores|).db;
      var stopped := if n == 2 then d2 else if n == 3 then B3(d2, tenant).0 else B4(B3(d2, tenant).0).0;
      Quiet(stopped, platform) && B4(B3(stopped, tenant).0).0 == B4(B3(d2, tenant).0).0
  {
    QuietAfterB2(d1, platform);
    var d2 := B2(d1, platform, |d1.stores|).db;
    var d3 := B3(d2, tenant).0;
    var d4 := B4(d3).0;
    assert d3 == d3.(mode := d3.mode) && d4 == d3.(mode := d4.mode) && B4(d4).0 == d4;
    hide *;
    QuietAfterB3(d2, tenant, platform, d3.mode);
    QuietAfterB3(d2, tenant, platform, d4.mode);
  }

  // ---------------------------------------------------------------------------------------------
  // The script, in place
  // ---------------------------------------------------------------------------------------------

  function CountStores(db: Db, n: nat, check: StoreCheck): nat {
    if n == 0 then 0 else CountStores(db, n - 1, check) + (if Fails(db, n - 1, check) then 1 else 0)
  }

  datatype StoreCheck = LacksPlatform | LacksPrimary | SeveralPrimaries

  predicate Fails(db: Db, s: nat, check: StoreCheck) {
    match check
    case LacksPlatform => CountPlatform(db.domains, s) == 0
    case LacksPrimary => CountPrimary(db.domains, s) == 0
    case SeveralPrimaries => CountPrimary(db.domains, s) > 1
  }

  lemma {:induction false} NoStoreFails(db: Db, n: nat, check: StoreCheck)
    ensures CountStores(db, n, check) == 0 <==> forall s: nat :: s < n ==> !Fails(db, s, check)
  {
    if n > 0 {
      NoStoreFails(db, n - 1, check);
    }
  }

  class DomainTables {
    var stores: seq<Store>
    var domains: seq<Domain>
    var mode: Option<string>

    function Tables(): Db
      reads this
    {
      Db(stores, domains, mode)
    }

    method BackfillDomainTypes(platform: string) returns (r: Report)
      modifies this`domains
      ensures Tables() == B1(old(Tables()), platform)
      ensures r == Report(CountUntyped(old(domains)), 0)
    {
      hide IsUnderPlatformDomain;
      ghost var was := domains;
      var affected: nat := 0;
      for i := 0 to |domains|
        invariant |domains| == |was| && forall j :: i <= j < |was| ==> domains[j] == was[j]
        invariant forall j :: 0 <= j < i ==> domains[j] == Classified(was[j], platform)
        invariant affected == CountUntyped(was[..i])
      {
        assert was[..i + 1][..i] == was[..i];
        if domains[i].kind.None? {
          var kind := if IsUnderPlatformDomain(domains[i].hostname, platform) then PlatformSubdomain else Custom;
          domains := domains[i := domains[i].(kind := Some(kind))];
          affected := affected + 1;
        }
      }
      assert domains == ClassifyAll(was, platform) && was[..|was|] == was;
      return Report(affected, 0);
    }

    method ProvisionStore(s: nat, platform: string) returns (p: Provision)
      requires s < |stores|
      modifies this`domains
      ensures p == ProvisionOf(old(Tables()), platform, s)
      ensures domains == if p.Inserts? then old(domains) + [p.row] else old(domains)
    {
      var existing := HasPlatformRow(Tables(), s);
      if existing {
        return AlreadyThere;
      }
      var hostname := DerivePlatformHostname(stores[s].slug, platform);
      var holder := Holder(domains, hostname);
      if holder.Some? && domains[holder.value].store != s {
        return Collision;
      }
      if holder.Some? {
        return Clash;
      }
      var primary := HasPrimaryRow(Tables(), s);
      p := Inserts(Domain(s, stores[s].tenant, hostname, !primary, Some(PlatformSubdomain), Verified, None));
      domains := domains + [p.row];
    }

    method BackfillPlatformSubdomains(platform: string) returns (r: Attempted<Report>)
      modifies this`domains
      ensures Executes(B2(old(Tables()), platform, |stores|), old(Tables()), Tables(), r)
    {
      hide ProvisionOf;
      var saved := domains;
      ghost var was := Tables();
      var report := Report(0, 0);
      for s := 0 to |stores|
        invariant stores == was.stores && mode == was.mode
        invariant B2(was, platform, s) == Commit(Tables(), report)
      {
        ghost var now := Tables();
        var p := ProvisionStore(s, platform);
        match p {
          case AlreadyThere =>
          case Collision => report := report.(anomalies := report.anomalies + 1);
          case Inserts(row) => report := report.(affected := report.affected + 1);
          case Clash =>
            B2Stops(was, platform, s, |stores|);
            domains := saved;
            return Throw(UniqueViolation);
        }
        assert Tables() == if p.Inserts? then now.(domains := now.domains + [p.row]) else now;
      }
      return Done(report);
    }

    method BackfillTenant1CustomDomain(tenant: nat) returns (r: Report)
      modifies this`domains
      ensures (Tables(), r) == B3(old(Tables()), tenant)
    {
      var store := PrimaryStore(stores, tenant);
      if store.None? {
        return Report(0, 1);
      }
      var existing := Holder(domains, TENANT_1_HOSTNAME);
      if existing.Some? && domains[existing.value].store != store.value {
        return Report(0, 1);
      }
      if existing.None? {
        domains := DemoteAll(domains, store.value);
        domains := domains + [Domain(store.value, tenant, TENANT_1_HOSTNAME, true, Some(Custom), Verified, Some(Issued))];
        return Report(1, 0);
      }
      if !domains[existing.value].isPrimary {
        domains := DemoteAll(domains, store.value);
        domains := domains[existing.value := domains[existing.value].(isPrimary := true)];
        return Report(1, 0);
      }
      return Report(0, 0);
    }

    method BackfillResolutionModeRow() returns (r: Report)
      modifies this`mode
      ensures (Tables(), r) == B4(old(Tables()))
    {
      if mode.Some? {
        return Report(0, if mode.value == LEGACY_MODE then 0 else 1);
      }
      mode := Some(LEGACY_MODE);
      return Report(1, 0);
    }

    /** The real run: four committed steps, of which only B-2 can throw. */
    method RunSteps(tenant: nat, platform: string) returns (r: Attempted<Report>)
      modifies this
      ensures Tables() == Committed(old(Tables()), tenant, platform, 4)
      ensures r == match RunAll(old(Tables()), tenant, platform)
                   case Commit(_, report) => Done(report)
                   case Rollback(e) => Throw(e)
    {
      hide ClassifyAll, B2, B3, B4;
      var r1 := BackfillDomainTypes(platform);
      var r2 := BackfillPlatformSubdomains(platform);
      if r2.Throw? {
        return Throw(r2.reason);
      }
      var r3 := BackfillTenant1CustomDomain(tenant);
      var r4 := BackfillResolutionModeRow();
      return Done(Report(r1.affected + r2.value.affected + r3.affected + r4.affected,
                         r2.value.anomalies + r3.anomalies + r4.anomalies));
    }

    /** The read-only reconciliation queries. */
    method Reconcile(tenant: nat, pick: Option<nat>) returns (r: Reconciliation)
      requires ReturnsPrimary(Tables(), tenant, pick)
      ensures AllPass(r) <==> Reconciled(Tables(), pick)
    {
      var db := Tables();
      var withoutPlatform: nat, withoutPrimary: nat, several: nat := 0, 0, 0;
      for s := 0 to |stores|
        invariant withoutPlatform == CountStores(db, s, LacksPlatform)
        invariant withoutPrimary == CountStores(db, s, LacksPrimary)
        invariant several == CountStores(db, s, SeveralPrimaries)
      {
        var platformCount, primaryCount := CountPlatform(domains, s), CountPrimary(domains, s);
        if platformCount == 0 {
          withoutPlatform := withoutPlatform + 1;
        }
        if primaryCount == 0 {
          withoutPrimary := withoutPrimary + 1;
        }
        if primaryCount > 1 {
          several := several + 1;
        }
      }
      r := Reconciliation(CountUntyped(domains), withoutPlatform, withoutPrimary, several,
                          if pick.Some? then Some(domains[pick.value].hostname) else None, mode);
      NoneUntyped(domains);
      PlatformVerdict(db);
      PrimaryVerdict(db);
      hide CountUntyped, CountStores, HasPlatformRow, CountPrimary, OneEach;
    }
  }

  lemma {:induction false} B2Stops(db: Db, platform: string, s: nat, n: nat)
    requires s < n <= |db.stores| && B2(db, platform, s).Commit?
    requires ProvisionOf(B2(db, platform, s).db, platform, s).Clash?
    ensures B2(db, platform, n) == Rollback(UniqueViolation)
  {
    hide ProvisionOf;
    if n > s + 1 {
      B2Stops(db, platform, s, n - 1);
    }
  }

  lemma PlatformVerdict(db: Db)
    ensures CountStores(db, |db.stores|, LacksPlatform) == 0 <==> forall s: nat :: s < |db.stores| ==> HasPlatformRow(db, s)
  {
    NoStoreFails(db, |db.stores|, LacksPlatform);
    forall s: nat | s < |db.stores|
      ensures HasPlatformRow(db, s) <==> !Fails(db, s, LacksPlatform)
    {
      SomePlatform(db, s);
    }
  }

  ghost predicate OneEach(db: Db) {
    forall s: nat :: s < |db.stores| ==> CountPrimary(db.domains, s) == 1
  }

  lemma PrimaryVerdict(db: Db)
    ensures CountStores(db, |db.stores|, LacksPrimary) == 0 && CountStores(db, |db.stores|, SeveralPrimaries) == 0 <==> OneEach(db)
  {
    NoStoreFails(db, |db.stores|, LacksPrimary);
    NoStoreFails(db, |db.stores|, SeveralPrimaries);
    if CountStores(db, |db.stores|, LacksPrimary) == 0 && CountStores(db, |db.stores|, SeveralPrimaries) == 0 {
      forall s: nat | s < |db.stores|
        ensures CountPrimary(db.domains, s) == 1
      {
        assert !Fails(db, s, LacksPrimary) && !Fails(db, s, SeveralPrimaries);
      }
      assert OneEach(db);
    } else if OneEach(db) {
      forall s: nat | s < |db.stores|
        ensures !Fails(db, s, LacksPrimary)
      {
        assert CountPrimary(db.domains, s) == 1;
      }
      forall s: nat | s < |db.stores|
        ensures !Fails(db, s, SeveralPrimaries)
      {
        assert CountPrimary(db.domains, s) == 1;
      }
    }
  }
}
