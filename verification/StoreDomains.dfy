/**
 * A store's domains as merchants manage them: adding, verifying, choosing the primary one, removing,
 * refreshing the certificate state. Each call is one or two transactions around a provider call.
 */
module StoreDomains {
  import opened Prelude
  import opened DomainRows

  /** `stores` are the provisioned stores with their tenants; `next` is an id not used yet. */
  datatype Db = Db(domains: map<nat, Domain>, stores: map<nat, nat>, next: nat)

  // ---------------------------------------------------------------------------------------------
  // Rows
  // ---------------------------------------------------------------------------------------------

  /** A domain without a type counts as custom. */
  predicate IsCustom(d: Domain) {
    d.kind != Some(PlatformSubdomain)
  }

  /** The serving gate: only such a domain may become primary. */
  predicate Serveable(d: Domain) {
    !IsCustom(d) || (d.status == Verified && d.tls == Some(Issued))
  }

  predicate Owned(db: Db, tenant: nat, id: nat) {
    id in db.domains && db.domains[id].tenant == tenant
  }

  predicate HostTaken(db: Db, hostname: string) {
    exists i :: i in db.domains && db.domains[i].hostname == hostname
  }

  predicate IsPrimaryOf(db: Db, store: nat, i: nat) {
    i in db.domains && db.domains[i].store == store && db.domains[i].isPrimary
  }

  predicate HasPrimary(db: Db, store: nat) {
    exists i :: i in db.domains && IsPrimaryOf(db, store, i)
  }

  predicate IsPlatformOf(db: Db, store: nat, i: nat) {
    i in db.domains && db.domains[i].store == store && db.domains[i].kind == Some(PlatformSubdomain)
  }

  /** The partial unique index on (storeId) WHERE isPrimary. */
  ghost predicate OnePrimary(db: Db) {
    forall i, j ::
      (i in db.domains && j in db.domains && db.domains[i].isPrimary && db.domains[j].isPrimary &&
       db.domains[i].store == db.domains[j].store) ==> i == j
  }

  ghost predicate UniqueHosts(db: Db) {
    forall i, j :: i in db.domains && j in db.domains && db.domains[i].hostname == db.domains[j].hostname ==> i == j
  }

  // ---------------------------------------------------------------------------------------------
  // Transactions
  // ---------------------------------------------------------------------------------------------

  function Insert(db: Db, d: Domain): Db {
    db.(domains := db.domains[db.next := d], next := db.next + 1)
  }

  /** ensurePlatformSubdomain, in the transaction that creates or adopts the store. */
  function Ensure(db: Db, store: nat, tenant: nat, hostname: string): TxResult<Db, ()> {
    if exists i :: i in db.domains && db.domains[i].hostname == hostname && db.domains[i].store != store then Rollback(Rejected)
    else if HostTaken(db, hostname) then Commit(db, ())
    else
      var row := Domain(store, tenant, hostname, !HasPrimary(db, store), Some(PlatformSubdomain), Verified, None);
      Commit(Insert(db, row).(stores := db.stores[store := tenant]), ())
  }

  /** add; `allowed` is the outcome of the hostname rules. */
  function Add(db: Db, store: nat, hostname: string, allowed: bool): TxResult<Db, nat> {
    if !allowed || store !in db.stores then Rollback(Rejected)
    else if HostTaken(db, hostname) then Rollback(UniqueViolation)
    else Commit(Insert(db, Domain(store, db.stores[store], hostname, false, Some(Custom), Pending, Some(TlsPending))), db.next)
  }

  datatype VerifyReply = NowVerified | StillPending | RefusedRevoked

  /** verify's transaction. A refusal of a revoked domain is committed, with its audit row. */
  function VerifyTx(db: Db, tenant: nat, id: nat, passed: bool): TxResult<Db, VerifyReply> {
    if !Owned(db, tenant, id) then Rollback(NotFound)
    else if !IsCustom(db.domains[id]) then Rollback(Rejected)
    else if db.domains[id].status == Failed then Commit(db, RefusedRevoked)
    else if db.domains[id].status == Verified then Rollback(Rejected)
    else if passed then Commit(db.(domains := db.domains[id := db.domains[id].(status := Verified)]), NowVerified)
    else Commit(db, StillPending)
  }

  /** writeTlsStatus, also after an attach: an update by id that throws when the row is gone. */
  function WriteTls(db: Db, id: nat, tls: Tls): TxResult<Db, ()> {
    if id !in db.domains then Rollback(NotFound)
    else Commit(db.(domains := db.domains[id := db.domains[id].(tls := Some(tls))]), ())
  }

  function Demoted(db: Db, store: nat): map<nat, Domain> {
    map i | i in db.domains :: if db.domains[i].store == store then db.domains[i].(isPrimary := false) else db.domains[i]
  }

  /** setPrimary: the previous primary, of which there is at most one, is cleared first. */
  function SetPrimary(db: Db, tenant: nat, id: nat): TxResult<Db, ()> {
    if !Owned(db, tenant, id) then Rollback(NotFound)
    else if !Serveable(db.domains[id]) || db.domains[id].isPrimary then Rollback(Rejected)
    else
      var cleared := Demoted(db, db.domains[id].store);
      Commit(db.(domains := cleared[id := cleared[id].(isPrimary := true)]), ())
  }

  /** remove's first transaction: `fallback` is the platform row to promote, needed only when the
      domain is primary at this moment. `pick` is the row the unordered query returned. */
  function PlanRemoval(db: Db, tenant: nat, id: nat, pick: nat): TxResult<Db, Option<nat>> {
    if !Owned(db, tenant, id) then Rollback(NotFound)
    else if !IsCustom(db.domains[id]) then Rollback(Rejected)
    else if !db.domains[id].isPrimary then Commit(db, None)
    else
      match PlatformRow(db, db.domains[id].store, pick)
      case None => Rollback(Rejected)
      case Some(f) => Commit(db, Some(f))
  }

  function PlatformRow(db: Db, store: nat, pick: nat): (r: Option<nat>)
    ensures r.Some? ==> IsPlatformOf(db, store, r.value)
    ensures r.None? ==> forall i :: 0 <= i < db.next ==> !IsPlatformOf(db, store, i)
  {
    if IsPlatformOf(db, store, pick) then Some(pick)
    else LowestPlatformRow(db, store, db.next)
  }

  function LowestPlatformRow(db: Db, store: nat, n: nat): (r: Option<nat>)
    ensures r.Some? ==> IsPlatformOf(db, store, r.value)
    ensures r.None? ==> forall i :: 0 <= i < n ==> !IsPlatformOf(db, store, i)
  {
    if n == 0 then None
    else if IsPlatformOf(db, store, n - 1) then Some(n - 1)
    else LowestPlatformRow(db, store, n - 1)
  }

  /** remove's second transaction: delete, then promote under the unique index. */
  function CommitRemoval(db: Db, tenant: nat, id: nat, fallback: Option<nat>): TxResult<Db, ()> {
    if !Owned(db, tenant, id) then Rollback(NotFound)
    else
      var left := db.(domains := db.domains - {id});
      if fallback.None? then Commit(left, ())
      else if fallback.value !in left.domains then Rollback(NotFound)
      else if exists i :: i in left.domains && i != fallback.value && IsPrimaryOf(left, left.domains[fallback.value].store, i)
      then Rollback(UniqueViolation)
      else Commit(left.(domains := left.domains[fallback.value := left.domains[fallback.value].(isPrimary := true)]), ())
  }

  // ---------------------------------------------------------------------------------------------
  // The same, in place
  // ---------------------------------------------------------------------------------------------

  class DomainTable {
    var domains: map<nat, Domain>
    var stores: map<nat, nat>
    var next: nat

    function Tables(): Db
      reads this
    {
      Db(domains, stores, next)
    }

    method EnsurePlatformSubdomain(store: nat, tenant: nat, hostname: string) returns (r: Attempted<()>)
      modifies this
      ensures Executes(Ensure(old(Tables()), store, tenant, hostname), old(Tables()), Tables(), r)
    {
      if exists i :: i in domains && domains[i].hostname == hostname && domains[i].store != store {
        return Throw(Rejected);
      }
      if HostTaken(Tables(), hostname) {
        return Done(());
      }
      var primary := HasPrimary(Tables(), store);
      domains := domains[next := Domain(store, tenant, hostname, !primary, Some(PlatformSubdomain), Verified, None)];
      next := next + 1;
      stores := stores[store := tenant];
      return Done(());
    }

    method AddDomain(store: nat, hostname: string, allowed: bool) returns (r: Attempted<nat>)
      modifies this`domains, this`next
      ensures Executes(Add(old(Tables()), store, hostname, allowed), old(Tables()), Tables(), r)
    {
      if !allowed || store !in stores {
        return Throw(Rejected);
      }
      if HostTaken(Tables(), hostname) {
        return Throw(UniqueViolation);
      }
      var id := next;
      domains := domains[id := Domain(store, stores[store], hostname, false, Some(Custom), Pending, Some(TlsPending))];
      next := next + 1;
      return Done(id);
    }

    method Verify(tenant: nat, id: nat, passed: bool) returns (r: Attempted<VerifyReply>)
      modifies this`domains
      ensures Executes(VerifyTx(old(Tables()), tenant, id, passed), old(Tables()), Tables(), r)
    {
      if id !in domains || domains[id].tenant != tenant {
        return Throw(NotFound);
      }
      var row := domains[id];
      if row.kind == Some(PlatformSubdomain) {
        return Throw(Rejected);
      }
      if row.status == Failed {
        return Done(RefusedRevoked);
      }
      if row.status == Verified {
        return Throw(Rejected);
      }
      if !passed {
        return Done(StillPending);
      }
      domains := domains[id := row.(status := Verified)];
      return Done(NowVerified);
    }

    method WriteTlsStatus(id: nat, tls: Tls) returns (r: Attempted<()>)
      modifies this`domains
      ensures Executes(WriteTls(old(Tables()), id, tls), old(Tables()), Tables(), r)
    {
      if id !in domains {
        return Throw(NotFound);
      }
      domains := domains[id := domains[id].(tls := Some(tls))];
      return Done(());
    }

    method SetPrimaryDomain(tenant: nat, id: nat) returns (r: Attempted<()>)
      requires OnePrimary(Tables())
      modifies this`domains
      ensures Executes(SetPrimary(old(Tables()), tenant, id), old(Tables()), Tables(), r)
    {
      if id !in domains || domains[id].tenant != tenant {
        return Throw(NotFound);
      }
      var row := domains[id];
      if !Serveable(row) || row.isPrimary {
        return Throw(Rejected);
      }
      ghost var was := Tables();
      if previous :| previous in domains && domains[previous].store == row.store && domains[previous].isPrimary {
        domains := domains[previous := domains[previous].(isPrimary := false)];
      }
      assert domains == Demoted(was, row.store);
      domains := domains[id := domains[id].(isPrimary := true)];
      return Done(());
    }

    method DeleteAndPromote(tenant: nat, id: nat, fallback: Option<nat>) returns (r: Attempted<()>)
      modifies this`domains
      ensures Executes(CommitRemoval(old(Tables()), tenant, id, fallback), old(Tables()), Tables(), r)
    {
      if id !in domains || domains[id].tenant != tenant {
        return Throw(NotFound);
      }
      var saved := domains;
      domains := domains - {id};
      if fallback.Some? {
        if fallback.value !in domains {
          domains := saved;
          return Throw(NotFound);
        }
        var store := domains[fallback.value].store;
        if exists i :: i in domains && i != fallback.value && IsPrimaryOf(Tables(), store, i) {
          domains := saved;
          return Throw(UniqueViolation);
        }
        domains := domains[fallback.value := domains[fallback.value].(isPrimary := true)];
      }
      return Done(());
    }
  }

  // ---------------------------------------------------------------------------------------------
  // What every transaction keeps
  // ---------------------------------------------------------------------------------------------

  ghost predicate Linked(db: Db) {
    forall i :: i in db.domains ==>
      i < db.next && db.domains[i].store in db.stores && db.domains[i].tenant == db.stores[db.domains[i].store]
  }

  ghost predicate HasPlatform(db: Db, s: nat) {
    exists i :: i in db.domains && IsPlatformOf(db, s, i)
  }

  ghost predicate AllProvisioned(db: Db) {
    forall s :: s in db.stores ==> HasPlatform(db, s)
  }

  ghost predicate Wf(db: Db) {
    UniqueHosts(db) && OnePrimary(db) && Linked(db) && AllProvisioned(db)
  }

  /** A row keeps its identity, and FAILED is neither entered nor left. */
  ghost predicate RowKeeps(a: Domain, b: Domain) {
    && b == a.(isPrimary := b.isPrimary, status := b.status, tls := b.tls)
    && (b.status == Failed <==> a.status == Failed)
  }

  /** Rows keep their identity, a platform row is never deleted, ids are not reused. */
  ghost predicate Keeps(a: Db, b: Db) {
    && a.next <= b.next && a.stores.Keys <= b.stores.Keys
    && (forall i :: i in a.domains && i in b.domains ==> RowKeeps(a.domains[i], b.domains[i]))
    && (forall i :: i in a.domains && !IsCustom(a.domains[i]) ==> i in b.domains)
    && (forall i :: i in b.domains && i !in a.domains ==> i >= a.next && b.domains[i].status != Failed)
  }

  lemma KeepsSelf(db: Db)
    ensures Keeps(db, db)
  {
  }

  lemma KeepsTransitive(a: Db, b: Db, c: Db)
    requires Linked(a) && Keeps(a, b) && Keeps(b, c)
    ensures Keeps(a, c)
  {
    forall i | i in a.domains && i in c.domains
      ensures RowKeeps(a.domains[i], c.domains[i])
    {
      assert i in b.domains;
      assert RowKeeps(a.domains[i], b.domains[i]) && RowKeeps(b.domains[i], c.domains[i]);
    }
  }

  lemma StillProvisioned(a: Db, b: Db, s: nat)
    requires Keeps(a, b) && HasPlatform(a, s)
    ensures HasPlatform(b, s)
  {
    var i :| i in a.domains && IsPlatformOf(a, s, i);
    assert RowKeeps(a.domains[i], b.domains[i]);
    assert IsPlatformOf(b, s, i);
  }

  lemma WfFrom(a: Db, b: Db)
    requires Wf(a) && Keeps(a, b) && b.stores == a.stores
    requires UniqueHosts(b) && OnePrimary(b) && Linked(b)
    ensures Wf(b)
  {
    hide Keeps, HasPlatform, UniqueHosts, OnePrimary, Linked;
    forall s | s in b.stores
      ensures HasPlatform(b, s)
    {
      StillProvisioned(a, b, s);
    }
  }

  /** Rows that are primary in `a` are primary in `b`. */
  lemma PrimariesCarry(a: Db, b: Db, s: nat)
    requires forall i :: i in a.domains && a.domains[i].isPrimary ==>
      i in b.domains && b.domains[i].isPrimary && b.domains[i].store == a.domains[i].store
    requires HasPrimary(a, s)
    ensures HasPrimary(b, s)
  {
    var i :| i in a.domains && IsPrimaryOf(a, s, i);
    assert IsPrimaryOf(b, s, i);
  }

  ghost predicate SamePrimaries(a: Db, b: Db) {
    forall s :: HasPrimary(a, s) <==> HasPrimary(b, s)
  }

  lemma SamePrimariesFrom(a: Db, b: Db)
    requires forall i :: i in a.domains && a.domains[i].isPrimary ==>
      i in b.domains && b.domains[i].isPrimary && b.domains[i].store == a.domains[i].store
    requires forall i :: i in b.domains && b.domains[i].isPrimary ==>
      i in a.domains && a.domains[i].isPrimary && a.domains[i].store == b.domains[i].store
    ensures SamePrimaries(a, b)
  {
    forall s
      ensures HasPrimary(a, s) <==> HasPrimary(b, s)
    {
      if HasPrimary(a, s) {
        PrimariesCarry(a, b, s);
      }
      if HasPrimary(b, s) {
        PrimariesCarry(b, a, s);
      }
    }
  }

  lemma InsertKeeps(db: Db, row: Domain)
    requires Wf(db) && !HostTaken(db, row.hostname) && !row.isPrimary && row.status != Failed
    requires row.store in db.stores && row.tenant == db.stores[row.store]
    ensures Wf(Insert(db, row)) && Keeps(db, Insert(db, row)) && SamePrimaries(db, Insert(db, row))
  {
    hide AllProvisioned, HasPrimary;
    var d := Insert(db, row);
    InsertIndexes(db, row);
    hide UniqueHosts, OnePrimary, Linked, HostTaken;
    assert Keeps(db, d);
    SamePrimariesFrom(db, d);
    WfFrom(db, d);
  }

  lemma InsertIndexes(db: Db, row: Domain)
    requires Wf(db) && !HostTaken(db, row.hostname) && !row.isPrimary
    requires row.store in db.stores && row.tenant == db.stores[row.store]
    ensures UniqueHosts(Insert(db, row)) && OnePrimary(Insert(db, row)) && Linked(Insert(db, row))
  {
    hide AllProvisioned;
  }

  lemma UpdateIndexes(db: Db, id: nat, row: Domain)
    requires Wf(db) && id in db.domains && RowKeeps(db.domains[id], row) && row.isPrimary == db.domains[id].isPrimary
    ensures
      var d := db.(domains := db.domains[id := row]);
      UniqueHosts(d) && OnePrimary(d) && Linked(d)
  {
    hide AllProvisioned;
  }

  /** A change of one row's verification or certificate state. */
  lemma UpdateKeeps(db: Db, id: nat, row: Domain)
    requires Wf(db) && id in db.domains && RowKeeps(db.domains[id], row) && row.isPrimary == db.domains[id].isPrimary
    ensures
      var d := db.(domains := db.domains[id := row]);
      Wf(d) && Keeps(db, d) && SamePrimaries(db, d)
  {
    hide AllProvisioned, HasPrimary;
    var d := db.(domains := db.domains[id := row]);
    UpdateIndexes(db, id, row);
    hide UniqueHosts, OnePrimary, Linked;
    assert Keeps(db, d);
    SamePrimariesFrom(db, d);
    WfFrom(db, d);
  }

  lemma SameDb(db: Db)
    ensures Keeps(db, db) && SamePrimaries(db, db)
  {
  }

  lemma AddKeeps(db: Db, store: nat, hostname: string, allowed: bool)
    requires Wf(db)
    ensures
      var d := Add(db, store, hostname, allowed).After(db);
      Wf(d) && Keeps(db, d) && SamePrimaries(db, d) && d.stores == db.stores
  {
    hide Wf, Keeps, SamePrimaries, HostTaken;
    SameDb(db);
    if Add(db, store, hostname, allowed).Commit? {
      InsertKeeps(db, Domain(store, db.stores[store], hostname, false, Some(Custom), Pending, Some(TlsPending)));
    }
  }

  lemma VerifyKeeps(db: Db, tenant: nat, id: nat, passed: bool)
    requires Wf(db)
    ensures
      var d := VerifyTx(db, tenant, id, passed).After(db);
      Wf(d) && Keeps(db, d) && SamePrimaries(db, d) && d.stores == db.stores
  {
    hide Wf, Keeps, SamePrimaries;
    SameDb(db);
    if id in db.domains && db.domains[id].status == Pending {
      UpdateKeeps(db, id, db.domains[id].(status := Verified));
    }
  }

  lemma WriteTlsKeeps(db: Db, id: nat, tls: Tls)
    requires Wf(db)
    ensures
      var d := WriteTls(db, id, tls).After(db);
      Wf(d) && Keeps(db, d) && SamePrimaries(db, d) && d.stores == db.stores
  {
    hide Wf, Keeps, SamePrimaries;
    SameDb(db);
    if id in db.domains {
      UpdateKeeps(db, id, db.domains[id].(tls := Some(tls)));
    }
  }

  /** Transactions that only delete custom rows and move the primary flag. */
  lemma FlagsOnly(a: Db, b: Db)
    requires Wf(a) && b.stores == a.stores && b.next == a.next && OnePrimary(b)
    requires forall i :: i in b.domains ==> i in a.domains && b.domains[i] == a.domains[i].(isPrimary := b.domains[i].isPrimary)
    requires forall i :: i in a.domains && !IsCustom(a.domains[i]) ==> i in b.domains
    ensures Wf(b) && Keeps(a, b)
  {
    hide AllProvisioned, OnePrimary;
    assert UniqueHosts(b) && Linked(b);
    assert Keeps(a, b);
    hide UniqueHosts, Linked, Keeps;
    WfFrom(a, b);
  }

  lemma SetPrimaryKeeps(db: Db, tenant: nat, id: nat)
    requires Wf(db) && SetPrimary(db, tenant, id).Commit?
    ensures
      var d := SetPrimary(db, tenant, id).db;
      && Wf(d) && Keeps(db, d) && d.stores == db.stores
      && (forall s :: HasPrimary(db, s) ==> HasPrimary(d, s))
      && IsPrimaryOf(d, db.domains[id].store, id)
  {
    hide AllProvisioned, UniqueHosts, Linked;
    var d := SetPrimary(db, tenant, id).db;
    assert OnePrimary(d);
    hide OnePrimary;
    FlagsOnly(db, d);
    hide Keeps, Wf;
    forall s | HasPrimary(db, s)
      ensures HasPrimary(d, s)
    {
      var i :| i in db.domains && IsPrimaryOf(db, s, i);
      assert IsPrimaryOf(d, s, if s == db.domains[id].store then id else i);
    }
  }

  /** The first row of a store becomes its primary; of a store that has one, it does not. */
  lemma EnsureKeeps(db: Db, store: nat, tenant: nat, hostname: string)
    requires Wf(db) && (store in db.stores ==> db.stores[store] == tenant)
    requires Ensure(db, store, tenant, hostname).Commit? && !HostTaken(db, hostname)
    ensures
      var d := Ensure(db, store, tenant, hostname).db;
      && Wf(d) && Keeps(db, d)
      && (forall s :: HasPrimary(db, s) ==> HasPrimary(d, s))
      && HasPrimary(d, store) && d.stores == db.stores[store := tenant]
  {
    var d := Ensure(db, store, tenant, hostname).db;
    EnsureProvisions(db, store, tenant, hostname);
    EnsurePrimaries(db, store, tenant, hostname);
    EnsureRows(db, store, tenant, hostname);
    hide AllProvisioned, HasPrimary, OnePrimary, UniqueHosts, Linked, Keeps, HostTaken;
  }

  lemma EnsureRows(db: Db, store: nat, tenant: nat, hostname: string)
    requires UniqueHosts(db) && Linked(db) && (store in db.stores ==> db.stores[store] == tenant)
    requires Ensure(db, store, tenant, hostname).Commit? && !HostTaken(db, hostname)
    ensures
      var d := Ensure(db, store, tenant, hostname).db;
      UniqueHosts(d) && Linked(d) && Keeps(db, d)
  {
    hide HasPrimary;
  }

  lemma EnsurePrimaries(db: Db, store: nat, tenant: nat, hostname: string)
    requires OnePrimary(db) && Linked(db)
    requires Ensure(db, store, tenant, hostname).Commit? && !HostTaken(db, hostname)
    ensures
      var d := Ensure(db, store, tenant, hostname).db;
      OnePrimary(d) && HasPrimary(d, store) && forall s :: HasPrimary(db, s) ==> HasPrimary(d, s)
  {
    var d := Ensure(db, store, tenant, hostname).db;
    forall s | HasPrimary(db, s)
      ensures HasPrimary(d, s)
    {
      PrimariesCarry(db, d, s);
    }
    if !HasPrimary(db, store) {
      assert IsPrimaryOf(d, store, db.next);
      assert forall i :: i in db.domains ==> !IsPrimaryOf(db, store, i);
    }
  }

  lemma EnsureProvisions(db: Db, store: nat, tenant: nat, hostname: string)
    requires Linked(db) && AllProvisioned(db)
    requires Ensure(db, store, tenant, hostname).Commit? && !HostTaken(db, hostname)
    ensures AllProvisioned(Ensure(db, store, tenant, hostname).db)
  {
    var d := Ensure(db, store, tenant, hostname).db;
    forall s | s in d.stores
      ensures HasPlatform(d, s)
    {
      if s == store {
        assert IsPlatformOf(d, s, db.next);
      } else {
        var i :| i in db.domains && IsPlatformOf(db, s, i);
        assert IsPlatformOf(d, s, i);
      }
    }
  }

  /** The plan a removal carries across the provider call: the row is custom, the fallback a platform
      row of the same store. */
  ghost predicate PlanOk(db: Db, id: nat, store: nat, fallback: Option<nat>) {
    && id < db.next && (id in db.domains ==> IsCustom(db.domains[id]) && db.domains[id].store == store)
    && (fallback.Some? ==> IsPlatformOf(db, store, fallback.value))
  }

  lemma PlanStays(a: Db, b: Db, id: nat, store: nat, fallback: Option<nat>)
    requires PlanOk(a, id, store, fallback) && Keeps(a, b)
    ensures PlanOk(b, id, store, fallback)
  {
    if fallback.Some? {
      assert RowKeeps(a.domains[fallback.value], b.domains[fallback.value]);
    }
    if id in b.domains {
      assert id in a.domains && RowKeeps(a.domains[id], b.domains[id]);
    }
  }

  lemma RemovalKeeps(db: Db, tenant: nat, id: nat, store: nat, fallback: Option<nat>)
    requires Wf(db) && PlanOk(db, id, store, fallback) && CommitRemoval(db, tenant, id, fallback).Commit?
    ensures
      var d := CommitRemoval(db, tenant, id, fallback).db;
      Wf(d) && Keeps(db, d) && d.stores == db.stores
  {
    hide AllProvisioned, HasPrimary, UniqueHosts, Linked;
    var d := CommitRemoval(db, tenant, id, fallback).db;
    if fallback.Some? {
      var left := db.(domains := db.domains - {id});
      assert forall i :: i in left.domains && i != fallback.value ==> !IsPrimaryOf(left, store, i);
    }
    assert OnePrimary(d);
    hide OnePrimary;
    FlagsOnly(db, d);
  }

  /** Exactly when a committed removal leaves the store without a primary: the row is primary at the
      commit, and the plan made earlier has no fallback. */
  lemma RemovalLeavesNoPrimaryIff(db: Db, tenant: nat, id: nat, store: nat, fallback: Option<nat>)
    requires OnePrimary(db) && PlanOk(db, id, store, fallback) && HasPrimary(db, store)
    requires CommitRemoval(db, tenant, id, fallback).Commit?
    ensures !HasPrimary(CommitRemoval(db, tenant, id, fallback).db, store) <==> db.domains[id].isPrimary && fallback.None?
    ensures forall s :: s != store && HasPrimary(db, s) ==> HasPrimary(CommitRemoval(db, tenant, id, fallback).db, s)
  {
    var d := CommitRemoval(db, tenant, id, fallback).db;
    forall s | HasPrimary(db, s) && !(s == store && db.domains[id].isPrimary)
      ensures HasPrimary(d, s)
    {
      var i :| i in db.domains && IsPrimaryOf(db, s, i);
      assert i != id && IsPrimaryOf(d, s, i);
    }
    if fallback.Some? {
      assert IsPrimaryOf(d, store, fallback.value);
    } else if db.domains[id].isPrimary {
      assert forall i :: i in d.domains ==> !IsPrimaryOf(d, store, i);
    }
  }
}
