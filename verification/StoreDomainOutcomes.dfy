/**
 * What each merchant domain call does, on the columns, when it runs alone: who may make it, which rows
 * it changes, and that its steps add up to the whole call.
 */
module StoreDomainOutcomes {
  import opened Prelude
  import opened DomainRows
  import opened StoreDomains
  import opened StoreDomainProtocol

  /** The caller's tenant owns the row, and it is not the platform's. */
  predicate OwnCustom(db: Db, tenant: nat, id: nat) {
    id in db.domains && db.domains[id].tenant == tenant && match db.domains[id].kind case Some(k) => k == Custom case None => true
  }

  lemma OwnCustomIs(db: Db, tenant: nat, id: nat)
    ensures OwnCustom(db, tenant, id) <==> Owned(db, tenant, id) && IsCustom(db.domains[id])
  {
  }

  /** Only these rows change. */
  predicate OnlyRows(before: Db, after: Db, changed: set<nat>) {
    && after.stores == before.stores && after.next == before.next && after.domains.Keys == before.domains.Keys
    && forall i :: i in before.domains && i !in changed ==> after.domains[i] == before.domains[i]
  }

  /** Provisioning adds a verified platform row, the store's primary one exactly if it is the store's
      first; a known hostname, or a store of another tenant, changes nothing. */
  lemma ProvisionExactly(db: Db, store: nat, tenant: nat, hostname: string)
    requires Canonical(db)
    ensures
      var d := Perform(db, Provision(store, tenant, hostname));
      if (store in db.stores && db.stores[store] != tenant) || exists i :: i in db.domains && db.domains[i].hostname == hostname then d == db
      else
        d == Db(db.domains[db.next := Domain(store, tenant, hostname, store !in db.stores, Some(PlatformSubdomain), Verified, None)],
                db.stores[store := tenant], db.next + 1)
  {
    hide OnePrimary, UniqueHosts;
    FirstIsPrimary(db, store);
    hide Canonical, HasPrimary;
  }

  lemma FirstIsPrimary(db: Db, store: nat)
    requires Canonical(db)
    ensures HasPrimary(db, store) <==> store in db.stores
  {
    CanonicalLinked(db);
  }

  /** A custom domain is added, pending and not primary, for a provisioned store, under an allowed
      hostname that nobody has. */
  lemma AddExactly(db: Db, store: nat, hostname: string, allowed: bool)
    ensures
      var r := Add(db, store, hostname, allowed);
      if !allowed || store !in db.stores then r == Rollback(Rejected)
      else if exists i :: i in db.domains && db.domains[i].hostname == hostname then r == Rollback(UniqueViolation)
      else
        r == Commit(Db(db.domains[db.next := Domain(store, db.stores[store], hostname, false, Some(Custom), Pending, Some(TlsPending))],
                       db.stores, db.next + 1), db.next)
    ensures Perform(db, AddDomain(store, hostname, allowed)) == Add(db, store, hostname, allowed).After(db)
  {
  }

  /** Only its owner's pending custom domain is verified, and only if the check passes; then it also
      gets the provider's certificate state. */
  lemma VerifyExactly(db: Db, owner: nat, id: nat, passed: bool, tls: Tls)
    ensures
      var d := Perform(db, VerifyDomain(owner, id, passed, tls));
      if OwnCustom(db, owner, id) && db.domains[id].status == Pending && passed
      then d == db.(domains := db.domains[id := db.domains[id].(status := Verified, tls := Some(tls))])
      else d == db
    ensures
      var r := VerifyTx(db, owner, id, passed);
      && (r.Rollback? <==> !OwnCustom(db, owner, id) || db.domains[id].status == Verified)
      && (r.Commit? ==>
            (r.value == RefusedRevoked <==> db.domains[id].status == Failed) && (r.value == NowVerified <==> db.domains[id].status == Pending && passed))
  {
  }

  /** Its owner makes a domain primary if it is not yet and can be served: the platform's, or verified
      with an issued certificate. Then it is the one primary row of its store. */
  lemma MakePrimaryExactly(db: Db, owner: nat, id: nat)
    requires Canonical(db)
    ensures
      var d := Perform(db, MakePrimary(owner, id));
      if id in db.domains && db.domains[id].tenant == owner && !db.domains[id].isPrimary &&
        (db.domains[id].kind == Some(PlatformSubdomain) || (db.domains[id].status == Verified && db.domains[id].tls == Some(Issued)))
      then
        && OnlyRows(db, d, set i | i in db.domains && db.domains[i].store == db.domains[id].store)
        && forall i :: i in db.domains && db.domains[i].store == db.domains[id].store ==> d.domains[i] == db.domains[i].(isPrimary := i == id)
      else d == db
  {
    hide Canonical;
  }

  /** Its owner removes a custom domain once the provider has released it. A primary one is replaced, by
      one of the store's platform rows; nothing else changes. */
  lemma RemoveExactly(db: Db, owner: nat, id: nat, pick: nat, providerOk: bool)
    requires Canonical(db)
    ensures
      var d := Perform(db, RemoveDomain(owner, id, pick, providerOk));
      if !(OwnCustom(db, owner, id) && providerOk) then d == db
      else if !db.domains[id].isPrimary then d == db.(domains := db.domains - {id})
      else exists f ::
        && f in db.domains && db.domains[f].store == db.domains[id].store && db.domains[f].kind == Some(PlatformSubdomain)
        && d == db.(domains := (db.domains - {id})[f := db.domains[f].(isPrimary := true)])
  {
    hide Canonical, PlatformRow, CommitRemoval, OwnCustom;
    OwnCustomIs(db, owner, id);
    if OwnCustom(db, owner, id) {
      if db.domains[id].isPrimary {
        HasFallback(db, id, pick);
        Replaces(db, owner, id, PlatformRow(db, db.domains[id].store, pick).value);
      } else {
        Drops(db, owner, id);
      }
    }
  }

  lemma Drops(db: Db, owner: nat, id: nat)
    requires id in db.domains && db.domains[id].tenant == owner
    ensures CommitRemoval(db, owner, id, None) == Commit(db.(domains := db.domains - {id}), ())
  {
  }

  lemma Replaces(db: Db, owner: nat, id: nat, f: nat)
    requires Canonical(db) && id in db.domains && db.domains[id].tenant == owner && db.domains[id].isPrimary
    requires IsPlatformOf(db, db.domains[id].store, f) && f != id
    ensures
      CommitRemoval(db, owner, id, Some(f)) == Commit(db.(domains := (db.domains - {id})[f := db.domains[f].(isPrimary := true)]), ())
  {
    NoOtherPrimary(db, id);
    hide Canonical;
  }

  lemma HasFallback(db: Db, id: nat, pick: nat)
    requires Canonical(db) && id in db.domains
    ensures PlatformRow(db, db.domains[id].store, pick).Some?
  {
    CanonicalLinked(db);
    var store := db.domains[id].store;
    assert HasPlatform(db, store);
    var i :| i in db.domains && IsPlatformOf(db, store, i);
    assert 0 <= i < db.next;
  }

  lemma NoOtherPrimary(db: Db, id: nat)
    requires Canonical(db) && id in db.domains && db.domains[id].isPrimary
    ensures forall i :: i in db.domains && i != id ==> !IsPrimaryOf(db, db.domains[id].store, i)
  {
    WfLinked(db);
  }

  /** Its owner refreshes the certificate state of a custom domain. */
  lemma RefreshExactly(db: Db, owner: nat, id: nat, tls: Tls)
    ensures
      Perform(db, RefreshTls(owner, id, tls)) ==
      if OwnCustom(db, owner, id) then db.(domains := db.domains[id := db.domains[id].(tls := Some(tls))]) else db
  {
  }

  // ---------------------------------------------------------------------------------------------
  // The steps add up
  // ---------------------------------------------------------------------------------------------

  /** A call that begins and takes its two steps with nothing in between is the whole call. */
  lemma SoloIsWhole(db: Db, cid: nat, owner: nat, id: nat, env: Env)
    ensures TwoSteps(db, cid, Removing(owner, id), env).db == Perform(db, RemoveDomain(owner, id, env.pick, env.ok))
    ensures TwoSteps(db, cid, Verifying(owner, id), env).db == Perform(db, VerifyDomain(owner, id, env.ok, env.tls))
    ensures TwoSteps(db, cid, Refreshing(owner, id), env).db == Perform(db, RefreshTls(owner, id, env.tls))
  {
    hide TwoSteps, Perform;
    RemovalIsWhole(db, cid, owner, id, env);
    VerificationIsWhole(db, cid, owner, id, env);
    SoloSteps(db, cid, Refreshing(owner, id), env);
    RefreshExactly(db, owner, id, env.tls);
  }

  lemma RemovalIsWhole(db: Db, cid: nat, owner: nat, id: nat, env: Env)
    ensures TwoSteps(db, cid, Removing(owner, id), env).db == Perform(db, RemoveDomain(owner, id, env.pick, env.ok))
  {
    hide TwoSteps, CommitRemoval, PlatformRow;
    SoloSteps(db, cid, Removing(owner, id), env);
  }

  lemma VerificationIsWhole(db: Db, cid: nat, owner: nat, id: nat, env: Env)
    ensures TwoSteps(db, cid, Verifying(owner, id), env).db == Perform(db, VerifyDomain(owner, id, env.ok, env.tls))
  {
    hide TwoSteps, VerifyTx, WriteTls;
    SoloSteps(db, cid, Verifying(owner, id), env);
  }

  function TwoSteps(db: Db, cid: nat, call: Call, env: Env): Sys {
    Step(Step(Step(Sys(db, map[]), Begin(cid, call)), Advance(cid, env)), Advance(cid, env))
  }

  lemma SoloSteps(db: Db, cid: nat, call: Call, env: Env)
    ensures
      var a := AdvanceCall(db, call, env);
      !call.Planned? && !call.AwaitsTls? ==> TwoSteps(db, cid, call, env).db == AdvanceCall(a.0, a.1, env).0
  {
    hide AdvanceCall;
  }
}
