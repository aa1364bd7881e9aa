/** Merchant domain calls one after the other, and interleaved. */
module StoreDomainProtocol {
  import opened Prelude
  import opened DomainRows
  import opened StoreDomains

  // ---------------------------------------------------------------------------------------------
  // One call at a time
  // ---------------------------------------------------------------------------------------------

  /** `tls` and `providerOk` are the hosting provider's answers, `passed` the DNS check's. */
  datatype Op =
    | Provision(store: nat, tenant: nat, hostname: string)
    | AddDomain(to: nat, host: string, allowed: bool)
    | VerifyDomain(owner: nat, id: nat, passed: bool, tls: Tls)
    | MakePrimary(owner: nat, id: nat)
    | RemoveDomain(owner: nat, id: nat, pick: nat, providerOk: bool)
    | RefreshTls(owner: nat, id: nat, tls: Tls)

  /** A whole call: its transactions with the provider's answer in between. */
  function Perform(db: Db, op: Op): Db {
    match op
    case Provision(store, tenant, hostname) =>
      if store in db.stores && db.stores[store] != tenant then db else Ensure(db, store, tenant, hostname).After(db)
    case AddDomain(store, hostname, allowed) => Add(db, store, hostname, allowed).After(db)
    case VerifyDomain(owner, id, passed, tls) =>
      (match VerifyTx(db, owner, id, passed)
       case Commit(d, NowVerified) => WriteTls(d, id, tls).After(d)
       case Commit(d, _) => d
       case Rollback(_) => db)
    case MakePrimary(owner, id) => SetPrimary(db, owner, id).After(db)
    case RemoveDomain(owner, id, pick, providerOk) =>
      (match PlanRemoval(db, owner, id, pick)
       case Commit(_, fallback) => if providerOk then CommitRemoval(db, owner, id, fallback).After(db) else db
       case Rollback(_) => db)
    case RefreshTls(owner, id, tls) =>
      if Owned(db, owner, id) && IsCustom(db.domains[id]) then WriteTls(db, id, tls).After(db) else db
  }

  function PerformAll(db: Db, ops: seq<Op>): Db {
    if ops == [] then db else Perform(PerformAll(db, ops[..|ops| - 1]), ops[|ops| - 1])
  }

  /** Every provisioned store has its platform domain and, the index allowing no second, exactly one
      primary. */
  ghost predicate Canonical(db: Db) {
    Wf(db) && forall s :: s in db.stores ==> HasPrimary(db, s)
  }

  lemma ProvisionKeeps(db: Db, store: nat, tenant: nat, hostname: string)
    requires Canonical(db)
    ensures
      var d := Perform(db, Provision(store, tenant, hostname));
      Canonical(d) && Keeps(db, d)
  {
    hide Wf, Keeps, HasPrimary, HostTaken;
    KeepsSelf(db);
    if !(store in db.stores && db.stores[store] != tenant) && Ensure(db, store, tenant, hostname).Commit? && !HostTaken(db, hostname) {
      EnsureKeeps(db, store, tenant, hostname);
    }
  }

  lemma VerifyCallKeeps(db: Db, owner: nat, id: nat, passed: bool, tls: Tls)
    requires Canonical(db)
    ensures
      var d := Perform(db, VerifyDomain(owner, id, passed, tls));
      Canonical(d) && Keeps(db, d)
  {
    hide Wf, Keeps, HasPrimary, VerifyTx, WriteTls, Linked;
    KeepsSelf(db);
    VerifyKeeps(db, owner, id, passed);
    var d := VerifyTx(db, owner, id, passed).After(db);
    WriteTlsKeeps(d, id, tls);
    WfLinked(db);
    KeepsTransitive(db, d, WriteTls(d, id, tls).After(d));
  }

  lemma WfLinked(db: Db)
    requires Wf(db)
    ensures Linked(db) && OnePrimary(db)
  {
  }

  lemma RemoveCallKeeps(db: Db, owner: nat, id: nat, pick: nat, providerOk: bool)
    requires Canonical(db)
    ensures
      var d := Perform(db, RemoveDomain(owner, id, pick, providerOk));
      Canonical(d) && Keeps(db, d)
  {
    hide Wf, Keeps, HasPrimary, CommitRemoval, OnePrimary, PlanRemoval, Linked, PlanOk;
    KeepsSelf(db);
    WfLinked(db);
    var plan := PlanRemoval(db, owner, id, pick);
    if plan.Commit? && providerOk && CommitRemoval(db, owner, id, plan.value).Commit? {
      PlanIsOk(db, owner, id, pick);
      RemovalKeeps(db, owner, id, db.domains[id].store, plan.value);
      if HasPrimary(db, db.domains[id].store) {
        RemovalLeavesNoPrimaryIff(db, owner, id, db.domains[id].store, plan.value);
      }
    }
  }

  lemma PlanIsOk(db: Db, owner: nat, id: nat, pick: nat)
    requires Linked(db) && PlanRemoval(db, owner, id, pick).Commit?
    ensures id in db.domains
    ensures PlanOk(db, id, db.domains[id].store, PlanRemoval(db, owner, id, pick).value)
    ensures db.domains[id].store in db.stores && (db.domains[id].isPrimary ==> PlanRemoval(db, owner, id, pick).value.Some?)
  {
    hide PlatformRow;
  }

  lemma PerformKeeps(db: Db, op: Op)
    requires Canonical(db)
    ensures Canonical(Perform(db, op)) && Keeps(db, Perform(db, op))
  {
    hide Wf, Keeps, HasPrimary, VerifyTx, CommitRemoval, PlanRemoval;
    KeepsSelf(db);
    match op {
      case Provision(store, tenant, hostname) => ProvisionKeeps(db, store, tenant, hostname);
      case AddDomain(store, hostname, allowed) => AddKeeps(db, store, hostname, allowed);
      case VerifyDomain(owner, id, passed, tls) => VerifyCallKeeps(db, owner, id, passed, tls);
      case MakePrimary(owner, id) =>
        if SetPrimary(db, owner, id).Commit? {
          SetPrimaryKeeps(db, owner, id);
        }
      case RemoveDomain(owner, id, pick, providerOk) => RemoveCallKeeps(db, owner, id, pick, providerOk);
      case RefreshTls(owner, id, tls) => WriteTlsKeeps(db, id, tls);
    }
  }

  const EMPTY := Db(map[], map[], 0)

  lemma EmptyIsCanonical()
    ensures Canonical(EMPTY)
  {
  }

  lemma CanonicalLinked(db: Db)
    requires Canonical(db)
    ensures Linked(db)
  {
  }

  /** From any provisioned stores with their primaries, rows of revoked or never classified domains
      among them: every sequence of calls keeps hostnames unique, every platform row and exactly one
      primary domain per provisioned store, and FAILED is neither entered nor left. */
  lemma {:induction false} SequentialCalls(db: Db, ops: seq<Op>)
    requires Canonical(db)
    ensures Canonical(PerformAll(db, ops)) && Keeps(db, PerformAll(db, ops))
  {
    hide Canonical, Keeps, Perform;
    if ops == [] {
      KeepsSelf(db);
    } else {
      var before := PerformAll(db, ops[..|ops| - 1]);
      SequentialCalls(db, ops[..|ops| - 1]);
      PerformKeeps(before, ops[|ops| - 1]);
      CanonicalLinked(db);
      KeepsTransitive(db, before, PerformAll(db, ops));
    }
  }

  /** So it is from the empty table on. */
  lemma EveryRunIsCanonical(ops: seq<Op>)
    ensures Canonical(PerformAll(EMPTY, ops))
  {
    EmptyIsCanonical();
    SequentialCalls(EMPTY, ops);
  }

  // ---------------------------------------------------------------------------------------------
  // Interleaved
  // ---------------------------------------------------------------------------------------------

  /** A call between its transactions. */
  datatype Call =
    | Removing(owner: nat, id: nat)
    | Planned(owner: nat, id: nat, store: nat, fallback: Option<nat>)
    | Verifying(owner: nat, id: nat)
    | Refreshing(owner: nat, id: nat)
    | AwaitsTls(id: nat)
    | Finished

  datatype Sys = Sys(db: Db, calls: map<nat, Call>)

  datatype Env = Env(ok: bool, pick: nat, tls: Tls)

  datatype Move =
    | Whole(op: Op)
    | Begin(cid: nat, call: Call)
    | Advance(cid: nat, env: Env)

  /** Calls that are a single transaction run as a whole. */
  predicate SingleTransaction(op: Op) {
    op.Provision? || op.AddDomain? || op.MakePrimary?
  }

  function AdvanceCall(db: Db, call: Call, env: Env): (Db, Call) {
    match call
    case Removing(owner, id) =>
      (match PlanRemoval(db, owner, id, env.pick)
       case Commit(_, fallback) => (db, Planned(owner, id, db.domains[id].store, fallback))
       case Rollback(_) => (db, Finished))
    case Planned(owner, id, _, fallback) =>
      (if env.ok then CommitRemoval(db, owner, id, fallback).After(db) else db, Finished)
    case Verifying(owner, id) =>
      (match VerifyTx(db, owner, id, env.ok)
       case Commit(d, NowVerified) => (d, AwaitsTls(id))
       case Commit(d, _) => (d, Finished)
       case Rollback(_) => (db, Finished))
    case Refreshing(owner, id) => (db, if Owned(db, owner, id) && IsCustom(db.domains[id]) then AwaitsTls(id) else Finished)
    case AwaitsTls(id) => (WriteTls(db, id, env.tls).After(db), Finished)
    case Finished => (db, Finished)
  }

  function Step(s: Sys, m: Move): Sys {
    match m
    case Whole(op) => if SingleTransaction(op) then s.(db := Perform(s.db, op)) else s
    case Begin(cid, call) =>
      if cid in s.calls || call.Planned? || call.AwaitsTls? then s else s.(calls := s.calls[cid := call])
    case Advance(cid, env) =>
      if cid !in s.calls then s
      else
        var (d, call) := AdvanceCall(s.db, s.calls[cid], env);
        Sys(d, s.calls[cid := call])
  }

  function Run(s: Sys, moves: seq<Move>): Sys {
    if moves == [] then s else Step(Run(s, moves[..|moves| - 1]), moves[|moves| - 1])
  }

  ghost predicate PlansOk(s: Sys) {
    forall c :: c in s.calls && s.calls[c].Planned? ==> PlanOk(s.db, s.calls[c].id, s.calls[c].store, s.calls[c].fallback)
  }

  ghost predicate Inv(s: Sys) {
    Wf(s.db) && PlansOk(s)
  }

  lemma AdvanceRemovalOk(db: Db, call: Call, env: Env)
    requires Wf(db) && (call.Removing? || call.Planned?) && (call.Planned? ==> PlanOk(db, call.id, call.store, call.fallback))
    ensures
      var (d, call') := AdvanceCall(db, call, env);
      && Wf(d) && Keeps(db, d)
      && (call'.Planned? ==> PlanOk(d, call'.id, call'.store, call'.fallback))
  {
    KeepsSelf(db);
    WfLinked(db);
    hide Wf, Keeps, HasPrimary, Linked, OnePrimary, CommitRemoval, PlanRemoval, PlanOk;
    if call.Removing? {
      if PlanRemoval(db, call.owner, call.id, env.pick).Commit? {
        PlanIsOk(db, call.owner, call.id, env.pick);
      }
    } else if CommitRemoval(db, call.owner, call.id, call.fallback).Commit? {
      RemovalKeeps(db, call.owner, call.id, call.store, call.fallback);
    }
  }

  lemma AdvanceOk(db: Db, call: Call, env: Env)
    requires Wf(db) && (call.Planned? ==> PlanOk(db, call.id, call.store, call.fallback))
    ensures
      var (d, call') := AdvanceCall(db, call, env);
      && Wf(d) && Keeps(db, d)
      && (call'.Planned? ==> PlanOk(d, call'.id, call'.store, call'.fallback))
  {
    if call.Removing? || call.Planned? {
      AdvanceRemovalOk(db, call, env);
    } else {
      KeepsSelf(db);
      hide Wf, Keeps, SamePrimaries, VerifyTx, WriteTls, PlanOk;
      if call.Verifying? {
        VerifyKeeps(db, call.owner, call.id, env.ok);
      } else if call.AwaitsTls? {
        WriteTlsKeeps(db, call.id, env.tls);
      }
    }
  }

  lemma WholeOk(db: Db, op: Op)
    requires Wf(db) && SingleTransaction(op)
    ensures Wf(Perform(db, op)) && Keeps(db, Perform(db, op))
  {
    hide Wf, Keeps, HasPrimary, HostTaken;
    KeepsSelf(db);
    match op {
      case Provision(store, tenant, hostname) =>
        if !(store in db.stores && db.stores[store] != tenant) && Ensure(db, store, tenant, hostname).Commit? && !HostTaken(db, hostname) {
          EnsureKeeps(db, store, tenant, hostname);
        }
      case AddDomain(store, hostname, allowed) => AddKeeps(db, store, hostname, allowed);
      case MakePrimary(owner, id) =>
        if SetPrimary(db, owner, id).Commit? {
          SetPrimaryKeeps(db, owner, id);
        }
      case _ =>
    }
  }

  lemma StepInv(s: Sys, m: Move)
    requires Inv(s)
    ensures Inv(Step(s, m)) && Keeps(s.db, Step(s, m).db)
  {
    var s' := Step(s, m);
    KeepsSelf(s.db);
    match m {
      case Whole(op) =>
        if SingleTransaction(op) {
          WholeOk(s.db, op);
        }
      case Advance(cid, env) =>
        if cid in s.calls {
          AdvanceOk(s.db, s.calls[cid], env);
        }
      case _ =>
    }
    hide Wf, Keeps, Perform, AdvanceCall, PlanOk;
    forall c | c in s.calls && s.calls[c].Planned?
      ensures PlanOk(s'.db, s.calls[c].id, s.calls[c].store, s.calls[c].fallback)
    {
      PlanStays(s.db, s'.db, s.calls[c].id, s.calls[c].store, s.calls[c].fallback);
    }
  }

  /** However the calls interleave: hostnames stay unique, no store ever has two primaries, every
      provisioned store keeps its platform rows, and FAILED is neither entered nor left. */
  lemma {:induction false} InterleavedCalls(s: Sys, moves: seq<Move>)
    requires Inv(s)
    ensures Inv(Run(s, moves)) && Keeps(s.db, Run(s, moves).db)
  {
    hide Wf, Keeps, Linked, OnePrimary, PlansOk, Step;
    if moves == [] {
      KeepsSelf(s.db);
    } else {
      var mid := Run(s, moves[..|moves| - 1]);
      InterleavedCalls(s, moves[..|moves| - 1]);
      StepInv(mid, moves[|moves| - 1]);
      WfLinked(s.db);
      KeepsTransitive(s.db, mid.db, Run(s, moves).db);
    }
  }

  /** But a removal planned while its domain was not primary can leave the store without a primary:
      in any shop, any servable custom domain can be made primary while the provider is being asked
      to release it, and is then deleted with nothing promoted. */
  lemma RaceLeavesNoPrimary(db: Db, owner: nat, id: nat, env: Env)
    requires Canonical(db) && Owned(db, owner, id) && env.ok
    requires IsCustom(db.domains[id]) && Serveable(db.domains[id]) && !db.domains[id].isPrimary
    ensures
      var moves := [Begin(0, Removing(owner, id)), Advance(0, env), Whole(MakePrimary(owner, id)), Advance(0, env)];
      var end := Run(Sys(db, map[]), moves).db;
      && db.domains[id].store in end.stores && !HasPrimary(end, db.domains[id].store)
  {
    RaceRuns(db, owner, id, env);
    RaceEnds(db, owner, id);
    hide Canonical, Run, HasPrimary, SetPrimary, CommitRemoval;
  }

  lemma RaceEnds(db: Db, owner: nat, id: nat)
    requires Canonical(db) && Owned(db, owner, id)
    requires IsCustom(db.domains[id]) && Serveable(db.domains[id]) && !db.domains[id].isPrimary
    ensures
      var end := CommitRemoval(SetPrimary(db, owner, id).After(db), owner, id, None).After(db);
      db.domains[id].store in end.stores && !HasPrimary(end, db.domains[id].store)
  {
    Swapped(db, owner, id);
    SetPrimaryKeeps(db, owner, id);
    var swapped := SetPrimary(db, owner, id).db;
    WfLinked(swapped);
    hide *;
    DeletesThePrimary(swapped, owner, id);
  }

  lemma DeletesThePrimary(db: Db, owner: nat, id: nat)
    requires OnePrimary(db) && id < db.next && id in db.domains && db.domains[id].tenant == owner
    requires IsCustom(db.domains[id]) && db.domains[id].isPrimary
    ensures
      var end := CommitRemoval(db, owner, id, None).db;
      CommitRemoval(db, owner, id, None).Commit? && end.stores == db.stores && !HasPrimary(end, db.domains[id].store)
  {
    var store := db.domains[id].store;
    assert IsPrimaryOf(db, store, id);
    RemovalLeavesNoPrimaryIff(db, owner, id, store, None);
  }

  lemma Swapped(db: Db, owner: nat, id: nat)
    requires Canonical(db) && Owned(db, owner, id)
    requires IsCustom(db.domains[id]) && Serveable(db.domains[id]) && !db.domains[id].isPrimary
    ensures
      var swapped := SetPrimary(db, owner, id);
      && swapped.Commit? && id < swapped.db.next && id in swapped.db.domains && swapped.db.stores == db.stores
      && IsCustom(swapped.db.domains[id]) && swapped.db.domains[id].tenant == owner && Wf(db) && swapped.db.domains[id].isPrimary
      && swapped.db.domains[id] == db.domains[id].(isPrimary := true) && db.domains[id].store in db.stores
  {
    CanonicalLinked(db);
    hide Wf;
  }

  lemma RaceRuns(db: Db, owner: nat, id: nat, env: Env)
    requires Owned(db, owner, id) && env.ok
    requires IsCustom(db.domains[id]) && Serveable(db.domains[id]) && !db.domains[id].isPrimary
    ensures
      var moves := [Begin(0, Removing(owner, id)), Advance(0, env), Whole(MakePrimary(owner, id)), Advance(0, env)];
      Run(Sys(db, map[]), moves).db == CommitRemoval(SetPrimary(db, owner, id).After(db), owner, id, None).After(db)
  {
    var moves := [Begin(0, Removing(owner, id)), Advance(0, env), Whole(MakePrimary(owner, id)), Advance(0, env)];
    var store := db.domains[id].store;
    var start := Sys(db, map[]);
    assert moves[..3][..2][..1][..0] == [] && moves[..3][..2][..1] == [moves[0]] && moves[..3][..2] == [moves[0], moves[1]];
    var s1 := Step(start, moves[0]);
    assert s1 == Sys(db, map[0 := Removing(owner, id)]);
    var s2 := Step(s1, moves[1]);
    assert s2 == Sys(db, map[0 := Planned(owner, id, store, None)]);
    var s3 := Step(s2, moves[2]);
    assert s3 == Sys(SetPrimary(db, owner, id).db, map[0 := Planned(owner, id, store, None)]);
    assert Step(s3, moves[3]).db == CommitRemoval(SetPrimary(db, owner, id).db, owner, id, None).db;
    hide Step;
    assert Run(start, moves[..3][..2][..1]) == s1;
    assert Run(start, moves[..3][..2]) == s2;
    assert Run(start, moves[..3]) == s3;
  }
}
