/**
 * Any number of subscription calls interleaved with each other, with other writers of the
 * subscription, and with anything the provider does on its own.
 */
module SubscriptionProtocol {
  import opened Prelude
  import opened SubscriptionOutcomes
  import opened Subscriptions

  datatype Call =
    | Begun(req: Request)
    | Unclaimed(req: Request)
    | Proceeding(req: Request)
    | Asking(req: Request, copy: Subscription)
    | Unanswered(req: Request, copy: Subscription)
    | Confirmed(req: Request, copy: Subscription)
    | Replayed(req: Request)
    | Ended(req: Request)

  /** What happened, in order: the provider accepted a call's change, a call's read showed a plan, a
      call changed the local subscription. */
  datatype Entry =
    | Accepted(caller: nat, mutation: Mutation)
    | Showed(caller: nat, plan: nat)
    | Local(caller: nat, mutation: Mutation)

  datatype Sys = Sys(db: Db, remotes: map<nat, Remote>, calls: map<nat, Call>, log: seq<Entry>)

  datatype Move =
    | Begin(cid: nat, req: Request)
    | Advance(cid: nat, world: World)
    | Elsewhere(tenant: nat, sub: Subscription)
    | ProviderChanges(id: nat, remote: Remote)

  // ---------------------------------------------------------------------------------------------
  // Steps
  // ---------------------------------------------------------------------------------------------

  function Advance1(s: Sys, cid: nat, w: World): Sys
    requires cid in s.calls && (s.calls[cid].Asking? || s.calls[cid].Unanswered? ==> s.calls[cid].copy.providerId.Some?)
  {
    var call := s.calls[cid];
    match call
    case Begun(req) => s.(calls := s.calls[cid := if req.key in s.db.keys then Replayed(req) else Unclaimed(req)])
    case Unclaimed(req) =>
      if req.key in s.db.keys then s.(calls := s.calls[cid := Replayed(req)])
      else s.(db := s.db.(keys := s.db.keys[req.key := req.tenant]), calls := s.calls[cid := Proceeding(req)])
    case Proceeding(req) =>
      var next := if req.tenant in s.db.subs && Decide(s.db.subs[req.tenant], req.mutation, w.planExists) == Ask
                  then Asking(req, s.db.subs[req.tenant]) else Ended(req);
      s.(calls := s.calls[cid := next])
    case Asking(req, copy) => AdvanceAsking(s, cid, w)
    case Unanswered(req, copy) =>
      var id := copy.providerId.value;
      if !w.readable || id !in s.remotes then s.(calls := s.calls[cid := Ended(req)])
      else
        s.(calls := s.calls[cid := if ReadConfirms(s.remotes, id, req.mutation, true) then Confirmed(req, copy) else Ended(req)],
           log := s.log + [Showed(cid, s.remotes[id].planRef)])
    case Confirmed(req, copy) =>
      var db := Persist(s.db, req.tenant, copy, req.mutation, w.planExists);
      s.(db := db, calls := s.calls[cid := Ended(req)], log := if db == s.db then s.log else s.log + [Local(cid, req.mutation)])
    case _ => s
  }

  function AdvanceAsking(s: Sys, cid: nat, w: World): Sys
    requires cid in s.calls && s.calls[cid].Asking? && s.calls[cid].copy.providerId.Some?
  {
    var (req, copy) := (s.calls[cid].req, s.calls[cid].copy);
    var (remotes, told) := Told(s.remotes, copy.providerId.value, req.mutation, w.answer);
    var next := if told.Accepts? then Confirmed(req, copy) else if told.TimesOut? then Unanswered(req, copy) else Ended(req);
    s.(remotes := remotes, calls := s.calls[cid := next],
       log := if told.Accepts? then s.log + [Accepted(cid, req.mutation)] else s.log)
  }

  /** `Elsewhere` is any other writer of a subscription (webhooks, the scheduler), `ProviderChanges`
      anything that happens at the provider without this service. */
  function Step(s: Sys, m: Move): Sys
    requires Inv(s)
  {
    match m
    case Begin(cid, req) => if cid in s.calls then s else s.(calls := s.calls[cid := Begun(req)])
    case Advance(cid, w) => if cid in s.calls then Advance1(s, cid, w) else s
    case Elsewhere(tenant, sub) => s.(db := s.db.(subs := s.db.subs[tenant := sub]))
    case ProviderChanges(id, remote) => s.(remotes := s.remotes[id := remote])
  }

  // ---------------------------------------------------------------------------------------------
  // The invariant
  // ---------------------------------------------------------------------------------------------

  /** The mutation body of this call was started. */
  predicate Ran(call: Call) {
    !call.Begun? && !call.Unclaimed? && !call.Replayed?
  }

  predicate StillToAsk(call: Call) {
    call.Begun? || call.Unclaimed? || call.Proceeding? || call.Asking?
  }

  /** The provider told this very call that the change is made. */
  ghost predicate Granted(log: seq<Entry>, cid: nat, m: Mutation, before: nat)
    requires before <= |log|
  {
    exists j :: 0 <= j < before && (log[j] == Accepted(cid, m) || (m.Upgrade? && log[j] == Showed(cid, m.toPlan)))
  }

  ghost predicate LogOk(log: seq<Entry>) {
    && (forall k :: 0 <= k < |log| && log[k].Local? ==> Granted(log, log[k].caller, log[k].mutation, k))
    && (forall j, k :: 0 <= j < k < |log| && log[j].Accepted? && log[k].Accepted? ==> log[j].caller != log[k].caller)
    && (forall j, k :: 0 <= j < k < |log| && log[j].Local? && log[k].Local? ==> log[j].caller != log[k].caller)
  }

  ghost predicate CallOk(s: Sys, cid: nat)
    requires cid in s.calls
  {
    var call := s.calls[cid];
    && (Ran(call) ==> call.req.key in s.db.keys && s.db.keys[call.req.key] == call.req.tenant)
    && (call.Asking? || call.Unanswered? || call.Confirmed? ==> call.copy.providerId.Some?)
    && (StillToAsk(call) ==> forall k :: 0 <= k < |s.log| ==> !(s.log[k].Accepted? && s.log[k].caller == cid))
    && (!call.Ended? ==> forall k :: 0 <= k < |s.log| ==> !(s.log[k].Local? && s.log[k].caller == cid))
    && (call.Confirmed? ==> Granted(s.log, cid, call.req.mutation, |s.log|))
  }

  ghost predicate Inv(s: Sys) {
    && LogOk(s.log)
    && (forall c :: c in s.calls ==> CallOk(s, c))
    && (forall c, d :: c in s.calls && d in s.calls && c != d && Ran(s.calls[c]) && Ran(s.calls[d]) ==>
          s.calls[c].req.key != s.calls[d].req.key)
    && (forall k :: 0 <= k < |s.log| ==> s.log[k].caller in s.calls && Ran(s.calls[s.log[k].caller]))
  }

  // ---------------------------------------------------------------------------------------------
  // Every step keeps it
  // ---------------------------------------------------------------------------------------------

  /** How a step extends the log, and what it leaves of everybody else. */
  ghost predicate Extends(s: Sys, s': Sys, cid: nat) {
    && cid in s.calls && cid in s'.calls && s'.calls == s.calls[cid := s'.calls[cid]] && s'.calls[cid].req == s.calls[cid].req
    && s.log <= s'.log && |s'.log| <= |s.log| + 1
    && (|s'.log| > |s.log| ==> s'.log[|s.log|].caller == cid)
    && (forall k :: k in s.db.keys ==> k in s'.db.keys && s'.db.keys[k] == s.db.keys[k])
    && (Ran(s.calls[cid]) ==> Ran(s'.calls[cid]))
    && (|s'.log| > |s.log| ==> Ran(s.calls[cid]))
  }

  lemma GrantedStays(log: seq<Entry>, more: seq<Entry>, cid: nat, m: Mutation, before: nat)
    requires log <= more && before <= |log| && Granted(log, cid, m, before)
    ensures forall n :: before <= n <= |more| ==> Granted(more, cid, m, n)
  {
    var j :| 0 <= j < before && (log[j] == Accepted(cid, m) || (m.Upgrade? && log[j] == Showed(cid, m.toPlan)));
    assert more[j] == log[j];
  }

  lemma AdvanceExtends(s: Sys, cid: nat, w: World)
    requires Inv(s) && cid in s.calls
    ensures Extends(s, Advance1(s, cid, w), cid)
  {
    assert CallOk(s, cid);
    hide Granted, LogOk, Told, Decide, Persist, ReadConfirms;
  }

  lemma AppendEntry(log: seq<Entry>, e: Entry)
    requires LogOk(log)
    requires e.Local? ==> Granted(log, e.caller, e.mutation, |log|)
    requires e.Accepted? ==> forall k :: 0 <= k < |log| ==> !(log[k].Accepted? && log[k].caller == e.caller)
    requires e.Local? ==> forall k :: 0 <= k < |log| ==> !(log[k].Local? && log[k].caller == e.caller)
    ensures LogOk(log + [e])
  {
    var more := log + [e];
    forall k | 0 <= k < |more| && more[k].Local?
      ensures Granted(more, more[k].caller, more[k].mutation, k)
    {
      if k < |log| {
        GrantedStays(log, more, log[k].caller, log[k].mutation, k);
      } else {
        GrantedStays(log, more, e.caller, e.mutation, |log|);
      }
    }
  }

  lemma AdvanceLog(s: Sys, cid: nat, w: World)
    requires Inv(s) && cid in s.calls
    ensures LogOk(Advance1(s, cid, w).log)
  {
    var s' := Advance1(s, cid, w);
    assert CallOk(s, cid);
    AdvanceExtends(s, cid, w);
    if |s'.log| > |s.log| {
      var e := s'.log[|s.log|];
      assert s'.log == s.log + [e];
      hide LogOk, Granted, Told, Decide, Persist, ReadConfirms;
      assert e.Local? ==> s.calls[cid].Confirmed? && e == Local(cid, s.calls[cid].req.mutation);
      assert e.Accepted? ==> s.calls[cid].Asking? && e == Accepted(cid, s.calls[cid].req.mutation);
      hide Advance1, Extends;
      AppendEntry(s.log, e);
    }
  }

  /** The call that moves stays in order. */
  lemma AdvanceOwn(s: Sys, cid: nat, w: World)
    requires Inv(s) && cid in s.calls
    ensures CallOk(Advance1(s, cid, w), cid)
  {
    var s' := Advance1(s, cid, w);
    assert CallOk(s, cid);
    AdvanceExtends(s, cid, w);
    AdvanceGrants(s, cid, w);
    hide LogOk, Told, Persist, Granted, ReadConfirms;
  }

  lemma AdvanceGrants(s: Sys, cid: nat, w: World)
    requires Inv(s) && cid in s.calls
    ensures
      var s' := Advance1(s, cid, w);
      s'.calls[cid].Confirmed? ==> Granted(s'.log, cid, s.calls[cid].req.mutation, |s'.log|)
  {
    var s' := Advance1(s, cid, w);
    var m := s.calls[cid].req.mutation;
    assert CallOk(s, cid);
    hide LogOk, Told, Persist, Decide;
    if s'.calls[cid].Confirmed? {
      assert |s'.log| > |s.log|;
      assert s'.log[|s.log|] == Accepted(cid, m) || (m.Upgrade? && s'.log[|s.log|] == Showed(cid, m.toPlan));
    }
  }

  lemma OthersKeep(s: Sys, s': Sys, cid: nat, d: nat)
    requires Inv(s) && Extends(s, s', cid) && d in s.calls && d != cid
    ensures CallOk(s', d)
  {
    assert CallOk(s, d);
    if s.calls[d].Confirmed? {
      GrantedStays(s.log, s'.log, d, s.calls[d].req.mutation, |s.log|);
    }
    hide Granted, LogOk;
  }

  lemma AdvanceInv(s: Sys, cid: nat, w: World)
    requires Inv(s) && cid in s.calls
    ensures Inv(Advance1(s, cid, w))
  {
    var s' := Advance1(s, cid, w);
    AdvanceExtends(s, cid, w);
    AdvanceLog(s, cid, w);
    AdvanceOwn(s, cid, w);
    forall d | d in s'.calls
      ensures CallOk(s', d)
    {
      if d != cid {
        OthersKeep(s, s', cid, d);
      }
    }
    NewClaim(s, cid, w);
    hide LogOk, CallOk, Advance1;
  }

  /** A key is claimed by a call only when no call before it was. */
  lemma NewClaim(s: Sys, cid: nat, w: World)
    requires Inv(s) && cid in s.calls
    ensures
      Ran(Advance1(s, cid, w).calls[cid]) && !Ran(s.calls[cid]) ==>
      forall d :: d in s.calls && Ran(s.calls[d]) ==> s.calls[d].req.key != s.calls[cid].req.key
  {
    assert CallOk(s, cid);
    forall d | d in s.calls && Ran(s.calls[d])
      ensures s.calls[d].req.key in s.db.keys
    {
      assert CallOk(s, d);
    }
    hide Granted, LogOk, Told, Decide, Persist;
  }

  lemma StepInv(s: Sys, m: Move)
    requires Inv(s)
    ensures Inv(Step(s, m)) && s.log <= Step(s, m).log
    ensures forall c :: c in s.calls ==> c in Step(s, m).calls && Step(s, m).calls[c].req == s.calls[c].req && (Ran(s.calls[c]) ==> Ran(Step(s, m).calls[c]))
  {
    match m {
      case Advance(cid, w) =>
        if cid in s.calls {
          AdvanceExtends(s, cid, w);
          AdvanceInv(s, cid, w);
          hide Inv, Advance1;
        }
      case _ =>
        hide Granted, LogOk;
        var s' := Step(s, m);
        forall d | d in s.calls
          ensures CallOk(s', d)
        {
          assert CallOk(s, d);
        }
    }
  }

  function Run(s: Sys, moves: seq<Move>): (s': Sys)
    requires Inv(s)
    ensures Inv(s')
    decreases |moves|
  {
    if moves == [] then s else StepInv(s, moves[0]); Run(Step(s, moves[0]), moves[1..])
  }

  lemma {:induction false} RunKeeps(s: Sys, moves: seq<Move>)
    requires Inv(s)
    ensures s.log <= Run(s, moves).log
    ensures forall c :: c in s.calls ==> c in Run(s, moves).calls && Run(s, moves).calls[c].req == s.calls[c].req && (Ran(s.calls[c]) ==> Ran(Run(s, moves).calls[c]))
    decreases |moves|
  {
    if moves != [] {
      StepInv(s, moves[0]);
      RunKeeps(Step(s, moves[0]), moves[1..]);
      hide Inv, Step;
    }
  }

  // ---------------------------------------------------------------------------------------------
  // Results
  // ---------------------------------------------------------------------------------------------

  const INIT := Sys(Db(map[], map[]), map[], map[], [])

  /** One idempotency key starts the mutation body at most once, however many calls carry it; and a
      call gets at most one change accepted by the provider and makes at most one local change. */
  lemma OneRunPerKey(before: seq<Move>, after: seq<Move>, c: nat, d: nat, j: nat, k: nat)
    requires c in Run(INIT, before).calls && Ran(Run(INIT, before).calls[c])
    requires d in Run(Run(INIT, before), after).calls && Ran(Run(Run(INIT, before), after).calls[d])
    requires Run(INIT, before).calls[c].req.key == Run(Run(INIT, before), after).calls[d].req.key
    requires j < k < |Run(Run(INIT, before), after).log|
    ensures c == d
    ensures
      var log := Run(Run(INIT, before), after).log;
      log[j].caller == log[k].caller ==> !(log[j].Accepted? && log[k].Accepted?) && !(log[j].Local? && log[k].Local?)
  {
    RunKeeps(Run(INIT, before), after);
    var s := Run(Run(INIT, before), after);
    assert LogOk(s.log);
  }

  /** Every local change follows the provider's word for that change, given to that very call: its
      acceptance, or for an upgrade a read that shows the requested plan. So for every pattern of
      acceptances, rejections, failures and timeouts. */
  lemma LocalFollowsProvider(moves: seq<Move>, k: nat)
    requires k < |Run(INIT, moves).log| && Run(INIT, moves).log[k].Local?
    ensures
      var log := Run(INIT, moves).log;
      exists j :: 0 <= j < k && log[j].caller == log[k].caller &&
        (log[j] == Accepted(log[k].caller, log[k].mutation) ||
         (log[k].mutation.Upgrade? && log[j] == Showed(log[k].caller, log[k].mutation.toPlan)))
  {
    var log := Run(INIT, moves).log;
    assert LogOk(log);
    assert Granted(log, log[k].caller, log[k].mutation, k);
  }

  /** And nothing else these calls do changes a subscription: a step that changes one appends the
      matching entry, and changes only the column the mutation is about. */
  lemma ChangesAreLogged(s: Sys, cid: nat, w: World, tenant: nat)
    requires Inv(s) && cid in s.calls && tenant in s.db.subs
    ensures
      var s' := Advance1(s, cid, w);
      && tenant in s'.db.subs
      && (s'.db.subs[tenant] != s.db.subs[tenant] ==>
            && s'.log == s.log + [Local(cid, s.calls[cid].req.mutation)] && s.calls[cid].req.tenant == tenant
            && LocalHas(s.db.subs[tenant], s'.db.subs[tenant], s.calls[cid].req.mutation))
  {
    assert CallOk(s, cid);
    if s.calls[cid].Confirmed? {
      ConfirmsExactly(s.db, s.calls[cid].req.tenant, s.calls[cid].copy, s.calls[cid].req.mutation, w.planExists);
    }
    hide Granted, LogOk, Told, Decide, Persist, LocalHas;
  }

  /** A timed-out downgrade, cancellation or unscheduling is never persisted, whatever the provider
      made of it. */
  lemma TimeoutIsNotAcceptance(s: Sys, cid: nat, w: World, w': World)
    requires Inv(s) && cid in s.calls && s.calls[cid].Unanswered? && !s.calls[cid].req.mutation.Upgrade?
    ensures
      var s' := Advance1(s, cid, w);
      s'.calls[cid].Ended? && s'.db == s.db && Advance1(s', cid, w') == s'
  {
    assert CallOk(s, cid);
  }

  /** A call that nobody interrupts does exactly what Orchestrator.Mutate does. */
  lemma SoloIsAlone(s: Sys, cid: nat, w: World)
    requires Inv(s) && cid in s.calls && s.calls[cid].Begun?
    ensures
      var end := Solo(s, cid, w, 6);
      (end.db, end.remotes) == MutateAlone(s.db, s.remotes, s.calls[cid].req, w)
  {
    hide Inv, Told, Decide, Persist, ReadConfirms;
    SoloIsRun(s, cid, w);
  }

  function Solo(s: Sys, cid: nat, w: World, n: nat): Sys
    requires cid in s.calls && Linked(s.calls[cid])
    decreases n
  {
    if n == 0 then s else LinkedStays(s, cid, w); Solo(Advance1(s, cid, w), cid, w, n - 1)
  }

  predicate Linked(call: Call) {
    call.Asking? || call.Unanswered? || call.Confirmed? ==> call.copy.providerId.Some?
  }

  lemma LinkedStays(s: Sys, cid: nat, w: World)
    requires cid in s.calls && Linked(s.calls[cid])
    ensures cid in Advance1(s, cid, w).calls && Linked(Advance1(s, cid, w).calls[cid])
  {
  }

  lemma {:induction false} SoloStays(s: Sys, cid: nat, w: World, n: nat)
    requires cid in s.calls && (s.calls[cid].Ended? || s.calls[cid].Replayed?)
    ensures Solo(s, cid, w, n) == s
  {
    if n > 0 {
      SoloStays(s, cid, w, n - 1);
    }
  }

  lemma SoloIsRun(s: Sys, cid: nat, w: World)
    requires cid in s.calls && s.calls[cid].Begun?
    ensures
      var end := Solo(s, cid, w, 6);
      (end.db, end.remotes) == MutateAlone(s.db, s.remotes, s.calls[cid].req, w)
  {
    var req := s.calls[cid].req;
    var s1 := Advance1(s, cid, w);
    assert Solo(s, cid, w, 6) == Solo(s1, cid, w, 5);
    if req.key in s.db.keys {
      SoloStays(s1, cid, w, 5);
    } else {
      var s2 := Advance1(s1, cid, w);
      assert Solo(s1, cid, w, 5) == Solo(s2, cid, w, 4);
      hide Told, Decide, Persist, ReadConfirms;
      SoloProceeds(s2, cid, w);
    }
  }

  lemma SoloProceeds(s: Sys, cid: nat, w: World)
    requires cid in s.calls && s.calls[cid].Proceeding?
    ensures
      var end := Solo(s, cid, w, 4);
      var req := s.calls[cid].req;
      (end.db, end.remotes) == ProceedAlone(s.db, s.remotes, req.tenant, req.mutation, w)
  {
    hide Told, Persist;
    var s1 := Advance1(s, cid, w);
    LinkedStays(s, cid, w);
    assert Solo(s, cid, w, 4) == Solo(s1, cid, w, 3);
    if s1.calls[cid].Ended? {
      SoloStays(s1, cid, w, 3);
    } else {
      SoloAsks(s1, cid, w);
    }
  }

  lemma SoloAsks(s: Sys, cid: nat, w: World)
    requires cid in s.calls && s.calls[cid].Asking? && s.calls[cid].copy.providerId.Some?
    ensures
      var end := Solo(s, cid, w, 3);
      var (req, copy) := (s.calls[cid].req, s.calls[cid].copy);
      var (after, told) := Told(s.remotes, copy.providerId.value, req.mutation, w.answer);
      && end.remotes == after
      && end.db == if told.Accepts? || (told.TimesOut? && ReadConfirms(after, copy.providerId.value, req.mutation, w.readable))
                   then Persist(s.db, req.tenant, copy, req.mutation, w.planExists) else s.db
  {
    hide Told, Persist;
    var s1 := Advance1(s, cid, w);
    LinkedStays(s, cid, w);
    assert Solo(s, cid, w, 3) == Solo(s1, cid, w, 2);
    var s2 := Advance1(s1, cid, w);
    LinkedStays(s1, cid, w);
    assert Solo(s1, cid, w, 2) == Solo(s2, cid, w, 1);
    assert Solo(s2, cid, w, 1) == Advance1(s2, cid, w);
  }

  function Advances(cid: nat, w: World, n: nat): seq<Move> {
    if n == 0 then [] else [Advance(cid, w)] + Advances(cid, w, n - 1)
  }

  lemma {:induction false} AdvancesAreSolo(s: Sys, cid: nat, w: World, n: nat)
    requires Inv(s) && cid in s.calls && Linked(s.calls[cid])
    ensures Run(s, Advances(cid, w, n)) == Solo(s, cid, w, n)
    decreases n
  {
    hide Inv, Advance1;
    if n > 0 {
      var moves := Advances(cid, w, n);
      assert moves[0] == Advance(cid, w) && moves[1..] == Advances(cid, w, n - 1);
      LinkedStays(s, cid, w);
      StepInv(s, moves[0]);
      AdvancesAreSolo(Step(s, moves[0]), cid, w, n - 1);
    }
  }

  /** In any state, a call from its beginning to its end with nothing in between does what MutatesExactly
      says. */
  lemma MutationRuns(s: Sys, cid: nat, req: Request, w: World)
    requires Inv(s) && cid !in s.calls
    ensures
      var end := Run(s, [Begin(cid, req)] + Advances(cid, w, 6));
      (end.db, end.remotes) == MutateAlone(s.db, s.remotes, req, w)
  {
    var moves := [Begin(cid, req)] + Advances(cid, w, 6);
    assert moves[0] == Begin(cid, req) && moves[1..] == Advances(cid, w, 6);
    StepInv(s, moves[0]);
    hide Inv, MutateAlone, Advance1;
    var begun := Step(s, moves[0]);
    AdvancesAreSolo(begun, cid, w, 6);
    SoloIsAlone(begun, cid, w);
  }
}
