/**
 * Tenant-initiated subscription changes: an idempotency key is claimed, the billing provider is
 * asked first, and only then is the local subscription changed, by a compare-and-set.
 */
module Subscriptions {
  import opened Prelude

  datatype Status = SubPending | Trialing | Active | PastDue | Paused | SubCancelled | Expired

  datatype Subscription = Subscription(
    planId: nat, pendingPlanId: Option<nat>, cancelAtPeriodEnd: bool, status: Status, providerId: Option<nat>)

  datatype Mutation = Upgrade(toPlan: nat) | Downgrade(toPlan: nat) | CancelNow | ScheduleCancellation | UnscheduleCancellation

  datatype Request = Request(tenant: nat, key: string, mutation: Mutation)

  /** The provider's own record. */
  datatype Remote = Remote(planRef: nat, cancelled: bool, cancellationScheduled: bool)

  /** `keys` maps each claimed idempotency key to its tenant. */
  datatype Db = Db(keys: map<string, nat>, subs: map<nat, Subscription>)

  /** How one provider call turns out. A timeout or an unclassified failure tells the caller nothing:
      the provider may have applied the change or not. */
  datatype Answer = Accepts | Rejects | TimesOut(applied: bool) | Fails(applied: bool)

  /** `planExists` answers the plan lookup, `readable` whether a reconciliation read gets through. */
  datatype World = World(planExists: bool, answer: Answer, readable: bool)

  // ---------------------------------------------------------------------------------------------
  // The pieces
  // ---------------------------------------------------------------------------------------------

  datatype Decision = Nothing | Refuse | Ask

  /** Everything an operation checks on its copy of the subscription before asking the provider. */
  function Decide(s: Subscription, m: Mutation, planExists: bool): Decision {
    match m
    case Upgrade(p) =>
      if s.planId == p then Nothing
      else if !planExists || s.providerId.None? || s.status != Active then Refuse else Ask
    case Downgrade(p) =>
      if s.pendingPlanId == Some(p) then Nothing
      else if !planExists || s.providerId.None? || s.status != Active then Refuse else Ask
    case CancelNow =>
      if s.status == SubCancelled then Nothing
      else if !(s.status in {Active, PastDue, Paused}) || s.providerId.None? then Refuse else Ask
    case ScheduleCancellation =>
      if s.cancelAtPeriodEnd then Nothing
      else if s.status != Active || s.providerId.None? then Refuse else Ask
    case UnscheduleCancellation =>
      if !s.cancelAtPeriodEnd then Nothing
      else if s.status != Active || s.providerId.None? then Refuse else Ask
  }

  /** FakeBillingProvider: what an accepted change does to its record. Both plan-change modes apply
      the plan at once there. */
  function Applied(r: Remote, m: Mutation): Remote {
    match m
    case Upgrade(p) => r.(planRef := p)
    case Downgrade(p) => r.(planRef := p)
    case CancelNow => r.(cancelled := true)
    case ScheduleCancellation => r.(cancellationScheduled := true)
    case UnscheduleCancellation => r.(cancellationScheduled := false)
  }

  /** The WHERE clause of the compare-and-set: the status and the column about to change are still
      what the caller's copy says. */
  predicate Unmoved(now: Subscription, copy: Subscription, m: Mutation) {
    && now.status == copy.status
    && match m
       case Upgrade(_) => now.planId == copy.planId
       case Downgrade(_) => now.pendingPlanId == copy.pendingPlanId
       case CancelNow => true
       case ScheduleCancellation => now.cancelAtPeriodEnd == copy.cancelAtPeriodEnd
       case UnscheduleCancellation => now.cancelAtPeriodEnd == copy.cancelAtPeriodEnd
  }

  function Changed(s: Subscription, m: Mutation): Subscription {
    match m
    case Upgrade(p) => s.(planId := p)
    case Downgrade(p) => s.(pendingPlanId := Some(p))
    case CancelNow => s.(status := SubCancelled)
    case ScheduleCancellation => s.(cancelAtPeriodEnd := true)
    case UnscheduleCancellation => s.(cancelAtPeriodEnd := false)
  }

  /** SubscriptionService's method for the mutation, given the caller's copy. The plan is looked up
      again for plan changes. */
  function Persist(db: Db, tenant: nat, copy: Subscription, m: Mutation, planExists: bool): Db {
    if (m.Upgrade? || m.Downgrade?) && !planExists then db
    else if tenant in db.subs && Unmoved(db.subs[tenant], copy, m) then db.(subs := db.subs[tenant := Changed(db.subs[tenant], m)])
    else db
  }

  // ---------------------------------------------------------------------------------------------
  // A whole call, alone
  // ---------------------------------------------------------------------------------------------

  /** What the provider tells the caller, and the record it leaves. */
  function Told(remotes: map<nat, Remote>, id: nat, m: Mutation, answer: Answer): (map<nat, Remote>, Answer) {
    if id !in remotes then (remotes, if answer.TimesOut? then TimesOut(false) else Fails(false))
    else
      var applied := answer.Accepts? || ((answer.TimesOut? || answer.Fails?) && answer.applied);
      (if applied then remotes[id := Applied(remotes[id], m)] else remotes, answer)
  }

  /** A timed-out upgrade counts as made when a read shows the requested plan; nothing else can be
      confirmed by a read. */
  predicate ReadConfirms(remotes: map<nat, Remote>, id: nat, m: Mutation, readable: bool) {
    readable && id in remotes && m.Upgrade? && remotes[id].planRef == m.toPlan
  }

  function ProceedAlone(db: Db, remotes: map<nat, Remote>, tenant: nat, m: Mutation, w: World): (Db, map<nat, Remote>) {
    if tenant !in db.subs || Decide(db.subs[tenant], m, w.planExists) != Ask then (db, remotes)
    else
      var copy := db.subs[tenant];
      var (after, told) := Told(remotes, copy.providerId.value, m, w.answer);
      if told.Accepts? || (told.TimesOut? && ReadConfirms(after, copy.providerId.value, m, w.readable))
      then (Persist(db, tenant, copy, m, w.planExists), after)
      else (db, after)
  }

  function MutateAlone(db: Db, remotes: map<nat, Remote>, req: Request, w: World): (Db, map<nat, Remote>) {
    if req.key in db.keys then (db, remotes)
    else ProceedAlone(db.(keys := db.keys[req.key := req.tenant]), remotes, req.tenant, req.mutation, w)
  }

  /** The in-memory provider. */
  class FakeBillingProvider {
    var records: map<nat, Remote>

    /** One mutating call, with the outcome the test double is told to have. */
    method Change(id: nat, m: Mutation, answer: Answer) returns (told: Answer)
      modifies this
      ensures (records, told) == Told(old(records), id, m, answer)
    {
      if id !in records {
        return if answer.TimesOut? then TimesOut(false) else Fails(false);
      }
      var record := records[id];
      match answer {
        case Accepts => records := records[id := Applied(record, m)];
        case Rejects =>
        case TimesOut(applied) =>
          if applied {
            records := records[id := Applied(record, m)];
          }
        case Fails(applied) =>
          if applied {
            records := records[id := Applied(record, m)];
          }
      }
      return answer;
    }

    method GetSubscription(id: nat) returns (r: Option<Remote>)
      ensures r == if id in records then Some(records[id]) else None
    {
      return if id in records then Some(records[id]) else None;
    }
  }

  class Orchestrator {
    var keys: map<string, nat>
    var subs: map<nat, Subscription>
    const provider: FakeBillingProvider

    constructor (provider: FakeBillingProvider, keys: map<string, nat>, subs: map<nat, Subscription>)
      ensures this.provider == provider && Tables() == Db(keys, subs)
    {
      this.provider := provider;
      this.keys, this.subs := keys, subs;
    }

    function Tables(): Db
      reads this
    {
      Db(keys, subs)
    }

    method Confirm(tenant: nat, copy: Subscription, m: Mutation, planExists: bool)
      modifies this`subs
      ensures Tables() == Persist(old(Tables()), tenant, copy, m, planExists)
    {
      if (m.Upgrade? || m.Downgrade?) && !planExists {
        return;
      }
      if tenant in subs && Unmoved(subs[tenant], copy, m) {
        subs := subs[tenant := Changed(subs[tenant], m)];
      }
    }

    /** withIdempotency around the operation's body. */
    method Mutate(req: Request, w: World)
      modifies this, provider
      ensures (Tables(), provider.records) == MutateAlone(old(Tables()), old(provider.records), req, w)
    {
      if req.key in keys {
        return;
      }
      keys := keys[req.key := req.tenant];
      if req.tenant !in subs {
        return;
      }
      var copy := subs[req.tenant];
      if Decide(copy, req.mutation, w.planExists) != Ask {
        return;
      }
      var id := copy.providerId.value;
      var told := provider.Change(id, req.mutation, w.answer);
      if told.Accepts? {
        Confirm(req.tenant, copy, req.mutation, w.planExists);
      } else if told.TimesOut? && w.readable {
        var state := provider.GetSubscription(id);
        if state.Some? && req.mutation.Upgrade? && state.value.planRef == req.mutation.toPlan {
          Confirm(req.tenant, copy, req.mutation, w.planExists);
        }
      }
    }
  }
}
