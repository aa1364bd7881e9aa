/**
 * What a subscription change does, on the columns: when the provider is asked, what it changes in its
 * record, and when and how the local row follows.
 */
module SubscriptionOutcomes {
  import opened Prelude
  import opened Subscriptions

  /** The row lets the change be asked for: it is linked to the provider, in a fitting status, and the
      change is not in it yet. */
  predicate MayAsk(s: Subscription, m: Mutation, planExists: bool) {
    && s.providerId.Some?
    && (s.status == Active || (m.CancelNow? && (s.status == PastDue || s.status == Paused)))
    && match m
       case Upgrade(p) => planExists && s.planId != p
       case Downgrade(p) => planExists && s.pendingPlanId != Some(p)
       case CancelNow => true
       case ScheduleCancellation => !s.cancelAtPeriodEnd
       case UnscheduleCancellation => s.cancelAtPeriodEnd
  }

  lemma MayAskIff(s: Subscription, m: Mutation, planExists: bool)
    ensures Decide(s, m, planExists) == Ask <==> MayAsk(s, m, planExists)
  {
  }

  /** The provider's record with the change in it. */
  predicate RemoteHas(before: Remote, after: Remote, m: Mutation) {
    match m
    case Upgrade(p) => after.planRef == p && after.cancelled == before.cancelled && after.cancellationScheduled == before.cancellationScheduled
    case Downgrade(p) => after.planRef == p && after.cancelled == before.cancelled && after.cancellationScheduled == before.cancellationScheduled
    case CancelNow => after.planRef == before.planRef && after.cancelled && after.cancellationScheduled == before.cancellationScheduled
    case _ =>
      after.planRef == before.planRef && after.cancelled == before.cancelled && (after.cancellationScheduled <==> m.ScheduleCancellation?)
  }

  /** The local row with the change in it: an upgrade takes effect, a downgrade waits. */
  predicate LocalHas(before: Subscription, after: Subscription, m: Mutation) {
    && after.providerId == before.providerId
    && after.planId == (if m.Upgrade? then m.toPlan else before.planId)
    && after.pendingPlanId == (if m.Downgrade? then Some(m.toPlan) else before.pendingPlanId)
    && after.status == (if m.CancelNow? then SubCancelled else before.status)
    && after.cancelAtPeriodEnd == (if m.ScheduleCancellation? then true else if m.UnscheduleCancellation? then false else before.cancelAtPeriodEnd)
  }

  /** Only this tenant's row changes, by this mutation. */
  predicate RowChanges(before: Db, after: Db, tenant: nat, m: Mutation) {
    && tenant in before.subs && after.keys == before.keys && after.subs.Keys == before.subs.Keys
    && LocalHas(before.subs[tenant], after.subs[tenant], m)
    && forall t :: t in before.subs && t != tenant ==> after.subs[t] == before.subs[t]
  }

  /** Writing the change down: exactly while status and the column about to change are as in the
      caller's copy (a cancellation compares the status only), and the plan of a plan change exists. */
  lemma ConfirmsExactly(db: Db, tenant: nat, copy: Subscription, m: Mutation, planExists: bool)
    ensures
      var d := Persist(db, tenant, copy, m, planExists);
      if
        && tenant in db.subs && db.subs[tenant].status == copy.status
        && (m.Upgrade? ==> planExists && db.subs[tenant].planId == copy.planId)
        && (m.Downgrade? ==> planExists && db.subs[tenant].pendingPlanId == copy.pendingPlanId)
        && (m.ScheduleCancellation? || m.UnscheduleCancellation? ==> db.subs[tenant].cancelAtPeriodEnd == copy.cancelAtPeriodEnd)
      then RowChanges(db, d, tenant, m) else d == db
  {
  }

  /** The provider made the change, whatever it says: it accepted, or it went silent or failed after
      the fact. */
  predicate Made(remotes: map<nat, Remote>, id: nat, answer: Answer) {
    id in remotes && match answer case Accepts => true case Rejects => false case TimesOut(applied) => applied case Fails(applied) => applied
  }

  /** The caller may take it as made: accepted, or for an upgrade a time-out after which a read shows
      the plan. */
  predicate Known(remotes: map<nat, Remote>, id: nat, m: Mutation, w: World) {
    id in remotes && (w.answer.Accepts? || (w.answer.TimesOut? && w.readable && m.Upgrade? && (w.answer.applied || remotes[id].planRef == m.toPlan)))
  }

  /** A whole change, uninterrupted. A known key does nothing; a new one is claimed whatever follows.
      The provider is asked exactly if the row lets it, its record changes exactly if it made the
      change, and the local row follows exactly if that is known. */
  lemma MutatesExactly(db: Db, remotes: map<nat, Remote>, req: Request, w: World)
    ensures
      var (d, after) := MutateAlone(db, remotes, req, w);
      var claimed := db.(keys := db.keys[req.key := req.tenant]);
      if req.key in db.keys then d == db && after == remotes
      else if !(req.tenant in db.subs && MayAsk(db.subs[req.tenant], req.mutation, w.planExists)) then d == claimed && after == remotes
      else
        var id := db.subs[req.tenant].providerId.value;
        && (if Made(remotes, id, w.answer) then
              && after.Keys == remotes.Keys && RemoteHas(remotes[id], after[id], req.mutation)
              && forall i :: i in remotes && i != id ==> after[i] == remotes[i]
            else after == remotes)
        && (if Known(remotes, id, req.mutation, w) then RowChanges(claimed, d, req.tenant, req.mutation) else d == claimed)
  {
    var claimed := db.(keys := db.keys[req.key := req.tenant]);
    if req.key !in db.keys && req.tenant in db.subs {
      var copy := db.subs[req.tenant];
      MayAskIff(copy, req.mutation, w.planExists);
      ConfirmsExactly(claimed, req.tenant, copy, req.mutation, w.planExists);
      if MayAsk(copy, req.mutation, w.planExists) {
        TellsExactly(remotes, copy.providerId.value, req.mutation, w);
      }
    }
    hide Decide, Persist, Told, ReadConfirms, RemoteHas, RowChanges, Made, Known;
  }

  lemma TellsExactly(remotes: map<nat, Remote>, id: nat, m: Mutation, w: World)
    ensures
      var (after, told) := Told(remotes, id, m, w.answer);
      && (if Made(remotes, id, w.answer) then
            && after.Keys == remotes.Keys && RemoteHas(remotes[id], after[id], m)
            && forall i :: i in remotes && i != id ==> after[i] == remotes[i]
          else after == remotes)
      && (told.Accepts? || (told.TimesOut? && ReadConfirms(after, id, m, w.readable)) <==> Known(remotes, id, m, w))
  {
  }
}
