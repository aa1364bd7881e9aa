/**
 * What one run of the poller does to one event, on the columns: which subscription it is about, when
 * it is skipped, what it commits, and what a failure leaves for the next run.
 */
module BillingOutcomes {
  import opened Prelude
  import opened BillingWebhooks

  /** The event is about this subscription: the one it names, or else its customer's. */
  predicate About(db: Db, e: Event, s: nat) {
    && s in db.subs
    && (e.bySubscription == Some(s) ||
        ((e.bySubscription.None? || e.bySubscription.value !in db.subs) && e.byCustomer.Some? &&
         e.byCustomer.value in db.customers && db.customers[e.byCustomer.value] == s))
  }

  /** The event is no newer than the row: by its own time, or by its arrival if it has none. One whose
      time cannot be read is never old. */
  predicate IsOld(e: Event, updatedAt: int) {
    match e.occurred
    case At(t) => t <= updatedAt
    case Absent => e.createdAt <= updatedAt
    case Unreadable => false
  }

  lemma AboutIsResolved(db: Db, e: Event, s: nat)
    ensures About(db, e, s) <==> Resolve(db, e) == Some(s)
  {
  }

  /** Only this event's status changes. */
  predicate OnlyMarked(before: Db, after: Db, id: nat, status: EventStatus)
    requires id < |before.events|
  {
    after == before.(events := before.events[id := before.events[id].(status := status)])
  }

  /** The failure is written down as attempt `n`: a dead letter for good, or due again after the wait. */
  predicate Waits(before: Db, after: Db, id: nat, n: nat, hopeless: bool, w: World)
    requires id < |before.events|
  {
    var e := before.events[id];
    if !w.records then after == before
    else
      && |after.events| == |before.events| && after == before.(events := before.events[id := after.events[id]])
      && after.events[id].attempts == n
      && (if hopeless || n >= 6 then after.events[id] == e.(status := DeadLetter, attempts := n)
          else
            var seconds := if n <= 1 then 30 else if n == 2 then 120 else if n == 3 then 600 else if n == 4 then 1800 else 3600;
            after.events[id] == e.(status := ProcessingFailed, attempts := n, availableAt := w.now + seconds, delays := e.delays + seconds))
  }

  lemma FailsExactly(db: Db, id: nat, attempts: nat, reason: Failure, w: World)
    requires id < |db.events|
    ensures Waits(db, RecordFailure(db, id, attempts, reason, w), id, attempts + 1, reason == IllegalTransition, w)
  {
  }

  /** One run. Only an event that was received or failed is run; one that cannot be read fails as if for
      the first time. One about nobody, or an old one, is IGNORED. Otherwise the subscription's method
      decides: a refused transition is a dead letter at once, another failure (a failed commit is one)
      is an attempt more, and a success is PROCESSED, with its change and its effect in the same commit. */
  lemma ProcessesExactly(db: Db, id: nat, w: World)
    requires id < |db.events|
    ensures
      var e, d := db.events[id], ProcessOne(db, id, w);
      if !(e.status == Received || e.status == ProcessingFailed) then d == db
      else if !w.readable then Waits(db, d, id, 1, false, w)
      else if forall s: nat :: About(db, e, s) ==> IsOld(e, db.subs[s].updatedAt) then
        (if w.commits then OnlyMarked(db, d, id, Ignored) else Waits(db, d, id, e.attempts + 1, false, w))
      else
        exists s: nat :: About(db, e, s) && !IsOld(e, db.subs[s].updatedAt) &&
          match w.outcome
          case NotAllowed => Waits(db, d, id, e.attempts + 1, true, w)
          case Fails => Waits(db, d, id, e.attempts + 1, false, w)
          case NoChange => if w.commits then OnlyMarked(db, d, id, Processed) else Waits(db, d, id, e.attempts + 1, false, w)
          case Changes(after) =>
            if !w.commits then Waits(db, d, id, e.attempts + 1, false, w)
            else
              && d.subs == db.subs[s := after] && d.customers == db.customers
              && OnlyMarked(db, d.(subs := db.subs, effects := db.effects), id, Processed)
              && d.effects == db.effects + [Effect(id, s, if e.renewed && e.hasPeriod && db.subs[s].pastDue then Recover
                                                          else if e.renewed && e.hasPeriod then Renew else Apply)]
  {
    var e := db.events[id];
    forall s: nat
      ensures About(db, e, s) <==> Resolve(db, e) == Some(s)
    {
      AboutIsResolved(db, e, s);
    }
    FailsExactly(db, id, 0, Rejected, w);
    FailsExactly(db, id, e.attempts, Rejected, w);
    FailsExactly(db, id, e.attempts, IllegalTransition, w);
    hide Resolve, About, Waits, RecordFailure;
  }

  /** An event beyond the table changes nothing. */
  lemma NothingBeyond(db: Db, id: nat, w: World)
    requires id >= |db.events|
    ensures ProcessOne(db, id, w) == db
  {
  }
}
