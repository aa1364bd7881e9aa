/**
 * The billing webhook poller: one event at a time, in a transaction, with a bounded number of
 * retries and a dead letter.
 */
module BillingWebhooks {
  import opened Prelude

  datatype EventStatus = Received | Processed | ProcessingFailed | Ignored | DeadLetter

  /** The event's own time: absent, unreadable (it then compares as newer than anything), or given. */
  datatype Occurred = Absent | Unreadable | At(time: int)

  /** A billing_webhook_events row. `delays` adds up the retry delays scheduled so far, in seconds. */
  datatype Event = Event(
    status: EventStatus, attempts: nat, availableAt: int, createdAt: int, occurred: Occurred,
    bySubscription: Option<nat>, byCustomer: Option<nat>, renewed: bool, hasPeriod: bool, delays: nat)

  datatype Subscription = Subscription(updatedAt: int, pastDue: bool)

  /** Which SubscriptionService method an event is routed to. */
  datatype Route = Recover | Renew | Apply

  /** An event that changed a subscription. */
  datatype Effect = Effect(event: nat, subscription: nat, route: Route)

  /** `customers` are the subscriptions by provider customer id. */
  datatype Db = Db(events: seq<Event>, subs: map<nat, Subscription>, customers: map<nat, nat>, effects: seq<Effect>)

  /** How the subscription method turns out: it changes the row, finds nothing to do, refuses the
      transition, or fails. */
  datatype Outcome = Changes(after: Subscription) | NoChange | NotAllowed | Fails

  /** One run: `readable` is whether the row could be read under lock, `commits` whether the commit
      succeeded, `records` whether a failure could be written down (safeUpdate swallows it if not). */
  datatype World = World(now: int, readable: bool, outcome: Outcome, commits: bool, records: bool)

  const MAX_ATTEMPTS: nat := 6

  /** BACKOFF_MS, in seconds. */
  const BACKOFF: seq<nat> := [30, 120, 600, 1800, 3600, 7200]

  predicate Due(e: Event) {
    e.status == Received || e.status == ProcessingFailed
  }

  predicate Terminal(e: Event) {
    !Due(e)
  }

  // ---------------------------------------------------------------------------------------------
  // One run
  // ---------------------------------------------------------------------------------------------

  function Resolve(db: Db, e: Event): Option<nat> {
    if e.bySubscription.Some? && e.bySubscription.value in db.subs then e.bySubscription
    else if e.byCustomer.Some? && e.byCustomer.value in db.customers && db.customers[e.byCustomer.value] in db.subs
    then Some(db.customers[e.byCustomer.value]) else None
  }

  predicate Stale(e: Event, s: Subscription) {
    match e.occurred
    case Absent => e.createdAt <= s.updatedAt
    case Unreadable => false
    case At(t) => t <= s.updatedAt
  }

  function RouteOf(e: Event, s: Subscription): Route {
    if e.renewed && e.hasPeriod then (if s.pastDue then Recover else Renew) else Apply
  }

  function SetStatus(db: Db, id: nat, status: EventStatus): Db
    requires id < |db.events|
  {
    db.(events := db.events[id := db.events[id].(status := status)])
  }

  /** The transaction of processOne on a due row. */
  function Transaction(db: Db, id: nat, w: World): TxResult<Db, ()>
    requires id < |db.events|
  {
    var e := db.events[id];
    var s := Resolve(db, e);
    if s.None? || Stale(e, db.subs[s.value]) then
      (if w.commits then Commit(SetStatus(db, id, Ignored), ()) else Rollback(Rejected))
    else
      match w.outcome
      case NotAllowed => Rollback(IllegalTransition)
      case Fails => Rollback(Rejected)
      case NoChange => if w.commits then Commit(SetStatus(db, id, Processed), ()) else Rollback(Rejected)
      case Changes(after) =>
        if !w.commits then Rollback(Rejected)
        else
          var d := SetStatus(db, id, Processed);
          Commit(d.(subs := d.subs[s.value := after], effects := d.effects + [Effect(id, s.value, RouteOf(e, db.subs[s.value]))]), ())
  }

  /** What the catch block writes. `attempts` is the local counter: the row's, or still zero when the
      row could not be read. */
  function AfterFailure(e: Event, attempts: nat, reason: Failure, now: int): Event {
    var next := attempts + 1;
    if reason == IllegalTransition || next >= MAX_ATTEMPTS then e.(status := DeadLetter, attempts := next)
    else
      var delay := BACKOFF[if next - 1 < |BACKOFF| - 1 then next - 1 else |BACKOFF| - 1];
      e.(status := ProcessingFailed, attempts := next, availableAt := now + delay, delays := e.delays + delay)
  }

  function RecordFailure(db: Db, id: nat, attempts: nat, reason: Failure, w: World): Db
    requires id < |db.events|
  {
    if !w.records then db else db.(events := db.events[id := AfterFailure(db.events[id], attempts, reason, w.now)])
  }

  function ProcessOne(db: Db, id: nat, w: World): Db {
    if id >= |db.events| || !Due(db.events[id]) then db
    else if !w.readable then RecordFailure(db, id, 0, Rejected, w)
    else
      match Transaction(db, id, w)
      case Commit(d, _) => d
      case Rollback(reason) => RecordFailure(db, id, db.events[id].attempts, reason, w)
  }

  class EventStore {
    var events: seq<Event>
    var subs: map<nat, Subscription>
    const customers: map<nat, nat>
    var effects: seq<Effect>

    constructor (db: Db)
      ensures Tables() == db
    {
      events, subs, customers, effects := db.events, db.subs, db.customers, db.effects;
    }

    function Tables(): Db
      reads this
    {
      Db(events, subs, customers, effects)
    }

    method Work(id: nat, w: World) returns (r: Attempted<()>)
      requires id < |events|
      modifies this
      ensures Executes(Transaction(old(Tables()), id, w), old(Tables()), Tables(), r)
    {
      var e := events[id];
      var s := Resolve(Tables(), e);
      if s.None? || Stale(e, subs[s.value]) {
        if !w.commits {
          return Throw(Rejected);
        }
        events := events[id := e.(status := Ignored)];
        return Done(());
      }
      var saved := Tables();
      match w.outcome {
        case NotAllowed => return Throw(IllegalTransition);
        case Fails => return Throw(Rejected);
        case NoChange =>
        case Changes(after) =>
          effects := effects + [Effect(id, s.value, RouteOf(e, subs[s.value]))];
          subs := subs[s.value := after];
      }
      events := events[id := e.(status := Processed)];
      if !w.commits {
        events, subs, effects := saved.events, saved.subs, saved.effects;
        return Throw(Rejected);
      }
      return Done(());
    }

    method ProcessOneEvent(id: nat, w: World)
      modifies this
      ensures Tables() == ProcessOne(old(Tables()), id, w)
    {
      var attempts := 0;
      if id >= |events| || !(events[id].status == Received || events[id].status == ProcessingFailed) {
        return;
      }
      var failure := Rejected;
      if w.readable {
        attempts := events[id].attempts;
        var r := Work(id, w);
        if r.Done? {
          return;
        }
        failure := r.reason;
      }
      if !w.records {
        return;
      }
      var next := attempts + 1;
      if failure == IllegalTransition || next >= MAX_ATTEMPTS {
        events := events[id := events[id].(status := DeadLetter, attempts := next)];
      } else {
        var delay := BACKOFF[if next - 1 < |BACKOFF| - 1 then next - 1 else |BACKOFF| - 1];
        events := events[id := events[id].(status := ProcessingFailed, attempts := next, availableAt := w.now + delay,
                                           delays := events[id].delays + delay)];
      }
    }
  }

  // ---------------------------------------------------------------------------------------------
  // Runs of the poller over all events
  // ---------------------------------------------------------------------------------------------

  datatype Tick = Tick(id: nat, world: World)

  function Run(db: Db, ticks: seq<Tick>): Db {
    if ticks == [] then db
    else ProcessOne(Run(db, ticks[..|ticks| - 1]), ticks[|ticks| - 1].id, ticks[|ticks| - 1].world)
  }

  /** The runs of an event whose failure, if it came to that, was recorded. */
  function Runs(ticks: seq<Tick>, id: nat): nat {
    if ticks == [] then 0
    else
      var last := ticks[|ticks| - 1];
      Runs(ticks[..|ticks| - 1], id) + (if last.id == id && last.world.records then 1 else 0)
  }

  /** The attempts an event has counted up if nothing settled it: a run that cannot read the row
      starts over at one, and one that cannot record its failure does not count. */
  function Streak(ticks: seq<Tick>, id: nat): nat {
    if ticks == [] then 0
    else
      var before, last := Streak(ticks[..|ticks| - 1], id), ticks[|ticks| - 1];
      if last.id != id || !last.world.records then before else if last.world.readable then before + 1 else 1
  }

  /** Some run that read the row, and could record a failure, was the sixth of its streak. */
  predicate Reached(ticks: seq<Tick>, id: nat) {
    ticks != [] &&
    (Reached(ticks[..|ticks| - 1], id) ||
     (ticks[|ticks| - 1].id == id && ticks[|ticks| - 1].world.readable && ticks[|ticks| - 1].world.records &&
      Streak(ticks, id) == MAX_ATTEMPTS))
  }

  /** How often the count started over. */
  function Unread(ticks: seq<Tick>, id: nat): nat {
    if ticks == [] then 0
    else
      var last := ticks[|ticks| - 1];
      Unread(ticks[..|ticks| - 1], id) + (if last.id == id && !last.world.readable && last.world.records then 1 else 0)
  }

  /** Just ingested: nothing processed yet. */
  ghost predicate Ingested(db: Db) {
    && db.effects == []
    && forall i :: 0 <= i < |db.events| ==> db.events[i].status == Received && db.events[i].attempts == 0 && db.events[i].delays == 0
  }

  function CountEffects(effects: seq<Effect>, id: nat): nat {
    if effects == [] then 0
    else CountEffects(effects[..|effects| - 1], id) + (if effects[|effects| - 1].event == id then 1 else 0)
  }

  lemma AppendEffect(effects: seq<Effect>, e: Effect, id: nat)
    ensures CountEffects(effects + [e], id) == CountEffects(effects, id) + (if e.event == id then 1 else 0)
  {
    assert (effects + [e])[..|effects|] == effects;
  }

  /** The delays of the first `n` retries. */
  function DelaySum(n: nat): nat
    requires n <= |BACKOFF|
  {
    if n == 0 then 0 else DelaySum(n - 1) + BACKOFF[n - 1]
  }

  /** A row between runs: a waiting one has failed one to five times and waited that long. */
  ghost predicate RowOk(e: Event) {
    && (e.status == Received ==> e.attempts == 0 && e.delays == 0)
    && (e.status == ProcessingFailed ==> 1 <= e.attempts <= 5)
  }

  ghost predicate EffectsOk(db: Db) {
    forall id: nat :: CountEffects(db.effects, id) <= (if id < |db.events| && db.events[id].status == Processed then 1 else 0)
  }

  lemma RowKept(db: Db, id: nat, w: World, i: nat)
    requires i < |db.events| && RowOk(db.events[i])
    ensures
      var d := ProcessOne(db, id, w);
      && |d.events| == |db.events| && RowOk(d.events[i])
      && (i != id || Terminal(db.events[i]) ==> d.events[i] == db.events[i])
  {
    hide Resolve, Stale, RouteOf;
  }

  lemma EffectsKept(db: Db, id: nat, w: World)
    ensures
      var d := ProcessOne(db, id, w);
      && |d.events| == |db.events|
      && (forall i :: 0 <= i < |d.events| && (i != id || Terminal(db.events[i])) ==> d.events[i] == db.events[i])
      && (d.effects != db.effects ==>
            && id < |d.events| && Due(db.events[id]) && d.events[id].status == Processed
            && exists e: Effect :: e.event == id && d.effects == db.effects + [e])
  {
    hide Resolve, Stale, RouteOf, AfterFailure;
  }

  lemma ProcessKeeps(db: Db, id: nat, w: World)
    requires EffectsOk(db) && forall i :: 0 <= i < |db.events| ==> RowOk(db.events[i])
    ensures
      var d := ProcessOne(db, id, w);
      && |d.events| == |db.events| && EffectsOk(d)
      && (forall i :: 0 <= i < |d.events| ==> RowOk(d.events[i]) && (i != id || Terminal(db.events[i]) ==> d.events[i] == db.events[i]))
  {
    var d := ProcessOne(db, id, w);
    EffectsKept(db, id, w);
    forall i | 0 <= i < |d.events|
      ensures RowOk(d.events[i]) && (i != id || Terminal(db.events[i]) ==> d.events[i] == db.events[i])
    {
      RowKept(db, id, w, i);
    }
    forall x: nat
      ensures CountEffects(d.effects, x) <= if x < |d.events| && d.events[x].status == Processed then 1 else 0
    {
      hide ProcessOne, RowOk;
      assert CountEffects(db.effects, x) <= if x < |db.events| && db.events[x].status == Processed then 1 else 0;
      if d.effects != db.effects {
        var e: Effect :| e.event == id && d.effects == db.effects + [e];
        AppendEffect(db.effects, e, x);
      }
    }
    hide ProcessOne, RowOk, CountEffects;
  }

  /** In every run of the poller: a terminal event never changes again, a waiting failed one has one
      to five attempts, and an event changes subscriptions at most once, and only as PROCESSED. */
  lemma {:induction false} TerminalIsForever(db: Db, ticks: seq<Tick>)
    requires EffectsOk(db) && forall i :: 0 <= i < |db.events| ==> RowOk(db.events[i])
    ensures
      var d := Run(db, ticks);
      && |d.events| == |db.events| && EffectsOk(d)
      && forall i :: 0 <= i < |d.events| ==> RowOk(d.events[i]) && (Terminal(db.events[i]) ==> d.events[i] == db.events[i])
  {
    if ticks != [] {
      var last := ticks[|ticks| - 1];
      TerminalIsForever(db, ticks[..|ticks| - 1]);
      ProcessKeeps(Run(db, ticks[..|ticks| - 1]), last.id, last.world);
      hide ProcessOne, EffectsOk, RowOk;
    }
  }

  lemma IngestedIsOk(db: Db)
    requires Ingested(db)
    ensures EffectsOk(db) && forall i :: 0 <= i < |db.events| ==> RowOk(db.events[i])
  {
  }

  /** An event's effect on its subscription is committed at most once. */
  lemma {:induction false} EffectAtMostOnce(db: Db, ticks: seq<Tick>, id: nat)
    requires Ingested(db)
    ensures
      var d := Run(db, ticks);
      && CountEffects(d.effects, id) <= 1
      && (CountEffects(d.effects, id) == 1 ==> id < |d.events| && d.events[id].status == Processed)
  {
    IngestedIsOk(db);
    TerminalIsForever(db, ticks);
  }

  // ---------------------------------------------------------------------------------------------
  // When an event is settled
  // ---------------------------------------------------------------------------------------------

  /** What the runs so far say about a row. */
  ghost predicate Tracks(e: Event, streak: nat, reached: bool, unread: nat) {
    && (Due(e) ==> e.attempts == streak <= 5 && e.delays <= 6150 * unread + DelaySum(streak))
    && (reached ==> Terminal(e))
    && e.delays <= 6150 * (unread + 1)
  }

  lemma SumsGrow()
    ensures DelaySum(0) == 0 && DelaySum(1) == 30 && DelaySum(2) == 150 && DelaySum(3) == 750
    ensures DelaySum(4) == 2550 && DelaySum(5) == 6150
  {
  }

  lemma NextDelay(n: nat)
    requires n < 5
    ensures DelaySum(n + 1) == DelaySum(n) + BACKOFF[n] <= 6150 && DelaySum(1) == 30
  {
    SumsGrow();
  }

  lemma ProcessTracks(db: Db, id: nat, w: World, streak: nat, reached: bool, unread: nat)
    requires id < |db.events| && Tracks(db.events[id], streak, reached, unread)
    ensures
      var d := ProcessOne(db, id, w);
      && |d.events| == |db.events|
      && (!w.records ==> Tracks(d.events[id], streak, reached, unread))
      && (w.readable && w.records ==> Tracks(d.events[id], streak + 1, reached || streak + 1 == MAX_ATTEMPTS, unread))
      && (!w.readable && w.records ==> Tracks(d.events[id], 1, reached, unread + 1))
  {
    SumsGrow();
    hide DelaySum, Resolve, Stale, RouteOf;
    if streak < 5 {
      NextDelay(streak);
    }
  }

  lemma OtherUntouched(db: Db, id: nat, w: World, x: nat)
    requires x < |db.events| && x != id
    ensures |ProcessOne(db, id, w).events| == |db.events| && ProcessOne(db, id, w).events[x] == db.events[x]
  {
  }

  lemma {:induction false} RunTracks(db: Db, ticks: seq<Tick>, id: nat)
    requires Ingested(db) && id < |db.events|
    ensures |Run(db, ticks).events| == |db.events|
    ensures Tracks(Run(db, ticks).events[id], Streak(ticks, id), Reached(ticks, id), Unread(ticks, id))
  {
    if ticks == [] {
      SumsGrow();
    } else {
      var front, last := ticks[..|ticks| - 1], ticks[|ticks| - 1];
      RunTracks(db, front, id);
      if last.id == id {
        ProcessTracks(Run(db, front), id, last.world, Streak(front, id), Reached(front, id), Unread(front, id));
      } else {
        OtherUntouched(Run(db, front), last.id, last.world, id);
      }
      hide ProcessOne, Tracks;
    }
  }

  /** The same events run in the same order, with the same rows readable and the same failures
      recorded; everything else (what the subscription methods do, whether commits succeed, the
      clock) may differ. */
  ghost predicate SamePattern(a: seq<Tick>, b: seq<Tick>) {
    |a| == |b| && forall i :: 0 <= i < |a| ==>
      a[i].id == b[i].id && a[i].world.readable == b[i].world.readable && a[i].world.records == b[i].world.records
  }

  lemma {:induction false} PatternDecides(a: seq<Tick>, b: seq<Tick>, id: nat)
    requires SamePattern(a, b)
    ensures Streak(a, id) == Streak(b, id) && (Reached(a, id) <==> Reached(b, id))
  {
    if a != [] {
      PatternDecides(a[..|a| - 1], b[..|b| - 1], id);
    }
  }

  /** The pattern with every run failing, for a reason that is worth a retry. */
  function Failing(ticks: seq<Tick>): (r: seq<Tick>)
    ensures |r| == |ticks|
    ensures forall i :: 0 <= i < |r| ==> r[i] == ticks[i].(world := ticks[i].world.(outcome := Fails, commits := false))
  {
    if ticks == [] then []
    else
      var last := ticks[|ticks| - 1];
      Failing(ticks[..|ticks| - 1]) + [last.(world := last.world.(outcome := Fails, commits := false))]
  }

  lemma {:induction false} FailingStaysDue(db: Db, ticks: seq<Tick>, id: nat)
    requires Ingested(db) && id < |db.events| && !Reached(ticks, id)
    requires forall i :: 0 <= i < |ticks| ==> ticks[i].world.outcome == Fails && !ticks[i].world.commits
    ensures id < |Run(db, ticks).events| && Due(Run(db, ticks).events[id])
  {
    if ticks != [] {
      var front, last := ticks[..|ticks| - 1], ticks[|ticks| - 1];
      FailingStaysDue(db, front, id);
      RunTracks(db, front, id);
      if last.id != id {
        OtherUntouched(Run(db, front), last.id, last.world, id);
      }
      hide Stale, Resolve, DelaySum;
    }
  }

  /** Exactly when an event is settled whatever the runs bring: when its row was read in six recorded
      runs of it, with no recorded one in between that could not read it. */
  lemma SettledWhateverHappensIff(db: Db, ticks: seq<Tick>, id: nat)
    requires Ingested(db) && id < |db.events|
    ensures
      Reached(ticks, id) <==>
      forall other :: SamePattern(ticks, other) ==> id < |Run(db, other).events| && Terminal(Run(db, other).events[id])
  {
    forall other | SamePattern(ticks, other) && Reached(ticks, id)
      ensures id < |Run(db, other).events| && Terminal(Run(db, other).events[id])
    {
      PatternDecides(ticks, other, id);
      RunTracks(db, other, id);
    }
    if !Reached(ticks, id) {
      var worst := Failing(ticks);
      PatternDecides(ticks, worst, id);
      FailingStaysDue(db, worst, id);
      assert SamePattern(ticks, worst);
    }
  }

  /** Whatever the pattern: an event still due has counted exactly its streak, one to five once it
      failed, and its scheduled delays add up to at most 6150 seconds for every time it started over. */
  lemma DueCountsItsStreak(db: Db, ticks: seq<Tick>, id: nat)
    requires Ingested(db) && id < |db.events|
    ensures
      id < |Run(db, ticks).events| &&
      var e := Run(db, ticks).events[id];
      && (Due(e) ==> e.attempts == Streak(ticks, id) <= 5)
      && (Reached(ticks, id) ==> Terminal(e))
      && e.delays <= 6150 * (Unread(ticks, id) + 1)
  {
    RunTracks(db, ticks, id);
  }

  lemma {:induction false} ReadStreak(ticks: seq<Tick>, id: nat)
    requires forall i :: 0 <= i < |ticks| && ticks[i].id == id ==> ticks[i].world.readable
    ensures Streak(ticks, id) == Runs(ticks, id) && Unread(ticks, id) == 0
    ensures Reached(ticks, id) <==> Runs(ticks, id) >= MAX_ATTEMPTS
  {
    if ticks != [] {
      ReadStreak(ticks[..|ticks| - 1], id);
    }
  }

  /** So while its own row can be read, six recorded runs settle an event, and the delays scheduled
      for it add up to at most 6150 seconds. */
  lemma SixRunsSettle(db: Db, ticks: seq<Tick>, id: nat)
    requires Ingested(db) && id < |db.events|
    requires forall i :: 0 <= i < |ticks| && ticks[i].id == id ==> ticks[i].world.readable
    ensures id < |Run(db, ticks).events| && Run(db, ticks).events[id].delays <= 6150
    ensures Runs(ticks, id) >= 6 ==> Terminal(Run(db, ticks).events[id])
  {
    RunTracks(db, ticks, id);
    ReadStreak(ticks, id);
    hide ProcessOne, Run, DelaySum;
  }

  /** Where no run can read the row, the counter stands at one for ever and the event never settles. */
  lemma {:induction false} UnreadRowsNeverSettle(db: Db, ticks: seq<Tick>, id: nat)
    requires Ingested(db) && id < |db.events|
    requires forall i :: 0 <= i < |ticks| ==> ticks[i].id == id && !ticks[i].world.readable
    ensures |Run(db, ticks).events| == |db.events| && Due(Run(db, ticks).events[id])
    ensures Run(db, ticks).events[id].attempts == if Runs(ticks, id) > 0 then 1 else 0
    ensures Run(db, ticks).events[id].delays == 30 * Runs(ticks, id)
  {
    if ticks != [] {
      UnreadRowsNeverSettle(db, ticks[..|ticks| - 1], id);
    }
  }

  /** One run, from the row and the world alone: it leaves a due event due exactly when the row could
      not be read, or when it fails (its commit does, or the subscription method throws on an event
      that is neither unknown nor stale) and the failure is not recorded, or is a retryable one of an
      event that failed fewer than five times. */
  lemma StaysDueIff(db: Db, id: nat, w: World)
    requires id < |db.events| && Due(db.events[id])
    ensures
      var e := db.events[id];
      var s := Resolve(db, e);
      var skips := s.None? || Stale(e, db.subs[s.value]);
      var throws := !skips && (w.outcome == NotAllowed || w.outcome == Fails);
      Due(ProcessOne(db, id, w).events[id]) <==>
      || !w.readable
      || ((throws || !w.commits) && (!w.records || (e.attempts < 5 && !(throws && w.outcome == NotAllowed))))
  {
    hide Stale, RouteOf;
  }

  /** From any table, no wait is ever longer than an hour: the two-hour entry of the table is not used. */
  lemma {:induction false} NeverWaitsTwoHours(db: Db, ticks: seq<Tick>, id: nat)
    requires id < |db.events|
    ensures |Run(db, ticks).events| == |db.events|
    ensures Run(db, ticks).events[id].delays <= db.events[id].delays + 3600 * Runs(ticks, id)
  {
    if ticks != [] {
      var front, last := ticks[..|ticks| - 1], ticks[|ticks| - 1];
      NeverWaitsTwoHours(db, front, id);
      OneWait(Run(db, front), last.id, last.world, id);
      hide ProcessOne;
    }
  }

  lemma OneWait(db: Db, id: nat, w: World, x: nat)
    requires x < |db.events|
    ensures
      var d := ProcessOne(db, id, w);
      && |d.events| == |db.events|
      && d.events[x].delays <= db.events[x].delays + (if x == id && w.records then 3600 else 0)
  {
    hide Resolve, Stale, RouteOf;
  }
}
