/**
 * The last step of the W4 backfill: a tenant's number counters are seeded from the old global ones,
 * but only where validation passes and no counter exists yet. With it, the whole W4 script.
 */
module CounterSeeding {
  import opened InvoiceNumbers
  import opened Backfill
  import opened BackfillScripts

  datatype Key = OrderNumber | InvoiceNumber

  /** The key of a tenant_counters row. */
  datatype CounterId = CounterId(tenant: nat, key: Key)

  /** What validation reads: the app_settings row of a counter, and every number issued under it. */
  datatype Issued = Issued(source: SourceRow, numbers: seq<string>)

  /** The arguments of the script, with what it reads besides the tables it fills. */
  datatype Target = Target(tenant: nat, store: nat, customers: map<nat, nat>, orders: Issued, invoices: Issued)

  const COUNTER_SPECS: seq<Key> := [OrderNumber, InvoiceNumber]

  function IssuedFor(t: Target, key: Key): Issued {
    if key == OrderNumber then t.orders else t.invoices
  }

  // ---------------------------------------------------------------------------------------------
  // Seeding
  // ---------------------------------------------------------------------------------------------

  /** The old counter is exactly the largest number issued, all of which can be read. */
  ghost predicate Passes(issued: Issued) {
    && issued.source.Counter? && issued.source.value >= 0
    && AllWellFormed(issued.numbers) && IsMax(issued.numbers, issued.source.value)
  }

  /** INSERT ... ON CONFLICT DO NOTHING, behind validation. */
  ghost function Seed(counters: map<CounterId, nat>, t: Target, key: Key): map<CounterId, nat> {
    var id := CounterId(t.tenant, key);
    if Passes(IssuedFor(t, key)) && id !in counters then counters[id := IssuedFor(t, key).source.value] else counters
  }

  ghost function SeedFirst(counters: map<CounterId, nat>, t: Target, n: nat): map<CounterId, nat>
    requires n <= |COUNTER_SPECS|
  {
    if n == 0 then counters else Seed(SeedFirst(counters, t, n - 1), t, COUNTER_SPECS[n - 1])
  }

  ghost function SeedAll(counters: map<CounterId, nat>, t: Target): map<CounterId, nat> {
    SeedFirst(counters, t, |COUNTER_SPECS|)
  }

  lemma MaxIsUnique(numbers: seq<string>, a: nat, b: nat)
    requires IsMax(numbers, a) && IsMax(numbers, b)
    ensures a == b
  {
    hide ParseTrailingNumber;
  }

  datatype SeedResult = SeedResult(key: Key, affected: nat, status: CounterStatus)

  class CounterTable {
    var counters: map<CounterId, nat>

    method SeedTenantCounters(t: Target) returns (results: seq<SeedResult>)
      modifies this
      ensures counters == SeedAll(old(counters), t)
      ensures |results| == |COUNTER_SPECS|
      ensures forall i :: 0 <= i < |results| ==>
        && results[i].key == COUNTER_SPECS[i]
        && (results[i].status == Pass <==> Passes(IssuedFor(t, COUNTER_SPECS[i])))
        && results[i].affected == (if results[i].status == Pass && CounterId(t.tenant, COUNTER_SPECS[i]) !in old(counters) then 1 else 0)
    {
      hide IsMax, AllWellFormed, ParseTrailingNumber;
      results := [];
      for i := 0 to |COUNTER_SPECS|
        invariant |results| == i && counters == SeedFirst(old(counters), t, i)
        invariant forall j :: 0 <= j < i ==>
          && results[j].key == COUNTER_SPECS[j]
          && (results[j].status == Pass <==> Passes(IssuedFor(t, COUNTER_SPECS[j])))
          && results[j].affected == (if results[j].status == Pass && CounterId(t.tenant, COUNTER_SPECS[j]) !in old(counters) then 1 else 0)
        invariant forall j :: i <= j < |COUNTER_SPECS| ==>
          (CounterId(t.tenant, COUNTER_SPECS[j]) in counters <==> CounterId(t.tenant, COUNTER_SPECS[j]) in old(counters))
      {
        var key := COUNTER_SPECS[i];
        var issued := IssuedFor(t, key);
        var status, actualMax, _ := ValidateCounterAgainstMax(issued.source, issued.numbers);
        if Passes(issued) && status != Pass {
          MaxIsUnique(issued.numbers, issued.source.value, actualMax);
        }
        var affected: nat := 0;
        if status == Pass && CounterId(t.tenant, key) !in counters {
          counters := counters[CounterId(t.tenant, key) := issued.source.value];
          affected := 1;
        }
        results := results + [SeedResult(key, affected, status)];
      }
    }
  }

  lemma {:induction false} SeedFirstGives(counters: map<CounterId, nat>, t: Target, n: nat)
    requires n <= |COUNTER_SPECS|
    ensures
      var after := SeedFirst(counters, t, n);
      && (forall id :: id in counters ==> id in after && after[id] == counters[id])
      && (forall k :: 0 <= k < n && Passes(IssuedFor(t, COUNTER_SPECS[k])) ==> CounterId(t.tenant, COUNTER_SPECS[k]) in after)
      && (forall id :: id in after && id !in counters ==>
            && id.tenant == t.tenant && Passes(IssuedFor(t, id.key)) && after[id] == IssuedFor(t, id.key).source.value)
  {
    if n > 0 {
      SeedFirstGives(counters, t, n - 1);
      hide Passes;
    }
  }

  lemma {:induction false} SeedIdle(counters: map<CounterId, nat>, t: Target, n: nat)
    requires n <= |COUNTER_SPECS|
    requires forall k :: 0 <= k < n && Passes(IssuedFor(t, COUNTER_SPECS[k])) ==> CounterId(t.tenant, COUNTER_SPECS[k]) in counters
    ensures SeedFirst(counters, t, n) == counters
  {
    hide Passes;
    if n > 0 {
      SeedIdle(counters, t, n - 1);
    }
  }

  /** What seeding does, for any counter of any tenant: a row that is there stays as it is; a missing
      row of the target tenant appears exactly when validation passes, with the old counter, so that
      every number printed for a later value, under any prefix, is new; nothing else appears. */
  lemma SeedsExactly(counters: map<CounterId, nat>, t: Target, id: CounterId, prefix: string, v: nat, i: nat)
    ensures
      var after := SeedAll(counters, t);
      var issued := IssuedFor(t, id.key);
      && (id in counters ==> id in after && after[id] == counters[id])
      && (id !in counters ==> (id in after <==> id.tenant == t.tenant && Passes(issued)))
      && (id !in counters && id in after && v > after[id] && i < |issued.numbers| ==> Printed(prefix, v) != issued.numbers[i])
  {
    SeedFirstGives(counters, t, |COUNTER_SPECS|);
    assert COUNTER_SPECS[0] == OrderNumber && COUNTER_SPECS[1] == InvoiceNumber;
    var after := SeedAll(counters, t);
    var issued := IssuedFor(t, id.key);
    if id !in counters && id in after && v > after[id] && i < |issued.numbers| {
      SeededNumbersAreNew(issued.numbers, after[id], prefix, v, i);
    }
    hide IsMax, AllWellFormed, Printed;
  }

  // ---------------------------------------------------------------------------------------------
  // The whole script
  // ---------------------------------------------------------------------------------------------

  datatype State = State(db: Db, counters: map<CounterId, nat>)

  /** The UPDATE steps, then the counters. */
  const W4_STEPS: nat := W4_COUNT + 1

  /** The script stopped after its first `n` steps. */
  ghost function RunW4(s: State, t: Target, n: nat): State
    requires n <= W4_STEPS
  {
    var steps := W4Steps(t.tenant, t.store, t.customers);
    if n <= W4_COUNT then s.(db := Run(s.db, steps[..n])) else State(Run(s.db, steps), SeedAll(s.counters, t))
  }

  ghost function InterruptedW4(s: State, t: Target, stops: seq<nat>): State
    requires forall i :: 0 <= i < |stops| ==> stops[i] <= W4_STEPS
  {
    if stops == [] then s else RunW4(InterruptedW4(s, t, stops[..|stops| - 1]), t, stops[|stops| - 1])
  }

  lemma SeedTwice(counters: map<CounterId, nat>, t: Target)
    ensures SeedAll(SeedAll(counters, t), t) == SeedAll(counters, t)
  {
    SeedFirstGives(counters, t, |COUNTER_SPECS|);
    SeedIdle(SeedAll(counters, t), t, |COUNTER_SPECS|);
  }

  lemma RestartW4(s: State, t: Target, m: nat, n: nat)
    requires m <= W4_STEPS && n <= W4_STEPS
    ensures RunW4(RunW4(s, t, m), t, n) == RunW4(s, t, if m < n then n else m)
  {
    hide W4Steps, WellOrdered, Run, SeedAll;
    var steps := W4Steps(t.tenant, t.store, t.customers);
    StepCount(t);
    W4IsWellOrdered(t.tenant, t.store, t.customers);
    RestartReachesFurthest(s.db, steps, if m < W4_COUNT then m else W4_COUNT, if n < W4_COUNT then n else W4_COUNT);
    SeedTwice(s.counters, t);
    assert steps[..W4_COUNT] == steps;
  }

  lemma StepCount(t: Target)
    ensures |W4Steps(t.tenant, t.store, t.customers)| == W4_COUNT
  {
  }

  lemma {:induction false} InterruptedReaches(s: State, t: Target, stops: seq<nat>) returns (n: nat)
    requires forall i :: 0 <= i < |stops| ==> stops[i] <= W4_STEPS
    ensures n <= W4_STEPS && InterruptedW4(s, t, stops) == RunW4(s, t, n)
  {
    hide RunW4;
    if stops == [] {
      n := 0;
      NoStep(s, t);
    } else {
      var m := InterruptedReaches(s, t, stops[..|stops| - 1]);
      RestartW4(s, t, m, stops[|stops| - 1]);
      n := if m < stops[|stops| - 1] then stops[|stops| - 1] else m;
    }
  }

  lemma NoStep(s: State, t: Target)
    ensures RunW4(s, t, 0) == s
  {
    StepCount(t);
    hide W4Steps;
    assert W4Steps(t.tenant, t.store, t.customers)[..0] == [];
  }

  /** The whole W4 script, counters included: however often it was stopped after any of its steps, a
      complete run ends where one uninterrupted run ends, and a further one changes nothing. */
  lemma W4IsResumable(s: State, t: Target, stops: seq<nat>)
    requires forall i :: 0 <= i < |stops| ==> stops[i] <= W4_STEPS
    ensures RunW4(InterruptedW4(s, t, stops), t, W4_STEPS) == RunW4(s, t, W4_STEPS)
    ensures RunW4(RunW4(s, t, W4_STEPS), t, W4_STEPS) == RunW4(s, t, W4_STEPS)
  {
    hide RunW4;
    var n := InterruptedReaches(s, t, stops);
    RestartW4(s, t, n, W4_STEPS);
    RestartW4(s, t, W4_STEPS, W4_STEPS);
  }
}
