/**
 * Resumable backfills: a list of UPDATE steps, each filling columns that are still NULL. What a
 * list of steps keeps, and the condition on its order under which it can be interrupted anywhere
 * and rerun.
 */
module Backfill {
  import opened Prelude

  datatype Table =
    | Categories | Products | ProductImages | ProductVariants | CustomizationFields | Coupons | UploadedFiles
    | Carts | CartItems | CartItemCustomizations | Orders | OrderItems | OrderItemCustomizations | Invoices
    | PaymentAttempts | Refunds | OrderStatusHistory | CouponUsages | Reviews | IdempotencyKeys | OutboxEvents

  datatype Column = Tenant | Store | Customer

  datatype ForeignKey =
    | ProductId | CartId | CartItemId | OrderId | OrderItemId | PaymentAttemptId | ResultOrderId | AggregateId

  /** A row: its filled columns (an absent one is NULL), its references, the acting user, and for
      outbox events the aggregate type. */
  datatype Row = Row(columns: map<Column, nat>, refs: map<ForeignKey, nat>, user: Option<nat>, aggregateType: string)

  type Db = map<Table, map<nat, Row>>

  /** Where a step takes its values from: constants, the referenced parent row (of rows with one
      aggregate type only, when given), or the customer account of the acting user. */
  datatype Source =
    | Constant(values: map<Column, nat>)
    | Parent(fk: ForeignKey, parent: Table, onlyType: Option<string>)
    | UserJoin(customers: map<nat, nat>)

  /** UPDATE table SET columns = source WHERE guard IS NULL AND the source has a guard value. */
  datatype Step = Step(table: Table, guard: Column, columns: set<Column>, source: Source)

  // ---------------------------------------------------------------------------------------------
  // One step
  // ---------------------------------------------------------------------------------------------

  function Offer(db: Db, source: Source, row: Row): map<Column, nat> {
    match source
    case Constant(values) => values
    case Parent(fk, parent, onlyType) =>
      if parent in db && fk in row.refs && row.refs[fk] in db[parent] && (onlyType.Some? ==> row.aggregateType == onlyType.value)
      then db[parent][row.refs[fk]].columns else map[]
    case UserJoin(customers) =>
      if row.user.Some? && row.user.value in customers then map[Customer := customers[row.user.value]] else map[]
  }

  predicate Hits(db: Db, step: Step, row: Row) {
    step.guard !in row.columns && step.guard in Offer(db, step.source, row)
  }

  function Fill(db: Db, step: Step, row: Row): Row {
    if !Hits(db, step, row) then row
    else
      var offer := Offer(db, step.source, row);
      row.(columns := (row.columns - step.columns) + (map c | c in offer && c in step.columns :: offer[c]))
  }

  function Apply(db: Db, step: Step): Db {
    if step.table !in db then db
    else db[step.table := map id | id in db[step.table] :: Fill(db, step, db[step.table][id])]
  }

  function HitRows(db: Db, step: Step): set<nat> {
    if step.table !in db then {} else set id | id in db[step.table] && Hits(db, step, db[step.table][id])
  }

  function Run(db: Db, steps: seq<Step>): Db {
    if steps == [] then db else Apply(Run(db, steps[..|steps| - 1]), steps[|steps| - 1])
  }

  /** The affected-row counts a run reports, step by step. */
  function Affected(db: Db, steps: seq<Step>): seq<nat> {
    if steps == [] then []
    else
      var front := steps[..|steps| - 1];
      Affected(db, front) + [|HitRows(Run(db, front), steps[|steps| - 1])|]
  }

  /** The script over the live tables. */
  class Database {
    var tables: Db

    constructor (tables: Db)
      ensures this.tables == tables
    {
      this.tables := tables;
    }

    method Execute(step: Step) returns (affected: nat)
      modifies this
      ensures tables == Apply(old(tables), step) && affected == |HitRows(old(tables), step)|
    {
      var hit := HitRows(tables, step);
      if step.table in tables {
        tables := tables[step.table := map id | id in tables[step.table] :: Fill(tables, step, tables[step.table][id])];
      }
      return |hit|;
    }

    method RunAllSteps(steps: seq<Step>) returns (results: seq<nat>)
      modifies this
      ensures tables == Run(old(tables), steps) && results == Affected(old(tables), steps)
    {
      results := [];
      for i := 0 to |steps|
        invariant tables == Run(old(tables), steps[..i]) && results == Affected(old(tables), steps[..i])
      {
        assert steps[..i + 1][..i] == steps[..i];
        var affected := Execute(steps[i]);
        results := results + [affected];
      }
      assert steps[..|steps|] == steps;
    }

    /** verifyCompleteness for one table: the rows still NULL in a column. */
    method CountNull(table: Table, column: Column) returns (remaining: nat)
      ensures remaining == |NullRows(tables, table, column)|
    {
      return |NullRows(tables, table, column)|;
    }
  }

  function NullRows(db: Db, table: Table, column: Column): set<nat> {
    if table !in db then {} else set id | id in db[table] && column !in db[table][id].columns
  }

  // ---------------------------------------------------------------------------------------------
  // Order
  // ---------------------------------------------------------------------------------------------

  predicate SelfContained(s: Step) {
    && s.guard in s.columns
    && (s.source.Parent? ==> s.source.parent != s.table)
  }

  /** Nothing `later` writes can give `earlier` another row to fill. */
  predicate Harmless(earlier: Step, later: Step) {
    && (earlier.source.Parent? ==> !(later.table == earlier.source.parent && earlier.guard in later.columns))
    && (later.table == earlier.table && earlier.guard in later.columns ==> later.guard == earlier.guard)
  }

  predicate HarmlessToAll(earlier: seq<Step>, later: Step) {
    forall s :: s in earlier ==> Harmless(s, later)
  }

  /** No step writes what an earlier step copies from. */
  predicate WellOrdered(steps: seq<Step>) {
    steps == [] ||
    (WellOrdered(steps[..|steps| - 1]) && SelfContained(steps[|steps| - 1]) &&
     HarmlessToAll(steps[..|steps| - 1], steps[|steps| - 1]))
  }

  /** The step can fill no row. */
  predicate Settled(db: Db, step: Step) {
    step.table in db ==> forall id :: id in db[step.table] ==> !Hits(db, step, db[step.table][id])
  }

  predicate AllSettled(db: Db, steps: seq<Step>) {
    forall s :: s in steps ==> Settled(db, s)
  }

  /** Everything a row keeps: its references, its user, and which rows there are. */
  ghost predicate SameRows(a: Db, b: Db) {
    && a.Keys == b.Keys
    && forall t :: t in a ==> a[t].Keys == b[t].Keys && forall id :: id in a[t] ==> b[t][id] == a[t][id].(columns := b[t][id].columns)
  }

  lemma ApplyKeepsRows(db: Db, step: Step)
    ensures SameRows(db, Apply(db, step))
  {
  }

  lemma {:induction false} RunKeepsRows(db: Db, steps: seq<Step>)
    ensures SameRows(db, Run(db, steps))
  {
    if steps != [] {
      RunKeepsRows(db, steps[..|steps| - 1]);
      ApplyKeepsRows(Run(db, steps[..|steps| - 1]), steps[|steps| - 1]);
    }
  }

  lemma SettledIsIdentity(db: Db, step: Step)
    requires Settled(db, step)
    ensures Apply(db, step) == db && HitRows(db, step) == {}
  {
    if step.table in db {
      var rows := db[step.table];
      assert rows == map id | id in rows :: Fill(db, step, rows[id]);
    }
  }

  /** A column that a step does not write keeps its value, whatever the table. */
  lemma Untouched(db: Db, step: Step, t: Table, id: nat, c: Column)
    requires t in db && id in db[t] && (t != step.table || c !in step.columns)
    ensures
      var row := Apply(db, step)[t][id];
      && (c in row.columns <==> c in db[t][id].columns)
      && (c in row.columns ==> row.columns[c] == db[t][id].columns[c])
  {
  }

  /** What a harmless later step leaves of an earlier step's offers. */
  lemma OfferKept(db: Db, earlier: Step, later: Step, row: Row)
    requires Harmless(earlier, later)
    ensures
      var before := Offer(db, earlier.source, row);
      var after := Offer(Apply(db, later), earlier.source, row);
      && (earlier.guard in after <==> earlier.guard in before)
      && (earlier.guard in after ==> after[earlier.guard] == before[earlier.guard])
  {
    if earlier.source.Parent? && earlier.source.parent in db && earlier.source.fk in row.refs && row.refs[earlier.source.fk] in db[earlier.source.parent] {
      Untouched(db, later, earlier.source.parent, row.refs[earlier.source.fk], earlier.guard);
    }
    hide Fill;
  }

  lemma OfferOfAnyRow(db: Db, source: Source, a: Row, b: Row)
    requires a.refs == b.refs && a.user == b.user && a.aggregateType == b.aggregateType
    ensures Offer(db, source, a) == Offer(db, source, b)
  {
  }

  lemma ApplySettles(db: Db, step: Step)
    requires SelfContained(step)
    ensures Settled(Apply(db, step), step)
  {
    var after := Apply(db, step);
    if step.table in db {
      forall id | id in db[step.table]
        ensures !Hits(after, step, after[step.table][id])
      {
        var row := db[step.table][id];
        OfferOfAnyRow(after, step.source, row, after[step.table][id]);
        assert Offer(after, step.source, row) == Offer(db, step.source, row);
      }
    }
  }

  lemma LaterKeepsSettled(db: Db, earlier: Step, later: Step)
    requires Settled(db, earlier) && Harmless(earlier, later) && SelfContained(later)
    ensures Settled(Apply(db, later), earlier)
  {
    var after := Apply(db, later);
    if earlier.table in db {
      forall id | id in db[earlier.table]
        ensures !Hits(after, earlier, after[earlier.table][id])
      {
        var row := db[earlier.table][id];
        assert !Hits(db, earlier, row);
        OfferKept(db, earlier, later, row);
        OfferOfAnyRow(after, earlier.source, row, after[earlier.table][id]);
        if earlier.guard in row.columns {
          NeverUnset(db, later, earlier.table, id, earlier.guard);
        }
      }
    }
  }

  /** A guarded column, once filled, is never changed by a step that respects it. */
  lemma NeverUnset(db: Db, step: Step, t: Table, id: nat, c: Column)
    requires t in db && id in db[t] && c in db[t][id].columns && SelfContained(step)
    requires t == step.table && c in step.columns ==> step.guard == c
    ensures c in Apply(db, step)[t][id].columns && Apply(db, step)[t][id].columns[c] == db[t][id].columns[c]
  {
  }

  // ---------------------------------------------------------------------------------------------
  // Runs
  // ---------------------------------------------------------------------------------------------

  /** One pass in a good order reaches a state where no step can fill another row. */
  lemma {:induction false} RunSettles(db: Db, steps: seq<Step>)
    requires WellOrdered(steps)
    ensures AllSettled(Run(db, steps), steps)
  {
    if steps != [] {
      var front, last := steps[..|steps| - 1], steps[|steps| - 1];
      RunSettles(db, front);
      ApplySettles(Run(db, front), last);
      forall s | s in steps
        ensures Settled(Run(db, steps), s)
      {
        if s in front {
          LaterKeepsSettled(Run(db, front), s, last);
        }
      }
    }
  }

  lemma {:induction false} SettledRunIsIdentity(db: Db, steps: seq<Step>)
    requires AllSettled(db, steps)
    ensures Run(db, steps) == db
    ensures Affected(db, steps) == seq(|steps|, _ => 0)
  {
    if steps != [] {
      var front, last := steps[..|steps| - 1], steps[|steps| - 1];
      assert last in steps && forall s :: s in front ==> s in steps;
      SettledRunIsIdentity(db, front);
      SettledIsIdentity(db, last);
    }
  }

  /** A further run affects no row at all. */
  lemma SecondRunAffectsNothing(db: Db, steps: seq<Step>)
    requires WellOrdered(steps)
    ensures Run(Run(db, steps), steps) == Run(db, steps)
    ensures Affected(Run(db, steps), steps) == seq(|steps|, _ => 0)
  {
    RunSettles(db, steps);
    SettledRunIsIdentity(Run(db, steps), steps);
  }

  lemma {:induction false} RunAppend(db: Db, a: seq<Step>, b: seq<Step>)
    ensures Run(db, a + b) == Run(Run(db, a), b)
  {
    if b == [] {
      assert a + b == a;
    } else {
      assert (a + b)[..|a + b| - 1] == a + b[..|b| - 1];
      RunAppend(db, a, b[..|b| - 1]);
    }
  }

  lemma {:induction false} PrefixWellOrdered(steps: seq<Step>, n: nat)
    requires WellOrdered(steps) && n <= |steps|
    ensures WellOrdered(steps[..n])
  {
    if n < |steps| {
      PrefixWellOrdered(steps[..|steps| - 1], n);
      assert steps[..|steps| - 1][..n] == steps[..n];
    } else {
      assert steps[..n] == steps;
    }
  }

  /** Stopping after any number of steps and starting over, as often as one likes: `stops` are the
      numbers of steps each interrupted run got through. */
  function Interrupted(db: Db, steps: seq<Step>, stops: seq<nat>): Db
    requires forall i :: 0 <= i < |stops| ==> stops[i] <= |steps|
  {
    if stops == [] then db else Run(Interrupted(db, steps, stops[..|stops| - 1]), steps[..stops[|stops| - 1]])
  }

  lemma RestartReachesFurthest(db: Db, steps: seq<Step>, m: nat, n: nat)
    requires WellOrdered(steps) && m <= |steps| && n <= |steps|
    ensures Run(Run(db, steps[..m]), steps[..n]) == Run(db, steps[..if m < n then n else m])
  {
    PrefixWellOrdered(steps, m);
    var done := Run(db, steps[..m]);
    RunSettles(db, steps[..m]);
    if n <= m {
      assert forall s :: s in steps[..n] ==> s in steps[..m];
      SettledRunIsIdentity(done, steps[..n]);
    } else {
      assert steps[..n] == steps[..m] + steps[m..n];
      RunAppend(done, steps[..m], steps[m..n]);
      SettledRunIsIdentity(done, steps[..m]);
      RunAppend(db, steps[..m], steps[m..n]);
    }
  }

  lemma {:induction false} InterruptedIsPrefix(db: Db, steps: seq<Step>, stops: seq<nat>) returns (n: nat)
    requires WellOrdered(steps) && forall i :: 0 <= i < |stops| ==> stops[i] <= |steps|
    ensures n <= |steps| && Interrupted(db, steps, stops) == Run(db, steps[..n])
  {
    if stops == [] {
      n := 0;
    } else {
      var m := InterruptedIsPrefix(db, steps, stops[..|stops| - 1]);
      RestartReachesFurthest(db, steps, m, stops[|stops| - 1]);
      n := if m < stops[|stops| - 1] then stops[|stops| - 1] else m;
    }
  }

  /** However often the script was interrupted, a complete run gives the same tables as one
      uninterrupted run. */
  lemma InterruptionsDoNotMatter(db: Db, steps: seq<Step>, stops: seq<nat>)
    requires WellOrdered(steps) && forall i :: 0 <= i < |stops| ==> stops[i] <= |steps|
    ensures Run(Interrupted(db, steps, stops), steps) == Run(db, steps)
  {
    var n := InterruptedIsPrefix(db, steps, stops);
    RestartReachesFurthest(db, steps, n, |steps|);
    assert steps[..|steps|] == steps;
  }

  /** Every step that writes the column is guarded by it. */
  predicate Guards(steps: seq<Step>, t: Table, c: Column) {
    forall s :: s in steps && s.table == t && c in s.columns ==> s.guard == c
  }

  /** A non-null value of a guarded column is never overwritten. */
  lemma {:induction false} NeverOverwritten(db: Db, steps: seq<Step>, t: Table, id: nat, c: Column)
    requires WellOrdered(steps) && Guards(steps, t, c)
    requires t in db && id in db[t] && c in db[t][id].columns
    ensures t in Run(db, steps) && id in Run(db, steps)[t]
    ensures c in Run(db, steps)[t][id].columns && Run(db, steps)[t][id].columns[c] == db[t][id].columns[c]
  {
    RunKeepsRows(db, steps);
    if steps != [] {
      var front := steps[..|steps| - 1];
      NeverOverwritten(db, front, t, id, c);
      NeverUnset(Run(db, front), steps[|steps| - 1], t, id, c);
    }
  }

  /** The value the steps of one column would give a row, in their order. */
  function FirstOffer(db: Db, steps: seq<Step>, t: Table, row: Row, c: Column): Option<nat> {
    if steps == [] then None
    else
      var last := steps[|steps| - 1];
      var earlier := FirstOffer(db, steps[..|steps| - 1], t, row, c);
      if earlier.Some? then earlier
      else if last.table == t && last.guard == c && c in Offer(db, last.source, row) then Some(Offer(db, last.source, row)[c])
      else None
  }

  function Value(row: Row, c: Column): Option<nat> {
    if c in row.columns then Some(row.columns[c]) else None
  }

  lemma {:induction false} FirstOfferKept(db: Db, steps: seq<Step>, later: Step, t: Table, row: Row, c: Column)
    requires HarmlessToAll(steps, later)
    ensures FirstOffer(Apply(db, later), steps, t, row, c) == FirstOffer(db, steps, t, row, c)
  {
    if steps != [] {
      var last := steps[|steps| - 1];
      assert last in steps;
      FirstOfferKept(db, steps[..|steps| - 1], later, t, row, c);
      OfferKept(db, last, later, row);
    }
  }

  lemma FirstOfferOfAnyRow(db: Db, steps: seq<Step>, t: Table, a: Row, b: Row, c: Column)
    requires a.refs == b.refs && a.user == b.user && a.aggregateType == b.aggregateType
    ensures FirstOffer(db, steps, t, a, c) == FirstOffer(db, steps, t, b, c)
  {
    if steps != [] {
      FirstOfferOfAnyRow(db, steps[..|steps| - 1], t, a, b, c);
      OfferOfAnyRow(db, steps[|steps| - 1].source, a, b);
    }
  }

  /** What the final tables are: every guarded value is the row's own old value or, if it had none,
      what the first step with something to offer takes from the final tables. */
  lemma {:induction false} FinalValue(db: Db, steps: seq<Step>, t: Table, id: nat, c: Column)
    requires WellOrdered(steps) && Guards(steps, t, c) && t in db && id in db[t]
    ensures t in Run(db, steps) && id in Run(db, steps)[t]
    ensures
      Value(Run(db, steps)[t][id], c) ==
      if c in db[t][id].columns then Value(db[t][id], c) else FirstOffer(Run(db, steps), steps, t, db[t][id], c)
  {
    RunKeepsRows(db, steps);
    if c in db[t][id].columns {
      NeverOverwritten(db, steps, t, id, c);
    } else if steps != [] {
      var front, last := steps[..|steps| - 1], steps[|steps| - 1];
      assert steps == front + [last] && last in steps && forall s :: s in front ==> s in steps;
      FinalValue(db, front, t, id, c);
      RunKeepsRows(db, front);
      hide Apply, FirstOffer, HarmlessToAll;
      FinalStep(Run(db, front), db[t][id], front, last, t, id, c);
    }
  }

  lemma FinalStep(d: Db, original: Row, front: seq<Step>, last: Step, t: Table, id: nat, c: Column)
    requires HarmlessToAll(front, last) && SelfContained(last) && t in d && id in d[t]
    requires last.table == t && c in last.columns ==> last.guard == c
    requires d[t][id] == original.(columns := d[t][id].columns)
    requires Value(d[t][id], c) == FirstOffer(d, front, t, original, c)
    ensures Value(Apply(d, last)[t][id], c) == FirstOffer(Apply(d, last), front + [last], t, original, c)
  {
    FirstOfferKept(d, front, last, t, original, c);
    assert (front + [last])[..|front|] == front;
    OfferOfAnyRow(d, last.source, original, d[t][id]);
    if last.table == t && c in last.columns {
      if last.source.Parent? && last.source.parent in d {
        assert Apply(d, last)[last.source.parent] == d[last.source.parent];
      }
      assert Offer(Apply(d, last), last.source, original) == Offer(d, last.source, original);
    } else {
      Untouched(d, last, t, id, c);
    }
  }

  /** A step with something to offer a row is enough for the row to end up filled. */
  lemma {:induction false} OfferedSomewhere(db: Db, steps: seq<Step>, k: nat, row: Row)
    requires k < |steps| && steps[k].guard in Offer(db, steps[k].source, row)
    ensures FirstOffer(db, steps, steps[k].table, row, steps[k].guard).Some?
  {
    if k < |steps| - 1 {
      OfferedSomewhere(db, steps[..|steps| - 1], k, row);
    }
  }

  /** When only one step fills a column of a table, its offer is the first. */
  lemma {:induction false} OfferedOnce(db: Db, steps: seq<Step>, k: nat, row: Row)
    requires k < |steps|
    requires forall j :: 0 <= j < |steps| && j != k ==> !(steps[j].table == steps[k].table && steps[j].guard == steps[k].guard)
    ensures
      var offer := Offer(db, steps[k].source, row);
      FirstOffer(db, steps, steps[k].table, row, steps[k].guard) ==
      if steps[k].guard in offer then Some(offer[steps[k].guard]) else None
  {
    var front := steps[..|steps| - 1];
    if k < |front| {
      OfferedOnce(db, front, k, row);
    } else {
      OfferedNowhere(db, front, steps[k].table, row, steps[k].guard);
    }
  }

  lemma {:induction false} OfferedNowhere(db: Db, steps: seq<Step>, t: Table, row: Row, c: Column)
    requires forall j :: 0 <= j < |steps| ==> !(steps[j].table == t && steps[j].guard == c)
    ensures FirstOffer(db, steps, t, row, c).None?
  {
    if steps != [] {
      OfferedNowhere(db, steps[..|steps| - 1], t, row, c);
    }
  }

  /** A column no step writes keeps its value. */
  lemma {:induction false} UntouchedByAll(db: Db, steps: seq<Step>, t: Table, id: nat, c: Column)
    requires t in db && id in db[t] && forall s :: s in steps ==> !(s.table == t && c in s.columns)
    ensures t in Run(db, steps) && id in Run(db, steps)[t] && Value(Run(db, steps)[t][id], c) == Value(db[t][id], c)
  {
    RunKeepsRows(db, steps);
    if steps != [] {
      UntouchedByAll(db, steps[..|steps| - 1], t, id, c);
      Untouched(Run(db, steps[..|steps| - 1]), steps[|steps| - 1], t, id, c);
    }
  }
}
