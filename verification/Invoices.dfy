/**
 * Invoices of orders: a counter per tenant, bumped in the transaction that inserts the invoice, and
 * any number of concurrent requests for the invoice of an order.
 */
module Invoices {
  import opened Prelude
  import opened InvoiceNumbers

  /** An invoices row; `value` is the counter value it consumed, None for rows older than the
      tenant's counter. */
  datatype Invoice = Invoice(order: nat, tenant: nat, number: string, value: Option<nat>)

  datatype Db = Db(counters: map<nat, nat>, invoices: seq<Invoice>)

  function Last(db: Db, tenant: nat): nat {
    if tenant in db.counters then db.counters[tenant] else 0
  }

  function Next(db: Db, tenant: nat): nat {
    Last(db, tenant) + 1
  }

  function FindByOrder(invoices: seq<Invoice>, order: nat): (r: Option<Invoice>)
    ensures r.Some? ==> r.value in invoices && r.value.order == order
    ensures r.None? ==> forall i :: 0 <= i < |invoices| ==> invoices[i].order != order
  {
    if invoices == [] then None
    else if invoices[|invoices| - 1].order == order then Some(invoices[|invoices| - 1])
    else FindByOrder(invoices[..|invoices| - 1], order)
  }

  /** The unique index on (tenantId, invoiceNumber). */
  predicate NumberTaken(invoices: seq<Invoice>, tenant: nat, number: string) {
    exists i :: 0 <= i < |invoices| && invoices[i].tenant == tenant && invoices[i].number == number
  }

  /** createInvoice's transaction. The bump and the insert commit or roll back together. */
  function Create(db: Db, order: nat, tenant: nat, prefix: string): TxResult<Db, Invoice> {
    var v := Next(db, tenant);
    var row := Invoice(order, tenant, Printed(prefix, v), Some(v));
    if FindByOrder(db.invoices, order).Some? || NumberTaken(db.invoices, tenant, row.number) then Rollback(UniqueViolation)
    else Commit(Db(db.counters[tenant := v], db.invoices + [row]), row)
  }

  class InvoiceStore {
    var counters: map<nat, nat>
    var invoices: seq<Invoice>

    function Tables(): Db
      reads this
    {
      Db(counters, invoices)
    }

    /** INSERT ... ON CONFLICT DO UPDATE SET value = value + 1 RETURNING value, then the number. */
    method Allocate(tenant: nat, prefix: string) returns (number: string)
      modifies this`counters
      ensures counters == old(counters)[tenant := Next(old(Tables()), tenant)]
      ensures number == Printed(prefix, counters[tenant])
    {
      var value := if tenant in counters then counters[tenant] + 1 else 1;
      counters := counters[tenant := value];
      number := prefix + Pad(Digits(value));
    }

    method CreateInvoice(order: nat, tenant: nat, prefix: string) returns (r: Attempted<Invoice>)
      modifies this
      ensures Executes(Create(old(Tables()), order, tenant, prefix), old(Tables()), Tables(), r)
    {
      var saved := Tables();
      var number := Allocate(tenant, prefix);
      var existing := FindByOrder(invoices, order);
      if existing.Some? || NumberTaken(invoices, tenant, number) {
        counters := saved.counters;
        return Throw(UniqueViolation);
      }
      var row := Invoice(order, tenant, number, Some(counters[tenant]));
      invoices := invoices + [row];
      return Done(row);
    }

    /** getInvoiceForOrder after its read of the order: `seen` is the invoice it found then, which
        may by now be out of date. A creation that is refused converges on the row that beat it. */
    method GetInvoiceForOrder(order: nat, tenant: nat, seen: Option<Invoice>, invoiceable: bool, prefix: string)
      returns (r: Attempted<Invoice>)
      modifies this
      ensures Tables() == if seen.None? && invoiceable then Create(old(Tables()), order, tenant, prefix).After(old(Tables())) else old(Tables())
      ensures seen.Some? ==> r == Done(seen.value)
      ensures seen.None? && !invoiceable ==> r == Throw(Rejected)
      ensures seen.None? && invoiceable ==>
        r == match Create(old(Tables()), order, tenant, prefix)
             case Commit(_, invoice) => Done(invoice)
             case Rollback(e) =>
               if FindByOrder(invoices, order).Some? then Done(FindByOrder(invoices, order).value) else Throw(e)
    {
      if seen.Some? {
        return Done(seen.value);
      }
      if !invoiceable {
        return Throw(Rejected);
      }
      r := CreateInvoice(order, tenant, prefix);
      if r.Throw? {
        var existing := FindByOrder(invoices, order);
        if existing.Some? {
          return Done(existing.value);
        }
      }
    }
  }

  // ---------------------------------------------------------------------------------------------
  // Concurrent requests
  // ---------------------------------------------------------------------------------------------

  datatype Call =
    | Begun(order: nat)
    | Missing(order: nat)
    | Ready(order: nat, prefix: string)
    | Duplicate(order: nat)
    | Answered(order: nat, invoice: Invoice)
    | Refused(order: nat)
    | Failed(order: nat)

  /** `tenantOf` is each order's own tenant. */
  datatype Sys = Sys(db: Db, calls: map<nat, Call>, tenantOf: map<nat, nat>)

  /** `prefix` is the tenant's configured prefix at this moment, `invoiceable` the order's status. */
  datatype Move =
    | Begin(cid: nat, order: nat)
    | Advance(cid: nat, invoiceable: bool, prefix: string)

  function NextCall(db: Db, call: Call, tenant: nat, m: Move): Call
    requires m.Advance?
  {
    match call
    case Begun(order) =>
      (match FindByOrder(db.invoices, order)
       case Some(invoice) => Answered(order, invoice)
       case None => if m.invoiceable then Missing(order) else Refused(order))
    case Missing(order) => Ready(order, m.prefix)
    case Ready(order, prefix) =>
      (match Create(db, order, tenant, prefix)
       case Commit(_, invoice) => Answered(order, invoice)
       case Rollback(_) => Duplicate(order))
    case Duplicate(order) =>
      (match FindByOrder(db.invoices, order)
       case Some(invoice) => Answered(order, invoice)
       case None => Failed(order))
    case _ => call
  }

  function NextDb(db: Db, call: Call, tenant: nat): Db {
    if call.Ready? then Create(db, call.order, tenant, call.prefix).After(db) else db
  }

  function Step(s: Sys, m: Move): Sys {
    match m
    case Begin(cid, order) =>
      if cid in s.calls || order !in s.tenantOf then s else s.(calls := s.calls[cid := Begun(order)])
    case Advance(cid, _, _) =>
      if cid !in s.calls || s.calls[cid].order !in s.tenantOf then s
      else
        var tenant := s.tenantOf[s.calls[cid].order];
        s.(db := NextDb(s.db, s.calls[cid], tenant), calls := s.calls[cid := NextCall(s.db, s.calls[cid], tenant, m)])
  }

  function Run(s: Sys, moves: seq<Move>): Sys {
    if moves == [] then s else Step(Run(s, moves[..|moves| - 1]), moves[|moves| - 1])
  }

  /** The counter values a tenant's invoices consumed, in the order of their commits. */
  function Consumed(invoices: seq<Invoice>, tenant: nat): seq<nat> {
    if invoices == [] then []
    else
      var last := invoices[|invoices| - 1];
      Consumed(invoices[..|invoices| - 1], tenant) + (if last.tenant == tenant && last.value.Some? then [last.value.value] else [])
  }

  /** The values after `first`, up to `last`, each once and in order. */
  ghost predicate Consecutive(values: seq<nat>, first: nat, last: nat) {
    |values| == last - first && forall k :: 0 <= k < |values| ==> values[k] == first + 1 + k
  }

  ghost predicate OnePerOrder(invoices: seq<Invoice>) {
    forall i, j :: 0 <= i < j < |invoices| ==> invoices[i].order != invoices[j].order
  }

  /** Any database that predates the run: only older rows, and nobody has asked yet. */
  ghost predicate Fresh(s: Sys) {
    && s.calls == map[] && OnePerOrder(s.db.invoices)
    && forall i :: 0 <= i < |s.db.invoices| ==> s.db.invoices[i].value.None?
  }

  ghost predicate Inv(start: Sys, s: Sys) {
    && s.tenantOf == start.tenantOf && OnePerOrder(s.db.invoices)
    && (forall t :: Last(start.db, t) <= Last(s.db, t))
    && (forall t :: Consecutive(Consumed(s.db.invoices, t), Last(start.db, t), Last(s.db, t)))
    && (forall c :: c in s.calls ==> s.calls[c].order in s.tenantOf)
    && (forall c :: c in s.calls && s.calls[c].Answered? ==> s.calls[c].invoice in s.db.invoices && s.calls[c].invoice.order == s.calls[c].order)
  }

  lemma {:induction false} NothingConsumed(invoices: seq<Invoice>, tenant: nat)
    requires forall i :: 0 <= i < |invoices| ==> invoices[i].value.None?
    ensures Consumed(invoices, tenant) == []
  {
    if invoices != [] {
      NothingConsumed(invoices[..|invoices| - 1], tenant);
    }
  }

  lemma ConsumedAppend(invoices: seq<Invoice>, row: Invoice, tenant: nat)
    ensures
      Consumed(invoices + [row], tenant) ==
      Consumed(invoices, tenant) + if row.tenant == tenant && row.value.Some? then [row.value.value] else []
  {
    assert (invoices + [row])[..|invoices|] == invoices;
  }

  lemma CreateKeeps(start: Sys, db: Db, order: nat, tenant: nat, prefix: string)
    requires Create(db, order, tenant, prefix).Commit? && OnePerOrder(db.invoices)
    requires forall t :: Last(start.db, t) <= Last(db, t)
    requires forall t :: Consecutive(Consumed(db.invoices, t), Last(start.db, t), Last(db, t))
    ensures
      var db' := Create(db, order, tenant, prefix).db;
      && OnePerOrder(db'.invoices) && db.invoices <= db'.invoices
      && (forall t :: Last(start.db, t) <= Last(db', t))
      && (forall t :: Consecutive(Consumed(db'.invoices, t), Last(start.db, t), Last(db', t)))
  {
    forall t
      ensures Consecutive(Consumed(Create(db, order, tenant, prefix).db.invoices, t), Last(start.db, t), Last(Create(db, order, tenant, prefix).db, t))
    {
      CreateConsumesNext(db, order, tenant, prefix, Last(start.db, t), t);
    }
    hide Consumed, Printed, NumberTaken, Consecutive;
  }

  lemma CreateConsumesNext(db: Db, order: nat, tenant: nat, prefix: string, first: nat, t: nat)
    requires Create(db, order, tenant, prefix).Commit? && Consecutive(Consumed(db.invoices, t), first, Last(db, t))
    ensures
      var db' := Create(db, order, tenant, prefix).db;
      Consecutive(Consumed(db'.invoices, t), first, Last(db', t))
  {
    hide Consumed, Printed, NumberTaken, FindByOrder;
    ConsumedAppend(db.invoices, Create(db, order, tenant, prefix).value, t);
    if t == tenant {
      NextIsConsecutive(Consumed(db.invoices, t), first, Last(db, t));
    }
  }

  lemma NextIsConsecutive(values: seq<nat>, first: nat, last: nat)
    requires Consecutive(values, first, last)
    ensures Consecutive(values + [last + 1], first, last + 1)
  {
  }

  lemma StepInv(start: Sys, s: Sys, m: Move)
    requires Inv(start, s)
    ensures Inv(start, Step(s, m)) && s.db.invoices <= Step(s, m).db.invoices
  {
    if m.Advance? && m.cid in s.calls {
      var call := s.calls[m.cid];
      if call.Ready? && Create(s.db, call.order, s.tenantOf[call.order], call.prefix).Commit? {
        CreateKeeps(start, s.db, call.order, s.tenantOf[call.order], call.prefix);
      }
    }
    hide Consumed, NumberTaken, Printed;
  }

  lemma {:induction false} RunInv(start: Sys, moves: seq<Move>)
    requires Fresh(start)
    ensures Inv(start, Run(start, moves))
  {
    if moves == [] {
      forall t
        ensures Consumed(start.db.invoices, t) == []
      {
        NothingConsumed(start.db.invoices, t);
      }
    } else {
      RunInv(start, moves[..|moves| - 1]);
      StepInv(start, Run(start, moves[..|moves| - 1]), moves[|moves| - 1]);
    }
  }

  /** However requests race and roll back, the values a tenant's committed invoices consumed are
      consecutive, without gap or repetition, ending at the counter. */
  lemma GapFree(start: Sys, moves: seq<Move>, tenant: nat, k: nat)
    requires Fresh(start) && k < |Consumed(Run(start, moves).db.invoices, tenant)|
    ensures
      var db := Run(start, moves).db;
      var values := Consumed(db.invoices, tenant);
      && values[k] == Last(start.db, tenant) + 1 + k
      && |values| == Last(db, tenant) - Last(start.db, tenant)
  {
    RunInv(start, moves);
  }

  /** All requests for an order that are answered, now or later, are answered with the same invoice,
      the only one of that order. */
  lemma {:induction false} AnswersAgree(start: Sys, before: seq<Move>, after: seq<Move>, c: nat, d: nat)
    requires Fresh(start)
    requires c in Run(start, before).calls && Run(start, before).calls[c].Answered?
    requires d in Run(start, before + after).calls && Run(start, before + after).calls[d].Answered?
    requires Run(start, before).calls[c].order == Run(start, before + after).calls[d].order
    ensures Run(start, before).calls[c].invoice == Run(start, before + after).calls[d].invoice
  {
    RunInv(start, before);
    RunInv(start, before + after);
    InvoicesGrow(start, before, after);
  }

  lemma {:induction false} InvoicesGrow(start: Sys, before: seq<Move>, after: seq<Move>)
    requires Fresh(start)
    ensures Run(start, before).db.invoices <= Run(start, before + after).db.invoices
  {
    if after == [] {
      assert before + after == before;
    } else {
      var front := after[..|after| - 1];
      InvoicesGrow(start, before, front);
      RunInv(start, before + front);
      assert (before + after)[..|before + after| - 1] == before + front;
      StepInv(start, Run(start, before + front), after[|after| - 1]);
    }
  }

  // ---------------------------------------------------------------------------------------------
  // When a number is taken
  // ---------------------------------------------------------------------------------------------

  /** Every number of the tenant reads back as at most its counter: what a PASS seed establishes. */
  ghost predicate Bounded(db: Db, tenant: nat) {
    forall i :: 0 <= i < |db.invoices| && db.invoices[i].tenant == tenant && WellFormed(db.invoices[i].number) ==>
      ParseTrailingNumber(db.invoices[i].number).value <= Last(db, tenant)
  }

  /** Seeding after a PASS establishes it, for the tenant seeded. */
  lemma SeedBounds(db: Db, numbers: seq<string>, tenant: nat, seed: nat)
    requires IsMax(numbers, seed) && tenant !in db.counters
    requires |numbers| == |db.invoices| && forall i :: 0 <= i < |numbers| ==> numbers[i] == db.invoices[i].number
    ensures Bounded(db.(counters := db.counters[tenant := seed]), tenant)
  {
    forall i | 0 <= i < |db.invoices| && WellFormed(db.invoices[i].number)
      ensures ParseTrailingNumber(db.invoices[i].number).value <= seed
    {
      assert WellFormed(numbers[i]);
    }
  }

  /** The prefixes that the tenant's requests read from its settings during a run. */
  function PrefixesRead(start: Sys, moves: seq<Move>, tenant: nat): set<string> {
    if moves == [] then {}
    else
      var front, m := moves[..|moves| - 1], moves[|moves| - 1];
      PrefixesRead(start, front, tenant) + if Reads(Run(start, front), m, tenant) then {m.prefix} else {}
  }

  predicate Reads(s: Sys, m: Move, tenant: nat) {
    m.Advance? && m.cid in s.calls && s.calls[m.cid].Missing? && Concerns(s, m.cid, tenant)
  }

  predicate Concerns(s: Sys, cid: nat, tenant: nat)
    requires cid in s.calls
  {
    s.calls[cid].order in s.tenantOf && s.tenantOf[s.calls[cid].order] == tenant
  }

  /** No prefix is another one followed by a number. */
  ghost predicate Apart(prefixes: set<string>) {
    forall p, q :: p in prefixes && q in prefixes ==> !FollowedByNumber(p, q)
  }

  /** What the tenant's rows are: older ones, bounded by the counter the run began with, and ones
      printed under one of the prefixes for a value the counter has reached. */
  ghost predicate RowExplained(row: Invoice, prefixes: set<string>, first: nat, last: nat) {
    || (WellFormed(row.number) ==> ParseTrailingNumber(row.number).value <= first)
    || exists p, v: nat :: p in prefixes && v <= last && row.number == Printed(p, v)
  }

  ghost predicate RowsExplained(db: Db, tenant: nat, prefixes: set<string>, first: nat) {
    && first <= Last(db, tenant)
    && forall i :: 0 <= i < |db.invoices| && db.invoices[i].tenant == tenant ==>
         RowExplained(db.invoices[i], prefixes, first, Last(db, tenant))
  }

  lemma NextIsFree(db: Db, tenant: nat, prefixes: set<string>, first: nat, prefix: string)
    requires RowsExplained(db, tenant, prefixes, first) && Apart(prefixes) && prefix in prefixes
    ensures !NumberTaken(db.invoices, tenant, Printed(prefix, Next(db, tenant)))
  {
    var next := Next(db, tenant);
    ParsePrinted(prefix, next);
    hide Printed, ParseTrailingNumber, FollowedByNumber;
    forall i | 0 <= i < |db.invoices| && db.invoices[i].tenant == tenant
      ensures db.invoices[i].number != Printed(prefix, next)
    {
      assert RowExplained(db.invoices[i], prefixes, first, Last(db, tenant));
      if p, v: nat :| p in prefixes && v <= Last(db, tenant) && db.invoices[i].number == Printed(p, v) {
        CollidesExactly(p, v, prefix, next);
      }
    }
  }

  lemma CreateExplains(db: Db, order: nat, tenant: nat, prefix: string, t: nat, prefixes: set<string>, first: nat)
    requires RowsExplained(db, t, prefixes, first) && (t == tenant ==> prefix in prefixes)
    ensures RowsExplained(Create(db, order, tenant, prefix).After(db), t, prefixes, first)
  {
    var db' := Create(db, order, tenant, prefix).After(db);
    hide Printed, ParseTrailingNumber, NumberTaken, WellFormed;
    forall i | 0 <= i < |db'.invoices| && db'.invoices[i].tenant == t
      ensures RowExplained(db'.invoices[i], prefixes, first, Last(db', t))
    {
      if i < |db.invoices| {
        assert RowExplained(db.invoices[i], prefixes, first, Last(db, t));
      }
    }
  }

  /** What a run keeps for a tenant whose prefixes are apart. */
  ghost predicate Unstuck(s: Sys, tenant: nat, prefixes: set<string>, first: nat) {
    && RowsExplained(s.db, tenant, prefixes, first)
    && forall c :: c in s.calls && Concerns(s, c, tenant) ==>
         && !s.calls[c].Failed?
         && (s.calls[c].Ready? ==> s.calls[c].prefix in prefixes)
         && (s.calls[c].Duplicate? ==> FindByOrder(s.db.invoices, s.calls[c].order).Some?)
  }

  lemma UnstuckStep(s: Sys, m: Move, tenant: nat, prefixes: set<string>, first: nat)
    requires Unstuck(s, tenant, prefixes, first) && Apart(prefixes)
    requires Reads(s, m, tenant) ==> m.prefix in prefixes
    requires s.db.invoices <= Step(s, m).db.invoices
    ensures Unstuck(Step(s, m), tenant, prefixes, first)
  {
    hide RowsExplained, Apart, NumberTaken, Printed, FindByOrder;
    var s' := Step(s, m);
    if m.Advance? && m.cid in s.calls && s.calls[m.cid].order in s.tenantOf {
      var call := s.calls[m.cid];
      if call.Ready? {
        CreateExplains(s.db, call.order, s.tenantOf[call.order], call.prefix, tenant, prefixes, first);
        if Concerns(s, m.cid, tenant) {
          NextIsFree(s.db, tenant, prefixes, first, call.prefix);
        }
      }
    }
    forall c | c in s.calls && FindByOrder(s.db.invoices, s.calls[c].order).Some?
      ensures FindByOrder(s'.db.invoices, s.calls[c].order).Some?
    {
      FoundStays(s.db.invoices, s'.db.invoices, s.calls[c].order);
    }
  }

  lemma FoundStays(a: seq<Invoice>, b: seq<Invoice>, order: nat)
    requires a <= b && FindByOrder(a, order).Some?
    ensures FindByOrder(b, order).Some?
  {
    var i :| 0 <= i < |a| && a[i] == FindByOrder(a, order).value;
    assert b[i].order == order;
  }

  lemma {:induction false} RunUnstuck(start: Sys, moves: seq<Move>, tenant: nat, prefixes: set<string>)
    requires Fresh(start) && Bounded(start.db, tenant)
    requires Apart(prefixes) && PrefixesRead(start, moves, tenant) <= prefixes
    ensures Unstuck(Run(start, moves), tenant, prefixes, Last(start.db, tenant))
  {
    hide Apart, ParseTrailingNumber, Step, Inv;
    if moves != [] {
      var front, m := moves[..|moves| - 1], moves[|moves| - 1];
      RunUnstuck(start, front, tenant, prefixes);
      RunInv(start, front);
      StepInv(start, Run(start, front), m);
      UnstuckStep(Run(start, front), m, tenant, prefixes, Last(start.db, tenant));
      hide Unstuck;
    }
  }

  /** As long as none of the prefixes a tenant was configured with is another of them followed by a
      number, no request for one of its invoices ever fails: a rolled-back creation finds the invoice
      that beat it. */
  lemma NeverStuck(start: Sys, moves: seq<Move>, tenant: nat, cid: nat)
    requires Fresh(start) && Bounded(start.db, tenant) && Apart(PrefixesRead(start, moves, tenant))
    requires cid in Run(start, moves).calls && Concerns(Run(start, moves), cid, tenant)
    ensures !Run(start, moves).calls[cid].Failed?
  {
    RunUnstuck(start, moves, tenant, PrefixesRead(start, moves, tenant));
    hide Apart, RowsExplained, Run;
  }

  /** That is so of a single prefix, whatever it ends in, and of any that do not end in digits. */
  lemma ApartWhen(prefixes: set<string>)
    requires |prefixes| <= 1 || forall p :: p in prefixes ==> !EndsInDigit(p)
    ensures Apart(prefixes)
  {
    hide FollowedByNumber, EndsInDigit;
    forall p, q | p in prefixes && q in prefixes && FollowedByNumber(p, q)
      ensures false
    {
      NumberEndsInDigit(p, q);
      if |prefixes| <= 1 {
        Subset({p, q}, prefixes);
      }
    }
  }

  lemma NumberEndsInDigit(p: string, q: string)
    requires FollowedByNumber(p, q)
    ensures p != q && EndsInDigit(p)
  {
    assert p[|q|..][|p| - |q| - 1] == p[|p| - 1];
  }

  lemma {:induction false} Subset(a: set<string>, b: set<string>)
    requires a <= b
    ensures |a| <= |b|
  {
    if a != {} {
      var x :| x in a;
      Subset(a - {x}, b - {x});
    }
  }

  // ---------------------------------------------------------------------------------------------
  // A run that fails
  // ---------------------------------------------------------------------------------------------

  lemma {:induction false} RunAppend(s: Sys, a: seq<Move>, b: seq<Move>)
    ensures Run(s, a + b) == Run(Run(s, a), b)
  {
    if b == [] {
      assert a + b == a;
    } else {
      assert (a + b)[..|a + b| - 1] == a + b[..|b| - 1];
      RunAppend(s, a, b[..|b| - 1]);
    }
  }

  /** One whole request for an order, under its own call id. */
  function Request(order: nat, prefix: string): seq<Move> {
    var go := Advance(order, true, prefix);
    [Begin(order, order), go, go, go, go]
  }

  lemma RunThen(s: Sys, moves: seq<Move>, m: Move, s': Sys)
    requires Step(Run(s, moves), m) == s'
    ensures Run(s, moves + [m]) == s'
  {
    assert (moves + [m])[..|moves|] == moves;
  }

  /** Up to the transaction, the call only reads. */
  lemma RequestReads(s: Sys, order: nat, prefix: string)
    requires order !in s.calls && order in s.tenantOf && FindByOrder(s.db.invoices, order).None?
    ensures
      var go := Advance(order, true, prefix);
      Run(s, [Begin(order, order), go, go]) == s.(calls := s.calls[order := Ready(order, prefix)])
  {
    hide FindByOrder, Create;
    var go := Advance(order, true, prefix);
    assert Run(s, []) == s;
    RunThen(s, [], Begin(order, order), s.(calls := s.calls[order := Begun(order)]));
    RunThen(s, [Begin(order, order)], go, s.(calls := s.calls[order := Missing(order)]));
    RunThen(s, [Begin(order, order), go], go, s.(calls := s.calls[order := Ready(order, prefix)]));
    assert [Begin(order, order), go] + [go] == [Begin(order, order), go, go];
  }

  lemma RequestRuns(s: Sys, order: nat, prefix: string)
    requires order !in s.calls && order in s.tenantOf && FindByOrder(s.db.invoices, order).None?
    ensures
      var s' := Run(s, Request(order, prefix));
      var r := Create(s.db, order, s.tenantOf[order], prefix);
      && s'.tenantOf == s.tenantOf && s'.db == r.After(s.db)
      && s'.calls == s.calls[order := if r.Commit? then Answered(order, r.value) else Failed(order)]
  {
    hide Run, FindByOrder, Create;
    var go := Advance(order, true, prefix);
    RequestReads(s, order, prefix);
    var r := Create(s.db, order, s.tenantOf[order], prefix);
    var s4 := s.(db := r.After(s.db), calls := s.calls[order := if r.Commit? then Answered(order, r.value) else Duplicate(order)]);
    var s5 := s4.(calls := s.calls[order := if r.Commit? then Answered(order, r.value) else Failed(order)]);
    RunThen(s, [Begin(order, order), go, go], go, s4);
    assert [Begin(order, order), go, go] + [go] == [Begin(order, order), go, go, go];
    assert s4.calls[order := s5.calls[order]] == s5.calls;
    RunThen(s, [Begin(order, order), go, go, go], go, s5);
    assert [Begin(order, order), go, go, go] + [go] == Request(order, prefix);
  }

  /** Orders 0 to n - 1, one after the other, all under one prefix. */
  function Requests(n: nat, prefix: string): seq<Move> {
    if n == 0 then [] else Requests(n - 1, prefix) + Request(n - 1, prefix)
  }

  function OrdersOf(n: nat, tenant: nat): (r: map<nat, nat>)
    ensures forall order: nat :: order in r <==> order < n
    ensures forall order: nat :: order in r ==> r[order] == tenant
  {
    if n == 0 then map[] else OrdersOf(n - 1, tenant)[n - 1 := tenant]
  }

  /** A tenant without invoices, with `n` orders. */
  function NewShop(n: nat, tenant: nat): Sys {
    Sys(Db(map[], []), map[], OrdersOf(n, tenant))
  }

  /** The state after `k` of its orders asked. */
  ghost predicate Filled(s: Sys, n: nat, tenant: nat, prefix: string, k: nat) {
    && s.tenantOf == NewShop(n, tenant).tenantOf
    && (forall c :: c in s.calls ==> c < k)
    && Last(s.db, tenant) == k == |s.db.invoices|
    && forall i :: 0 <= i < k ==> s.db.invoices[i] == Invoice(i, tenant, Printed(prefix, i + 1), Some(i + 1))
  }

  lemma FilledMore(s: Sys, n: nat, tenant: nat, prefix: string, k: nat)
    requires k < n && Filled(s, n, tenant, prefix, k)
    ensures Filled(Run(s, Request(k, prefix)), n, tenant, prefix, k + 1)
  {
    hide Run, Request, Printed, FindByOrder, NumberTaken, OrdersOf;
    NextUnprinted(s, n, tenant, prefix, k);
    RequestRuns(s, k, prefix);
  }

  lemma NextUnprinted(s: Sys, n: nat, tenant: nat, prefix: string, k: nat)
    requires k < n && Filled(s, n, tenant, prefix, k)
    ensures !NumberTaken(s.db.invoices, tenant, Printed(prefix, k + 1))
    ensures FindByOrder(s.db.invoices, k).None? && k !in s.calls && k in s.tenantOf && s.tenantOf[k] == tenant
  {
    hide Printed, OrdersOf;
    forall i | 0 <= i < k
      ensures s.db.invoices[i].number != Printed(prefix, k + 1)
    {
      SamePrefixDistinct(prefix, i + 1, k + 1);
    }
  }

  lemma {:induction false} Filling(n: nat, tenant: nat, prefix: string, k: nat)
    requires k <= n
    ensures Filled(Run(NewShop(n, tenant), Requests(k, prefix)), n, tenant, prefix, k)
  {
    if k == 0 {
      assert Run(NewShop(n, tenant), []) == NewShop(n, tenant);
    } else {
      hide Run, Filled, Request;
      Filling(n, tenant, prefix, k - 1);
      RunAppend(NewShop(n, tenant), Requests(k - 1, prefix), Request(k - 1, prefix));
      FilledMore(Run(NewShop(n, tenant), Requests(k - 1, prefix)), n, tenant, prefix, k - 1);
    }
  }

  /** Under `p` for the first `n` orders, then once under `q`. */
  function Colliding(n: nat, p: string, q: string): seq<Move> {
    Requests(n, p) + Request(n, q)
  }

  lemma LastOneFails(s: Sys, n: nat, tenant: nat, p: string, q: string)
    requires 0 < n && Filled(s, n + 1, tenant, p, n) && Printed(p, 1) == Printed(q, n + 1)
    ensures
      var s' := Run(s, Request(n, q));
      n in s'.calls && Concerns(s', n, tenant) && s'.calls[n].Failed?
  {
    NextUnprinted(s, n + 1, tenant, p, n);
    RequestRuns(s, n, q);
    hide Run, Request, Printed, FindByOrder, OrdersOf;
    assert s.db.invoices[0].number == Printed(q, Next(s.db, tenant));
    assert NumberTaken(s.db.invoices, tenant, Printed(q, Next(s.db, tenant)));
  }

  /** Some run of a tenant that only ever reads these prefixes, from a table that predates it and is
      bounded by its counter, ends with a failed request. */
  ghost predicate CanFail(tenant: nat, prefixes: set<string>) {
    exists start, moves, cid :: FailsIn(start, moves, cid, tenant, prefixes)
  }

  ghost predicate FailsIn(start: Sys, moves: seq<Move>, cid: nat, tenant: nat, prefixes: set<string>) {
    && Fresh(start) && Bounded(start.db, tenant) && PrefixesRead(start, moves, tenant) <= prefixes
    && cid in Run(start, moves).calls && Concerns(Run(start, moves), cid, tenant) && Run(start, moves).calls[cid].Failed?
  }

  lemma CollidingFails(p: string, q: string, tenant: nat, n: nat)
    requires FollowedByNumber(p, q) && n == Meeting(p, q, 1) - 1
    ensures FailsIn(NewShop(n + 1, tenant), Colliding(n, p, q), n, tenant, {p, q})
  {
    MeetingPrints(p, q, 1);
    hide Meeting, FollowedByNumber, Run, Filled, Requests, Request, Printed;
    var start := NewShop(n + 1, tenant);
    Filling(n + 1, tenant, p, n);
    RunAppend(start, Requests(n, p), Request(n, q));
    LastOneFails(Run(start, Requests(n, p)), n, tenant, p, q);
    RequestsUnder(n, p);
    RequestUnder(n, q);
    ReadIsAsked(start, Colliding(n, p, q), tenant, {p, q});
  }

  lemma RequestUnder(order: nat, prefix: string)
    ensures forall i :: 0 <= i < |Request(order, prefix)| && Request(order, prefix)[i].Advance? ==> Request(order, prefix)[i].prefix == prefix
  {
  }

  lemma {:induction false} RequestsUnder(n: nat, prefix: string)
    ensures forall i :: 0 <= i < |Requests(n, prefix)| && Requests(n, prefix)[i].Advance? ==> Requests(n, prefix)[i].prefix == prefix
  {
    if n > 0 {
      RequestsUnder(n - 1, prefix);
    }
  }

  lemma {:induction false} ReadIsAsked(start: Sys, moves: seq<Move>, tenant: nat, prefixes: set<string>)
    requires forall i :: 0 <= i < |moves| && moves[i].Advance? ==> moves[i].prefix in prefixes
    ensures PrefixesRead(start, moves, tenant) <= prefixes
  {
    if moves != [] {
      ReadIsAsked(start, moves[..|moves| - 1], tenant, prefixes);
    }
  }

  /** Exactly which prefixes can bring a request to fail: some two of which one is the other followed
      by a number. */
  lemma CanFailIff(tenant: nat, prefixes: set<string>)
    ensures CanFail(tenant, prefixes) <==> exists p, q :: p in prefixes && q in prefixes && FollowedByNumber(p, q)
  {
    if p, q :| p in prefixes && q in prefixes && FollowedByNumber(p, q) {
      MeetingPrints(p, q, 1);
      var n := Meeting(p, q, 1) - 1;
      CollidingFails(p, q, tenant, n);
      assert FailsIn(NewShop(n + 1, tenant), Colliding(n, p, q), n, tenant, prefixes);
    } else {
      assert Apart(prefixes);
      forall start, moves, cid
        ensures !FailsIn(start, moves, cid, tenant, prefixes)
      {
        NoneFails(start, moves, cid, tenant, prefixes);
      }
    }
  }

  lemma NoneFails(start: Sys, moves: seq<Move>, cid: nat, tenant: nat, prefixes: set<string>)
    requires Apart(prefixes)
    ensures !FailsIn(start, moves, cid, tenant, prefixes)
  {
    hide Run, Apart, RowsExplained, PrefixesRead;
    if FailsIn(start, moves, cid, tenant, prefixes) {
      RunUnstuck(start, moves, tenant, prefixes);
    }
  }

  /** A taken number is never got past: the counter rolls back with the refused insert, so as long
      as the prefix stays, no further invoice of the tenant is created and its counter stands still. */
  lemma {:induction false} TakenNumberBlocks(s: Sys, moves: seq<Move>, tenant: nat, prefix: string)
    requires NumberTaken(s.db.invoices, tenant, Printed(prefix, Next(s.db, tenant)))
    requires forall i :: 0 <= i < |moves| && moves[i].Advance? ==> moves[i].prefix == prefix
    requires forall c :: c in s.calls && s.calls[c].Ready? ==> s.calls[c].prefix == prefix
    ensures
      var s' := Run(s, moves);
      && Next(s'.db, tenant) == Next(s.db, tenant) && s.db.invoices <= s'.db.invoices
      && (forall i :: |s.db.invoices| <= i < |s'.db.invoices| ==> s'.db.invoices[i].tenant != tenant)
      && (forall c :: c in s'.calls && s'.calls[c].Ready? ==> s'.calls[c].prefix == prefix)
  {
    if moves != [] {
      var front, m := moves[..|moves| - 1], moves[|moves| - 1];
      TakenNumberBlocks(s, front, tenant, prefix);
      var s1 := Run(s, front);
      var i :| 0 <= i < |s.db.invoices| && s.db.invoices[i].tenant == tenant && s.db.invoices[i].number == Printed(prefix, Next(s.db, tenant));
      assert s1.db.invoices[i] == s.db.invoices[i];
      assert NumberTaken(s1.db.invoices, tenant, Printed(prefix, Next(s1.db, tenant)));
      assert Step(s1, m) == Run(s, moves);
      hide Run, NumberTaken, Printed;
    }
  }
}
