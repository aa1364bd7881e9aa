/**
 * Printed numbers as decimal text, and what an invoice request and the seeding of a counter do to the
 * tables, on the columns.
 */
module InvoiceOutcomes {
  import opened Prelude
  import opened InvoiceNumbers
  import opened Invoices
  import opened CounterSeeding

  // ---------------------------------------------------------------------------------------------
  // Decimal text
  // ---------------------------------------------------------------------------------------------

  predicate IsDecimal(s: string) {
    s != "" && forall i :: 0 <= i < |s| ==> '0' <= s[i] <= '9'
  }

  /** Reading decimal digits from left to right. */
  function Decimal(s: string, acc: nat): nat
    requires forall i :: 0 <= i < |s| ==> '0' <= s[i] <= '9'
  {
    if s == "" then acc else Decimal(s[1..], 10 * acc + (s[0] as int - '0' as int))
  }

  lemma {:induction false} DecimalAppend(s: string, c: char, acc: nat)
    requires (forall i :: 0 <= i < |s| ==> '0' <= s[i] <= '9') && '0' <= c <= '9'
    ensures (forall i :: 0 <= i < |s| + 1 ==> '0' <= (s + [c])[i] <= '9')
    ensures Decimal(s + [c], acc) == 10 * Decimal(s, acc) + (c as int - '0' as int)
  {
    if s == "" {
      assert s + [c] == [c] && [c][1..] == "";
    } else {
      DecimalAppend(s[1..], c, 10 * acc + (s[0] as int - '0' as int));
      assert (s + [c])[1..] == s[1..] + [c];
    }
  }

  lemma {:induction false} ValueIsDecimal(s: string)
    requires AllDigits(s)
    ensures ValueOf(s) == Decimal(s, 0)
  {
    if s != "" {
      ValueIsDecimal(s[..|s| - 1]);
      DecimalAppend(s[..|s| - 1], s[|s| - 1], 0);
      assert s == s[..|s| - 1] + [s[|s| - 1]];
    }
  }

  /** Behind the prefix stand the decimal digits of the value: at least six, and no more than six if
      the first is a zero. */
  lemma PrintedIsDecimal(prefix: string, v: nat)
    ensures
      var s := Printed(prefix, v);
      && |s| >= |prefix| + 6 && s[..|prefix|] == prefix
      && IsDecimal(s[|prefix|..]) && Decimal(s[|prefix|..], 0) == v
      && (|s| > |prefix| + 6 ==> s[|prefix|] != '0')
  {
    var tail := Pad(Digits(v));
    assert Printed(prefix, v) == prefix + tail && (prefix + tail)[|prefix|..] == tail;
    PadsBack(v);
    ValueIsDecimal(tail);
    assert |Digits(0)| == 1;
    if v > 0 {
      LongIsUnpadded(v);
    }
    hide Pad, Digits, ValueOf, Decimal;
  }

  /** The final digits of a text from `k` on, all of them. */
  ghost predicate LastRun(s: string, k: nat) {
    k < |s| && IsDecimal(s[k..]) && (k > 0 ==> !('0' <= s[k - 1] <= '9'))
  }

  /** The number that a text ends in: its longest run of final digits. */
  ghost predicate EndsInNumber(s: string, n: nat) {
    exists k: nat :: LastRun(s, k) && Decimal(s[k..], 0) == n
  }

  lemma NoEarlierRun(s: string, j: nat, k: nat)
    requires LastRun(s, k) && j < k
    ensures !LastRun(s, j)
  {
    assert s[j..][k - 1 - j] == s[k - 1];
  }

  lemma TrailingIsLastRun(s: string)
    ensures
      var run := TrailingDigits(s);
      && |run| <= |s| && s[|s| - |run|..] == run
      && (if run == "" then forall k: nat :: !LastRun(s, k) else LastRun(s, |s| - |run|))
  {
    TrailingIsLongest(s);
    hide TrailingDigits;
    forall k: nat | LastRun(s, k)
      ensures TrailingDigits(s) != ""
    {
      assert s[k..][|s| - 1 - k] == s[|s| - 1];
    }
  }

  ghost predicate Readable(s: string) {
    exists n: nat :: EndsInNumber(s, n)
  }

  lemma ParsedIsLast(s: string, n: nat)
    ensures ParseTrailingNumber(s) == Some(n) <==> EndsInNumber(s, n)
  {
    var run := TrailingDigits(s);
    TrailingIsLastRun(s);
    ValueIsDecimal(run);
    hide TrailingDigits, ValueOf, Decimal, LastRun;
    forall j: nat, k: nat | LastRun(s, k) && j < k
      ensures !LastRun(s, j)
    {
      NoEarlierRun(s, j, k);
    }
  }

  // ---------------------------------------------------------------------------------------------
  // The invoice of an order
  // ---------------------------------------------------------------------------------------------

  /** createInvoice: refused if the order has an invoice or the tenant has the next number already;
      otherwise the tenant's counter goes up by one, from zero if it had none, and the invoice printed
      with it is the only new row. */
  lemma CreateExactly(db: Db, order: nat, tenant: nat, prefix: string)
    ensures
      var r := Create(db, order, tenant, prefix);
      var v := if tenant in db.counters then db.counters[tenant] + 1 else 1;
      if exists row :: row in db.invoices && (row.order == order || (row.tenant == tenant && row.number == Printed(prefix, v)))
      then r == Rollback(UniqueViolation)
      else r == Commit(Db(db.counters[tenant := v], db.invoices + [r.value]), Invoice(order, tenant, Printed(prefix, v), Some(v)))
  {
    hide Printed;
    var number := Printed(prefix, if tenant in db.counters then db.counters[tenant] + 1 else 1);
    if row :| row in db.invoices && row.tenant == tenant && row.number == number {
      var i :| 0 <= i < |db.invoices| && db.invoices[i] == row;
      assert NumberTaken(db.invoices, tenant, number);
    }
  }

  /** The invoice a call ends with, if it does. */
  function AnswerOf(call: Call): Option<Invoice> {
    match call case Answered(_, invoice) => Some(invoice) case _ => None
  }

  function Asking(s: Sys, cid: nat, order: nat, invoiceable: bool, prefix: string, n: nat): Sys {
    if n == 0 then Step(s, Begin(cid, order)) else Step(Asking(s, cid, order, invoiceable, prefix, n - 1), Advance(cid, invoiceable, prefix))
  }

  lemma AskedFirst(s: Sys, cid: nat, order: nat, invoiceable: bool, prefix: string)
    requires cid !in s.calls && order in s.tenantOf
    ensures
      Asking(s, cid, order, invoiceable, prefix, 1) ==
      s.(calls := s.calls[cid :=
           match FindByOrder(s.db.invoices, order)
           case Some(invoice) => Answered(order, invoice)
           case None => if invoiceable then Missing(order) else Refused(order)])
  {
    hide FindByOrder;
    assert Asking(s, cid, order, invoiceable, prefix, 0) == s.(calls := s.calls[cid := Begun(order)]);
    assert s.calls[cid := Begun(order)][cid := Refused(order)] == s.calls[cid := Refused(order)];
  }

  lemma {:induction false} Rests(s: Sys, cid: nat, order: nat, invoiceable: bool, prefix: string, m: nat, n: nat)
    requires
      var at := Asking(s, cid, order, invoiceable, prefix, m);
      cid in at.calls && (at.calls[cid].Answered? || at.calls[cid].Refused?)
    requires m <= n
    ensures Asking(s, cid, order, invoiceable, prefix, n) == Asking(s, cid, order, invoiceable, prefix, m)
    decreases n
  {
    if m < n {
      Rests(s, cid, order, invoiceable, prefix, m, n - 1);
      var at := Asking(s, cid, order, invoiceable, prefix, m);
      assert at.calls[cid := at.calls[cid]] == at.calls;
    }
  }

  /** A whole request that nobody interrupts: an invoice that exists is the answer; without one the
      order must be invoiceable; then it is created, and only a taken number makes the request fail. */
  lemma RequestExactly(s: Sys, cid: nat, order: nat, invoiceable: bool, prefix: string)
    requires cid !in s.calls && order in s.tenantOf
    ensures
      var end := Asking(s, cid, order, invoiceable, prefix, 4);
      var r := Create(s.db, order, s.tenantOf[order], prefix);
      && cid in end.calls
      && (if exists row :: row in s.db.invoices && row.order == order then
            end.db == s.db && AnswerOf(end.calls[cid]).Some? && AnswerOf(end.calls[cid]).value in s.db.invoices && AnswerOf(end.calls[cid]).value.order == order
          else if !invoiceable then end.db == s.db && end.calls[cid] == Refused(order)
          else
            match r
            case Commit(after, row) => end.db == after && AnswerOf(end.calls[cid]) == Some(row)
            case Rollback(_) => end.db == s.db && end.calls[cid] == Failed(order))
  {
    hide FindByOrder, Create;
    AskedFirst(s, cid, order, invoiceable, prefix);
    var first := Asking(s, cid, order, invoiceable, prefix, 1);
    if first.calls[cid].Missing? {
      var second := Asking(s, cid, order, invoiceable, prefix, 2);
      assert second.calls[cid] == Ready(order, prefix) && second.db == s.db;
      var third := Asking(s, cid, order, invoiceable, prefix, 3);
      assert Asking(s, cid, order, invoiceable, prefix, 4) == Step(third, Advance(cid, invoiceable, prefix));
    } else {
      Rests(s, cid, order, invoiceable, prefix, 1, 4);
    }
  }

  // ---------------------------------------------------------------------------------------------
  // Seeding
  // ---------------------------------------------------------------------------------------------

  /** Every issued number ends in digits, and the old counter is the largest of them (zero if none). */
  ghost predicate IsLargestIssued(value: int, numbers: seq<string>) {
    && value >= 0
    && (forall i :: 0 <= i < |numbers| ==> Readable(numbers[i]))
    && (forall i, n: nat :: 0 <= i < |numbers| && EndsInNumber(numbers[i], n) ==> n <= value)
    && (value == 0 || exists i :: 0 <= i < |numbers| && EndsInNumber(numbers[i], value))
  }

  lemma ReadableMeans(s: string)
    ensures WellFormed(s) <==> Readable(s)
    ensures WellFormed(s) <==> ParseTrailingNumber(s).Some?
    ensures forall n: nat :: EndsInNumber(s, n) ==> ParseTrailingNumber(s) == Some(n)
    ensures ParseTrailingNumber(s).Some? ==> EndsInNumber(s, ParseTrailingNumber(s).value)
  {
    hide ParseTrailingNumber, EndsInNumber;
    forall n: nat
      ensures ParseTrailingNumber(s) == Some(n) <==> EndsInNumber(s, n)
    {
      ParsedIsLast(s, n);
    }
    if WellFormed(s) {
      assert EndsInNumber(s, ParseTrailingNumber(s).value);
    }
  }

  lemma LargestIsMax(numbers: seq<string>, m: nat)
    requires AllWellFormed(numbers)
    ensures IsMax(numbers, m) <==>
      && (forall i, n: nat :: 0 <= i < |numbers| && EndsInNumber(numbers[i], n) ==> n <= m)
      && (m == 0 || exists i :: 0 <= i < |numbers| && EndsInNumber(numbers[i], m))
  {
    hide ParseTrailingNumber, EndsInNumber, WellFormed, Readable;
    forall i | 0 <= i < |numbers|
      ensures ParseTrailingNumber(numbers[i]).Some? && EndsInNumber(numbers[i], ParseTrailingNumber(numbers[i]).value)
      ensures forall n: nat :: EndsInNumber(numbers[i], n) ==> ParseTrailingNumber(numbers[i]) == Some(n)
    {
      assert WellFormed(numbers[i]);
      ReadableMeans(numbers[i]);
    }
  }

  lemma PassesMeans(issued: Issued)
    ensures Passes(issued) <==> issued.source.Counter? && IsLargestIssued(issued.source.value, issued.numbers)
  {
    hide IsMax, EndsInNumber, WellFormed, Readable;
    var numbers := issued.numbers;
    forall i | 0 <= i < |numbers|
      ensures WellFormed(numbers[i]) <==> Readable(numbers[i])
    {
      ReadableMeans(numbers[i]);
    }
    assert AllWellFormed(numbers) <==> forall i :: 0 <= i < |numbers| ==> Readable(numbers[i]);
    if AllWellFormed(numbers) && issued.source.Counter? && issued.source.value >= 0 {
      LargestIsMax(numbers, issued.source.value);
    }
  }

  /** Both counters of the target tenant after seeding: order numbers from the old order counter and
      the order numbers issued, invoice numbers from theirs. */
  lemma SeedsBothCounters(counters: map<CounterId, nat>, t: Target)
    ensures
      var after := SeedAll(counters, t);
      && SeedsOne(counters, after, CounterId(t.tenant, OrderNumber), t.orders)
      && SeedsOne(counters, after, CounterId(t.tenant, InvoiceNumber), t.invoices)
      && forall id: CounterId :: id.tenant != t.tenant ==> (id in after <==> id in counters) && (id in counters ==> after[id] == counters[id])
  {
    hide Passes, IsLargestIssued;
    SeedFirstGives(counters, t, |COUNTER_SPECS|);
    PassesMeans(t.orders);
    PassesMeans(t.invoices);
    assert COUNTER_SPECS[0] == OrderNumber && COUNTER_SPECS[1] == InvoiceNumber;
  }

  ghost predicate SeedsOne(before: map<CounterId, nat>, after: map<CounterId, nat>, id: CounterId, issued: Issued) {
    if id in before then id in after && after[id] == before[id]
    else if issued.source.Counter? && IsLargestIssued(issued.source.value, issued.numbers) then id in after && after[id] == issued.source.value
    else id !in after
  }
}
