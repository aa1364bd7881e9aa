/**
 * Any number of review transactions at once, statement by statement under READ COMMITTED: lookup,
 * review write, product lock, aggregate, commit. A transaction sees the committed tables and its
 * own write; it holds the review row (or the unique pair) it wrote and, later, the product row.
 */
module ReviewProtocol {
  import opened Prelude
  import opened ReviewOutcomes
  import opened Reviews

  datatype Call =
    | Begun(op: Operation)
    | Decided(op: Operation, write: Write)
    | Wrote(op: Operation, write: Write)
    | HoldsProduct(op: Operation, write: Write, product: nat)
    | Computed(op: Operation, write: Write, product: nat, rating: Rating)
    | Committed(op: Operation, product: nat)
    | Refused(op: Operation)

  datatype Sys = Sys(db: Db, calls: map<nat, Call>)

  datatype Move =
    | AddProduct(product: nat)
    | Begin(cid: nat, op: Operation)
    | Advance(cid: nat, delivered: bool)
    | Abort(cid: nat)

  predicate HasWritten(call: Call) {
    call.Wrote? || LocksProduct(call)
  }

  predicate LocksProduct(call: Call) {
    call.HoldsProduct? || call.Computed?
  }

  /** Two writes that PostgreSQL serialises: of the same row, or of the same unique pair. */
  predicate SameRow(a: Write, b: Write) {
    || (a.Change? && b.Change? && a.id == b.id)
    || (a.Insert? && b.Insert? && a.row.product == b.row.product && a.row.user == b.row.user)
  }

  predicate Waits(db: Db, calls: map<nat, Call>, cid: nat)
    requires cid in calls && CallFits(db, calls[cid])
  {
    exists d :: d in calls && d != cid &&
      ((calls[cid].Decided? && HasWritten(calls[d]) && SameRow(calls[cid].write, calls[d].write)) ||
       (calls[cid].Wrote? && LocksProduct(calls[d]) && calls[d].product == ProductOf(db.reviews, calls[cid].write)))
  }

  predicate CallFits(db: Db, call: Call) {
    && (call.Decided? || HasWritten(call) ==> Writable(db.reviews, call.write) && ProductOf(db.reviews, call.write) in db.ratings)
    && (LocksProduct(call) ==> call.product == ProductOf(db.reviews, call.write))
  }

  function NextCall(db: Db, call: Call, delivered: bool, round: Rounding): Call
    requires CallFits(db, call)
  {
    match call
    case Begun(op) =>
      (match Decide(db, op, delivered)
       case None => Refused(op)
       case Some(w) => if ProductOf(db.reviews, w) in db.ratings then Decided(op, w) else Refused(op))
    case Decided(op, w) =>
      if w.Insert? && Taken(db.reviews, w.row.product, w.row.user) then Refused(op) else Wrote(op, w)
    case Wrote(op, w) => HoldsProduct(op, w, ProductOf(db.reviews, w))
    case HoldsProduct(op, w, product) =>
      Computed(op, w, product, Aggregate(Written(db.reviews, w), product, round))
    case Computed(op, _, product, _) => Committed(op, product)
    case _ => call
  }

  /** A commit publishes the review write and the product columns together. */
  function NextDb(db: Db, call: Call): Db
    requires CallFits(db, call)
  {
    if call.Computed? then Db(Written(db.reviews, call.write), db.ratings[call.product := call.rating]) else db
  }

  function Step(s: Sys, m: Move, round: Rounding): Sys
    requires Inv(s, round)
  {
    match m
    case AddProduct(p) => if p in s.db.ratings then s else s.(db := s.db.(ratings := s.db.ratings[p := Rating(0, None)]))
    case Begin(cid, op) => if cid in s.calls then s else s.(calls := s.calls[cid := Begun(op)])
    case Abort(cid) =>
      if cid in s.calls && !s.calls[cid].Committed? then s.(calls := s.calls[cid := Refused(s.calls[cid].op)]) else s
    case Advance(cid, delivered) =>
      if cid !in s.calls || Waits(s.db, s.calls, cid) then s else Proceed(s, cid, delivered, round)
  }

  function Proceed(s: Sys, cid: nat, delivered: bool, round: Rounding): Sys
    requires cid in s.calls && CallFits(s.db, s.calls[cid])
  {
    Sys(NextDb(s.db, s.calls[cid]), s.calls[cid := NextCall(s.db, s.calls[cid], delivered, round)])
  }

  const INIT := Sys(Db([], map[]), map[])

  // ---------------------------------------------------------------------------------------------
  // The invariant
  // ---------------------------------------------------------------------------------------------

  /** The stored columns are the aggregate over the committed published reviews. */
  ghost predicate Agrees(db: Db, round: Rounding) {
    && (forall p :: p in db.ratings ==> db.ratings[p] == Aggregate(db.reviews, p, round))
    && (forall i :: 0 <= i < |db.reviews| ==> db.reviews[i].product in db.ratings)
  }

  ghost predicate OneEach(db: Db) {
    forall i, j :: 0 <= i < j < |db.reviews| ==>
      !(db.reviews[i].product == db.reviews[j].product && db.reviews[i].user == db.reviews[j].user)
  }

  ghost predicate CallOk(db: Db, call: Call, round: Rounding) {
    && CallFits(db, call)
    && (HasWritten(call) && call.write.Insert? ==> !Taken(db.reviews, call.write.row.product, call.write.row.user))
    && (call.Computed? ==> call.rating == Aggregate(Written(db.reviews, call.write), call.product, round))
  }

  ghost predicate Apart(a: Call, b: Call) {
    && !(HasWritten(a) && HasWritten(b) && SameRow(a.write, b.write))
    && !(LocksProduct(a) && LocksProduct(b) && a.product == b.product)
  }

  ghost predicate Inv(s: Sys, round: Rounding) {
    && Agrees(s.db, round) && OneEach(s.db)
    && (forall c :: c in s.calls ==> CallOk(s.db, s.calls[c], round))
    && (forall c, d :: c in s.calls && d in s.calls && c != d ==> Apart(s.calls[c], s.calls[d]))
  }

  /** A review write leaves the aggregate of every other product alone. */
  lemma WrittenElsewhere(reviews: seq<Review>, w: Write, product: nat, round: Rounding)
    requires Writable(reviews, w) && ProductOf(reviews, w) != product
    ensures Aggregate(Written(reviews, w), product, round) == Aggregate(reviews, product, round)
  {
    match w {
      case Insert(row) => AppendReview(reviews, row, product);
      case Change(id, _, _) => ReplaceReview(reviews, id, Written(reviews, w)[id], product);
    }
  }

  /** A write of another product adds nothing to, and takes nothing from, what a write changes. */
  lemma WriteSparesOther(reviews: seq<Review>, a: Write, b: Write, product: nat, round: Rounding)
    requires Writable(reviews, a) && Writable(reviews, b) && !SameRow(a, b)
    requires ProductOf(reviews, b) == product != ProductOf(reviews, a)
    ensures Writable(Written(reviews, a), b) && ProductOf(Written(reviews, a), b) == product
    ensures Aggregate(Written(Written(reviews, a), b), product, round) == Aggregate(Written(reviews, b), product, round)
  {
    var after := Written(reviews, a);
    WrittenElsewhere(reviews, a, product, round);
    match a {
      case Insert(row) => AppendReview(reviews, row, product);
      case Change(id, _, _) => ReplaceReview(reviews, id, after[id], product);
    }
    match b {
      case Insert(row) =>
        AppendReview(reviews, row, product);
        AppendReview(after, row, product);
      case Change(id, _, _) =>
        ReplaceReview(reviews, id, Written(reviews, b)[id], product);
        ReplaceReview(after, id, Written(after, b)[id], product);
    }
  }

  /** A row that a write of another row leaves where it is. */
  lemma StillWritable(reviews: seq<Review>, a: Write, b: Write)
    requires Writable(reviews, a) && Writable(reviews, b) && !SameRow(a, b)
    ensures Writable(Written(reviews, a), b)
    ensures b.Change? ==> Written(reviews, a)[b.id] == reviews[b.id]
    ensures b.Change? ==> Written(Written(reviews, a), b)[b.id] == Written(reviews, b)[b.id]
  {
  }

  /** How far a write moves the sums of a product. */
  function Shift(reviews: seq<Review>, w: Write, product: nat): (int, int)
    requires Writable(reviews, w)
  {
    var after := if w.Insert? then w.row else Written(reviews, w)[w.id];
    var (n, sum) := if Counts(after, product) then (1, after.rating) else (0, 0);
    if w.Change? && Counts(reviews[w.id], product) then (n - 1, sum - reviews[w.id].rating) else (n, sum)
  }

  lemma WriteShifts(reviews: seq<Review>, w: Write, product: nat)
    requires Writable(reviews, w)
    ensures Count(Written(reviews, w), product) == Count(reviews, product) + Shift(reviews, w, product).0
    ensures Total(Written(reviews, w), product) == Total(reviews, product) + Shift(reviews, w, product).1
  {
    match w {
      case Insert(row) => AppendReview(reviews, row, product);
      case Change(id, _, _) => ReplaceReview(reviews, id, Written(reviews, w)[id], product);
    }
  }

  lemma ShiftKept(reviews: seq<Review>, a: Write, b: Write, product: nat)
    requires Writable(reviews, a) && Writable(reviews, b) && !SameRow(a, b)
    ensures Writable(Written(reviews, a), b) && Shift(Written(reviews, a), b, product) == Shift(reviews, b, product)
  {
    StillWritable(reviews, a, b);
    hide Written, Counts;
  }

  /** Two writes of different rows commute: either can go first, and every product's aggregate comes
      out the same. */
  lemma WritesCommute(reviews: seq<Review>, a: Write, b: Write, product: nat, round: Rounding)
    requires Writable(reviews, a) && Writable(reviews, b) && !SameRow(a, b)
    ensures Writable(Written(reviews, a), b) && Writable(Written(reviews, b), a)
    ensures Aggregate(Written(Written(reviews, a), b), product, round) == Aggregate(Written(Written(reviews, b), a), product, round)
  {
    hide Count, Total, Shift, Written, Writable;
    ShiftKept(reviews, a, b, product);
    ShiftKept(reviews, b, a, product);
    hide SameRow;
    WriteShifts(reviews, a, product);
    WriteShifts(reviews, b, product);
    WriteShifts(Written(reviews, a), b, product);
    WriteShifts(Written(reviews, b), a, product);
  }

  lemma CommitOk(db: Db, call: Call, round: Rounding)
    requires Agrees(db, round) && OneEach(db) && CallOk(db, call, round) && call.Computed?
    ensures Agrees(NextDb(db, call), round) && OneEach(NextDb(db, call))
  {
    var db' := NextDb(db, call);
    forall p | p in db'.ratings
      ensures db'.ratings[p] == Aggregate(db'.reviews, p, round)
    {
      if p != call.product {
        WrittenElsewhere(db.reviews, call.write, p, round);
      }
    }
    hide Aggregate;
  }

  /** Holding the product row is what keeps a computed aggregate right until its commit. */
  lemma CommitSpares(db: Db, call: Call, other: Call, round: Rounding)
    requires CallOk(db, call, round) && CallOk(db, other, round) && call.Computed? && Apart(call, other)
    ensures CallOk(NextDb(db, call), other, round)
  {
    if other.Computed? {
      WriteSparesOther(db.reviews, call.write, other.write, other.product, round);
    }
    hide Aggregate;
  }

  lemma NextOk(s: Sys, cid: nat, delivered: bool, round: Rounding)
    requires Inv(s, round) && cid in s.calls && CallFits(s.db, s.calls[cid]) && !Waits(s.db, s.calls, cid)
    ensures CallOk(NextDb(s.db, s.calls[cid]), NextCall(s.db, s.calls[cid], delivered, round), round)
    ensures forall d :: d in s.calls && d != cid ==> Apart(NextCall(s.db, s.calls[cid], delivered, round), s.calls[d])
  {
    hide Aggregate, OneEach, Agrees;
    assert CallOk(s.db, s.calls[cid], round);
    forall d | d in s.calls && d != cid
      ensures Apart(NextCall(s.db, s.calls[cid], delivered, round), s.calls[d])
    {
      assert Apart(s.calls[cid], s.calls[d]) && CallOk(s.db, s.calls[d], round);
    }
  }

  lemma ProceedInv(s: Sys, cid: nat, delivered: bool, round: Rounding)
    requires Inv(s, round) && cid in s.calls && CallFits(s.db, s.calls[cid]) && !Waits(s.db, s.calls, cid)
    ensures Inv(Proceed(s, cid, delivered, round), round)
  {
    var call := s.calls[cid];
    assert CallOk(s.db, call, round);
    NextOk(s, cid, delivered, round);
    if call.Computed? {
      CommitOk(s.db, call, round);
      forall d | d in s.calls && d != cid
        ensures CallOk(NextDb(s.db, call), s.calls[d], round)
      {
        assert Apart(call, s.calls[d]) && CallOk(s.db, s.calls[d], round);
        CommitSpares(s.db, call, s.calls[d], round);
      }
    }
    assert forall a, b :: Apart(a, b) ==> Apart(b, a);
    hide CallOk, Apart, NextCall, Agrees, OneEach, CallFits;
  }

  lemma AddProductInv(s: Sys, p: nat, round: Rounding)
    requires Inv(s, round) && p !in s.db.ratings
    ensures Inv(s.(db := s.db.(ratings := s.db.ratings[p := Rating(0, None)])), round)
  {
    NoReviews(s.db.reviews, p);
    forall c | c in s.calls
      ensures CallOk(s.db.(ratings := s.db.ratings[p := Rating(0, None)]), s.calls[c], round)
    {
      assert CallOk(s.db, s.calls[c], round);
    }
    hide CallOk, Apart;
  }

  lemma {:induction false} NoReviews(reviews: seq<Review>, p: nat)
    requires forall i :: 0 <= i < |reviews| ==> reviews[i].product != p
    ensures Count(reviews, p) == 0
  {
    if reviews != [] {
      NoReviews(reviews[..|reviews| - 1], p);
    }
  }

  lemma StepInv(s: Sys, m: Move, round: Rounding)
    requires Inv(s, round)
    ensures Inv(Step(s, m, round), round)
  {
    match m {
      case AddProduct(p) =>
        if p !in s.db.ratings {
          AddProductInv(s, p, round);
        }
      case Advance(cid, delivered) =>
        if cid in s.calls && !Waits(s.db, s.calls, cid) {
          ProceedInv(s, cid, delivered, round);
        }
      case _ => CallMoveInv(s, m, round);
    }
    hide Inv;
  }

  lemma CallMoveInv(s: Sys, m: Move, round: Rounding)
    requires Inv(s, round) && (m.Begin? || m.Abort?)
    ensures Inv(Step(s, m, round), round)
  {
    hide Agrees, OneEach, Aggregate;
  }

  function Run(s: Sys, moves: seq<Move>, round: Rounding): (s': Sys)
    requires Inv(s, round)
    ensures Inv(s', round)
    decreases |moves|
  {
    if moves == [] then s else StepInv(s, moves[0], round); Run(Step(s, moves[0], round), moves[1..], round)
  }

  // ---------------------------------------------------------------------------------------------
  // Results
  // ---------------------------------------------------------------------------------------------

  /** In every interleaving, every committed state has each product's stored count equal to the number
      of its committed published reviews and its average to their rounded mean (none without reviews),
      and one review per author. */
  lemma RatingsAgree(moves: seq<Move>, product: nat, round: Rounding)
    requires product in Run(INIT, moves, round).db.ratings
    ensures
      var db := Run(INIT, moves, round).db;
      var rows := set i | 0 <= i < |db.reviews| && db.reviews[i].product == product && db.reviews[i].status == Published;
      && db.ratings[product].reviewCount == |rows|
      && (db.ratings[product].avgRating.None? <==> rows == {})
      && (rows != {} ==> db.ratings[product].avgRating == Some(round(RatingSum(db.reviews, rows), |rows|)))
      && forall i, j :: 0 <= i < j < |db.reviews| ==>
           !(db.reviews[i].product == db.reviews[j].product && db.reviews[i].user == db.reviews[j].user)
  {
    var db := Run(INIT, moves, round).db;
    assert Agrees(db, round);
    AggregateSummarises(db, product, round);
    hide RatingSum, Aggregate;
    var rows := set i | 0 <= i < |db.reviews| && db.reviews[i].product == product && db.reviews[i].status == Published;
    assert rows == PublishedRows(db.reviews, product);
  }

  /** `n` statements of one call with nothing in between. */
  function Solo(db: Db, call: Call, delivered: bool, round: Rounding, n: nat): (Db, Call)
    requires CallFits(db, call)
    decreases n
  {
    if n == 0 then (db, call)
    else
      NextFits(db, call, delivered, round);
      Solo(NextDb(db, call), NextCall(db, call, delivered, round), delivered, round, n - 1)
  }

  lemma NextFits(db: Db, call: Call, delivered: bool, round: Rounding)
    requires CallFits(db, call)
    ensures CallFits(NextDb(db, call), NextCall(db, call, delivered, round))
  {
    hide Aggregate, Taken;
  }

  /** A call that nobody interrupts performs exactly the transaction that ReviewStore performs. */
  lemma SoloIsAlone(db: Db, op: Operation, delivered: bool, round: Rounding)
    requires Agrees(db, round)
    ensures
      var end := Solo(db, Begun(op), delivered, round, 5);
      var outcome := Alone(db, op, delivered, round);
      && end.0 == outcome.After(db)
      && end.1 == match outcome case Commit(_, product) => Committed(op, product) case Rollback(_) => Refused(op)
  {
    hide Aggregate, Taken;
    var first := NextCall(db, Begun(op), delivered, round);
    NextFits(db, Begun(op), delivered, round);
    assert Solo(db, Begun(op), delivered, round, 5) == Solo(db, first, delivered, round, 4);
    var second := NextCall(db, first, delivered, round);
    NextFits(db, first, delivered, round);
    assert Solo(db, first, delivered, round, 4) == Solo(db, second, delivered, round, 3);
  }

  // ---------------------------------------------------------------------------------------------
  // Nothing gets stuck
  // ---------------------------------------------------------------------------------------------

  /** How many statements a call has before it at most. */
  function StatementsLeft(call: Call): nat {
    match call
    case Begun(_) => 5
    case Decided(_, _) => 4
    case Wrote(_, _) => 3
    case HoldsProduct(_, _, _) => 2
    case Computed(_, _, _, _) => 1
    case _ => 0
  }

  /** Rows are locked before products, so there is no deadlock: while some call is not over, one of them
      can go on. */
  lemma NoDeadlock(s: Sys, c: nat)
    requires (forall d :: d in s.calls ==> CallFits(s.db, s.calls[d])) && c in s.calls && StatementsLeft(s.calls[c]) > 0
    ensures exists d :: d in s.calls && StatementsLeft(s.calls[d]) > 0 && !Waits(s.db, s.calls, d)
  {
    hide CallFits;
    if d :| d in s.calls && StatementsLeft(s.calls[d]) in {1, 2, 5} {
      assert !Waits(s.db, s.calls, d);
    } else if d :| d in s.calls && s.calls[d].Wrote? {
      assert forall e :: e in s.calls ==> StatementsLeft(s.calls[e]) !in {1, 2};
      assert !Waits(s.db, s.calls, d);
    } else {
      assert forall e :: e in s.calls ==> StatementsLeft(s.calls[e]) !in {1, 2, 3};
      assert !Waits(s.db, s.calls, c);
    }
  }

  /** And a step of a call that need not wait brings it nearer to its end, touching no other call. */
  lemma StepsCount(s: Sys, c: nat, delivered: bool, round: Rounding)
    requires Inv(s, round) && c in s.calls && CallFits(s.db, s.calls[c]) && !Waits(s.db, s.calls, c) && StatementsLeft(s.calls[c]) > 0
    ensures
      var s' := Step(s, Advance(c, delivered), round);
      && s'.calls.Keys == s.calls.Keys && StatementsLeft(s'.calls[c]) < StatementsLeft(s.calls[c])
      && forall d :: d in s.calls && d != c ==> s'.calls[d] == s.calls[d]
  {
    hide Inv, Waits, Aggregate, Taken, Decide, Written;
  }

  // ---------------------------------------------------------------------------------------------
  // A call that runs alone, from the request to its end
  // ---------------------------------------------------------------------------------------------

  /** No other call holds a row. */
  predicate OthersIdle(calls: map<nat, Call>, cid: nat) {
    forall d :: d in calls && d != cid ==> !HasWritten(calls[d])
  }

  function Advances(cid: nat, delivered: bool, n: nat): seq<Move> {
    if n == 0 then [] else [Advance(cid, delivered)] + Advances(cid, delivered, n - 1)
  }

  lemma {:induction false} AdvancesAreSolo(s: Sys, cid: nat, delivered: bool, round: Rounding, n: nat)
    requires Inv(s, round) && cid in s.calls && CallFits(s.db, s.calls[cid]) && OthersIdle(s.calls, cid)
    ensures
      var end := Solo(s.db, s.calls[cid], delivered, round, n);
      Run(s, Advances(cid, delivered, n), round) == Sys(end.0, s.calls[cid := end.1])
    decreases n
  {
    hide Inv, NextDb, NextCall, CallFits;
    if n > 0 {
      assert !Waits(s.db, s.calls, cid);
      var moves := Advances(cid, delivered, n);
      assert moves[0] == Advance(cid, delivered) && moves[1..] == Advances(cid, delivered, n - 1);
      NextFits(s.db, s.calls[cid], delivered, round);
      StepInv(s, moves[0], round);
      AdvancesAreSolo(Step(s, moves[0], round), cid, delivered, round, n - 1);
    } else {
      assert s.calls[cid := s.calls[cid]] == s.calls;
    }
  }

  /** In any state where no other call holds a row, a call from its beginning to its end has exactly the
      outcome of the transaction. */
  lemma OperationRuns(s: Sys, cid: nat, op: Operation, delivered: bool, round: Rounding)
    requires Inv(s, round) && cid !in s.calls && OthersIdle(s.calls, cid)
    ensures
      var end := Run(s, [Begin(cid, op)] + Advances(cid, delivered, 5), round);
      var outcome := Alone(s.db, op, delivered, round);
      && end.db == outcome.After(s.db) && cid in end.calls
      && end.calls[cid] == match outcome case Commit(_, product) => Committed(op, product) case Rollback(_) => Refused(op)
  {
    var moves := [Begin(cid, op)] + Advances(cid, delivered, 5);
    assert moves[0] == Begin(cid, op) && moves[1..] == Advances(cid, delivered, 5);
    StepInv(s, moves[0], round);
    SoloIsAlone(s.db, op, delivered, round);
    hide Inv, Alone, Solo, Agrees;
    AdvancesAreSolo(Step(s, moves[0], round), cid, delivered, round, 5);
  }
}
