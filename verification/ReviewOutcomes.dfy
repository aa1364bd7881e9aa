/**
 * What the stored rating columns say about the review rows, and what each review operation does to
 * both, on the columns.
 */
module ReviewOutcomes {
  import opened Prelude
  import opened Reviews

  /** The published reviews of a product. */
  ghost function PublishedRows(reviews: seq<Review>, product: nat): set<nat> {
    set i | 0 <= i < |reviews| && reviews[i].product == product && reviews[i].status == Published
  }

  ghost function RatingSum(reviews: seq<Review>, rows: set<nat>): int
    requires forall i :: i in rows ==> i < |reviews|
  {
    if rows == {} then 0 else var i :| i in rows; reviews[i].rating + RatingSum(reviews, rows - {i})
  }

  /** The product's columns are the number of its published reviews and the rounded mean of their
      ratings, or no mean without any. */
  ghost predicate Summarised(db: Db, product: nat, round: Rounding) {
    var rows := PublishedRows(db.reviews, product);
    && product in db.ratings
    && db.ratings[product].reviewCount == |rows|
    && db.ratings[product].avgRating == if rows == {} then None else Some(round(RatingSum(db.reviews, rows), |rows|))
  }

  lemma {:induction false} SumTakesOut(reviews: seq<Review>, rows: set<nat>, x: nat)
    requires x in rows && forall i :: i in rows ==> i < |reviews|
    ensures RatingSum(reviews, rows) == reviews[x].rating + RatingSum(reviews, rows - {x})
  {
    var i :| i in rows && RatingSum(reviews, rows) == reviews[i].rating + RatingSum(reviews, rows - {i});
    if i != x {
      SumTakesOut(reviews, rows - {i}, x);
      SumTakesOut(reviews, rows - {x}, i);
      assert rows - {i} - {x} == rows - {x} - {i};
    }
  }

  lemma {:induction false} SumOfPrefix(reviews: seq<Review>, n: nat, rows: set<nat>)
    requires n <= |reviews| && forall i :: i in rows ==> i < n
    ensures RatingSum(reviews[..n], rows) == RatingSum(reviews, rows)
  {
    if rows != {} {
      var i :| i in rows;
      SumTakesOut(reviews[..n], rows, i);
      SumTakesOut(reviews, rows, i);
      SumOfPrefix(reviews, n, rows - {i});
    }
  }

  /** One more row adds itself, if it is a published review of the product. */
  lemma RowsOfPrefix(reviews: seq<Review>, product: nat)
    requires reviews != []
    ensures
      var n := |reviews| - 1;
      var before := PublishedRows(reviews[..n], product);
      && n !in before
      && PublishedRows(reviews, product) == before + if reviews[n].product == product && reviews[n].status == Published then {n} else {}
  {
  }

  lemma {:induction false} CountedAreRows(reviews: seq<Review>, product: nat)
    ensures Count(reviews, product) == |PublishedRows(reviews, product)|
    ensures Total(reviews, product) == RatingSum(reviews, PublishedRows(reviews, product))
  {
    hide RatingSum;
    var rows := PublishedRows(reviews, product);
    if reviews == [] {
      assert rows == {};
      SumOfNone(reviews);
    } else {
      var n := |reviews| - 1;
      var before := PublishedRows(reviews[..n], product);
      CountedAreRows(reviews[..n], product);
      RowsOfPrefix(reviews, product);
      SumOfPrefix(reviews, n, before);
      hide PublishedRows;
      if n in rows {
        SumTakesOut(reviews, rows, n);
        assert rows - {n} == before;
      }
    }
  }

  lemma SumOfNone(reviews: seq<Review>)
    ensures RatingSum(reviews, {}) == 0
  {
  }

  lemma AggregateSummarises(db: Db, product: nat, round: Rounding)
    ensures product in db.ratings && db.ratings[product] == Aggregate(db.reviews, product, round) <==> Summarised(db, product, round)
  {
    hide Count, Total, RatingSum, PublishedRows;
    CountedAreRows(db.reviews, product);
  }

  // ---------------------------------------------------------------------------------------------
  // The operations
  // ---------------------------------------------------------------------------------------------

  /** These review rows are in, this product is summarised anew, and no other product's columns change. */
  ghost predicate Recomputed(before: Db, r: TxResult<Db, nat>, reviews: seq<Review>, product: nat, round: Rounding) {
    && r.Commit? && r.value == product && r.db.reviews == reviews && Summarised(r.db, product, round)
    && r.db.ratings.Keys == before.ratings.Keys + {product}
    && forall p :: p in before.ratings && p != product ==> r.db.ratings[p] == before.ratings[p]
  }

  /** A review needs a delivered order with the product, and there is one per product and author. */
  lemma CreateExactly(db: Db, product: nat, author: nat, tenant: nat, rating: int, delivered: bool, round: Rounding)
    ensures
      var r := Alone(db, Create(product, author, tenant, rating), delivered, round);
      if !delivered || product !in db.ratings then r == Rollback(Failure.Rejected)
      else if exists i :: 0 <= i < |db.reviews| && db.reviews[i].product == product && db.reviews[i].user == author then r == Rollback(UniqueViolation)
      else Recomputed(db, r, db.reviews + [Review(product, author, tenant, rating, Published)], product, round)
  {
    hide Aggregate, Summarised;
    var r := Alone(db, Create(product, author, tenant, rating), delivered, round);
    if r.Commit? {
      AggregateSummarises(r.db, product, round);
    }
  }

  /** Only the author updates a review: its rating, if one is given. */
  lemma UpdateExactly(db: Db, author: nat, id: nat, rating: Option<int>, delivered: bool, round: Rounding)
    ensures
      var r := Alone(db, Update(author, id, rating), delivered, round);
      if id >= |db.reviews| || db.reviews[id].user != author then r == Rollback(Failure.Rejected)
      else
        Recomputed(db, r, match rating case Some(x) => db.reviews[id := db.reviews[id].(rating := x)] case None => db.reviews,
                   db.reviews[id].product, round)
  {
    hide Aggregate, Summarised;
    var r := Alone(db, Update(author, id, rating), delivered, round);
    if r.Commit? {
      AggregateSummarises(r.db, db.reviews[id].product, round);
    }
  }

  /** Only the author removes a review; the row stays, REMOVED, and no longer counts. */
  lemma RemoveExactly(db: Db, author: nat, id: nat, delivered: bool, round: Rounding)
    ensures
      var r := Alone(db, Remove(author, id), delivered, round);
      if id >= |db.reviews| || db.reviews[id].user != author then r == Rollback(Failure.Rejected)
      else
        && Recomputed(db, r, db.reviews[id := db.reviews[id].(status := Removed)], db.reviews[id].product, round)
        && id !in PublishedRows(r.db.reviews, db.reviews[id].product)
  {
    hide Aggregate, Summarised;
    var r := Alone(db, Remove(author, id), delivered, round);
    if r.Commit? {
      AggregateSummarises(r.db, db.reviews[id].product, round);
    }
  }

  /** An administrator of the review's tenant sets any status. */
  lemma ModerateExactly(db: Db, tenant: nat, id: nat, status: ReviewStatus, delivered: bool, round: Rounding)
    ensures
      var r := Alone(db, Moderate(tenant, id, status), delivered, round);
      if id >= |db.reviews| || db.reviews[id].tenant != tenant then r == Rollback(Failure.Rejected)
      else Recomputed(db, r, db.reviews[id := db.reviews[id].(status := status)], db.reviews[id].product, round)
  {
    hide Aggregate, Summarised;
    var r := Alone(db, Moderate(tenant, id, status), delivered, round);
    if r.Commit? {
      AggregateSummarises(r.db, db.reviews[id].product, round);
    }
  }
}
