/**
 * Product reviews and the rating columns stored on the product: the four writing operations, in
 * place and as values, and the aggregate they must keep up to date.
 */
module Reviews {
  import opened Prelude

  datatype ReviewStatus = Published | Rejected | Removed

  /** A reviews row; its id is its position in the table. */
  datatype Review = Review(product: nat, user: nat, tenant: nat, rating: int, status: ReviewStatus)

  /** products.reviewCount and products.avgRating. */
  datatype Rating = Rating(reviewCount: nat, avgRating: Option<int>)

  datatype Db = Db(reviews: seq<Review>, ratings: map<nat, Rating>)

  /** How a mean (a sum over a positive count) is printed to two decimals: any function will do. */
  type Rounding = (int, nat) -> int

  datatype Operation =
    | Create(product: nat, author: nat, tenant: nat, rating: int)
    | Update(author: nat, id: nat, newRating: Option<int>)
    | Remove(author: nat, id: nat)
    | Moderate(tenant: nat, id: nat, status: ReviewStatus)

  /** What one transaction writes to the reviews table. */
  datatype Write = Insert(row: Review) | Change(id: nat, rating: Option<int>, status: Option<ReviewStatus>)

  // ---------------------------------------------------------------------------------------------
  // The aggregate
  // ---------------------------------------------------------------------------------------------

  predicate Counts(r: Review, product: nat) {
    r.product == product && r.status == Published
  }

  function Count(reviews: seq<Review>, product: nat): nat {
    if reviews == [] then 0
    else Count(reviews[..|reviews| - 1], product) + (if Counts(reviews[|reviews| - 1], product) then 1 else 0)
  }

  function Total(reviews: seq<Review>, product: nat): int {
    if reviews == [] then 0
    else
      var last := reviews[|reviews| - 1];
      Total(reviews[..|reviews| - 1], product) + (if Counts(last, product) then last.rating else 0)
  }

  function Aggregate(reviews: seq<Review>, product: nat, round: Rounding): Rating {
    var n := Count(reviews, product);
    Rating(n, if n > 0 then Some(round(Total(reviews, product), n)) else None)
  }

  lemma AppendReview(reviews: seq<Review>, r: Review, product: nat)
    ensures Count(reviews + [r], product) == Count(reviews, product) + (if Counts(r, product) then 1 else 0)
    ensures Total(reviews + [r], product) == Total(reviews, product) + (if Counts(r, product) then r.rating else 0)
  {
    assert (reviews + [r])[..|reviews|] == reviews;
  }

  /** Changing one row moves the aggregate by exactly that row. */
  lemma {:induction false} ReplaceReview(reviews: seq<Review>, i: nat, r: Review, product: nat)
    requires i < |reviews|
    ensures
      Count(reviews[i := r], product) - Count(reviews, product) ==
      (if Counts(r, product) then 1 else 0) - (if Counts(reviews[i], product) then 1 else 0)
    ensures
      Total(reviews[i := r], product) - Total(reviews, product) ==
      (if Counts(r, product) then r.rating else 0) - (if Counts(reviews[i], product) then reviews[i].rating else 0)
  {
    var n := |reviews| - 1;
    if i < n {
      assert reviews[i := r][..n] == reviews[..n][i := r];
      ReplaceReview(reviews[..n], i, r, product);
    } else {
      assert reviews[i := r][..n] == reviews[..n];
    }
  }

  // ---------------------------------------------------------------------------------------------
  // The operations
  // ---------------------------------------------------------------------------------------------

  predicate Writable(reviews: seq<Review>, w: Write) {
    w.Change? ==> w.id < |reviews|
  }

  function Written(reviews: seq<Review>, w: Write): seq<Review>
    requires Writable(reviews, w)
  {
    match w
    case Insert(row) => reviews + [row]
    case Change(id, rating, status) =>
      var r := reviews[id];
      reviews[id := r.(rating := if rating.Some? then rating.value else r.rating,
                       status := if status.Some? then status.value else r.status)]
  }

  function ProductOf(reviews: seq<Review>, w: Write): nat
    requires Writable(reviews, w)
  {
    if w.Insert? then w.row.product else reviews[w.id].product
  }

  predicate Taken(reviews: seq<Review>, product: nat, user: nat) {
    exists i :: 0 <= i < |reviews| && reviews[i].product == product && reviews[i].user == user
  }

  /** What the lookups before the write decide: who may write what. `delivered` is whether the
      author has a delivered order with the product. */
  function Decide(db: Db, op: Operation, delivered: bool): (w: Option<Write>)
    ensures w.Some? ==> Writable(db.reviews, w.value) && (w.value.Insert? ==> w.value.row.product in db.ratings)
  {
    match op
    case Create(product, author, tenant, rating) =>
      if !delivered || product !in db.ratings then None else Some(Insert(Review(product, author, tenant, rating, Published)))
    case Update(author, id, rating) =>
      if id >= |db.reviews| || db.reviews[id].user != author then None else Some(Change(id, rating, None))
    case Remove(author, id) =>
      if id >= |db.reviews| || db.reviews[id].user != author then None else Some(Change(id, None, Some(Removed)))
    case Moderate(tenant, id, status) =>
      if id >= |db.reviews| || db.reviews[id].tenant != tenant then None else Some(Change(id, None, Some(status)))
  }

  /** The whole transaction when nothing runs beside it; the value is the product recomputed. */
  function Alone(db: Db, op: Operation, delivered: bool, round: Rounding): TxResult<Db, nat> {
    match Decide(db, op, delivered)
    case None => Rollback(Failure.Rejected)
    case Some(w) =>
      if w.Insert? && Taken(db.reviews, w.row.product, w.row.user) then Rollback(UniqueViolation)
      else
        var product := ProductOf(db.reviews, w);
        var reviews := Written(db.reviews, w);
        Commit(Db(reviews, db.ratings[product := Aggregate(reviews, product, round)]), product)
  }

  class ReviewStore {
    var reviews: seq<Review>
    var ratings: map<nat, Rating>

    function Tables(): Db
      reads this
    {
      Db(reviews, ratings)
    }

    /** recomputeProductRating: the aggregate over the published reviews replaces the stored columns. */
    method RecomputeProductRating(product: nat, round: Rounding)
      modifies this`ratings
      ensures ratings == old(ratings)[product := Aggregate(reviews, product, round)]
    {
      var n: nat, total := 0, 0;
      for i := 0 to |reviews|
        invariant n == Count(reviews[..i], product) && total == Total(reviews[..i], product)
      {
        assert reviews[..i + 1][..i] == reviews[..i];
        if Counts(reviews[i], product) {
          n, total := n + 1, total + reviews[i].rating;
        }
      }
      assert reviews[..|reviews|] == reviews;
      ratings := ratings[product := Rating(n, if n > 0 then Some(round(total, n)) else None)];
    }

    method CreateReview(product: nat, author: nat, tenant: nat, rating: int, delivered: bool, round: Rounding)
      returns (r: Attempted<nat>)
      modifies this
      ensures Executes(Alone(old(Tables()), Create(product, author, tenant, rating), delivered, round), old(Tables()), Tables(), r)
    {
      if !delivered || product !in ratings {
        return Throw(Failure.Rejected);
      }
      if exists i :: 0 <= i < |reviews| && reviews[i].product == product && reviews[i].user == author {
        return Throw(UniqueViolation);
      }
      reviews := reviews + [Review(product, author, tenant, rating, Published)];
      RecomputeProductRating(product, round);
      return Done(product);
    }

    method UpdateReview(author: nat, id: nat, rating: Option<int>, round: Rounding) returns (r: Attempted<nat>)
      modifies this
      ensures Executes(Alone(old(Tables()), Update(author, id, rating), true, round), old(Tables()), Tables(), r)
    {
      if id >= |reviews| || reviews[id].user != author {
        return Throw(Failure.Rejected);
      }
      ghost var was := reviews;
      if rating.Some? {
        reviews := reviews[id := reviews[id].(rating := rating.value)];
      }
      assert reviews == Written(was, Change(id, rating, None));
      hide Aggregate;
      RecomputeProductRating(reviews[id].product, round);
      return Done(reviews[id].product);
    }

    method RemoveReview(author: nat, id: nat, round: Rounding) returns (r: Attempted<nat>)
      modifies this
      ensures Executes(Alone(old(Tables()), Remove(author, id), true, round), old(Tables()), Tables(), r)
    {
      if id >= |reviews| || reviews[id].user != author {
        return Throw(Failure.Rejected);
      }
      reviews := reviews[id := reviews[id].(status := Removed)];
      RecomputeProductRating(reviews[id].product, round);
      return Done(reviews[id].product);
    }

    method AdminUpdateStatus(tenant: nat, id: nat, status: ReviewStatus, round: Rounding) returns (r: Attempted<nat>)
      modifies this
      ensures Executes(Alone(old(Tables()), Moderate(tenant, id, status), true, round), old(Tables()), Tables(), r)
    {
      if id >= |reviews| || reviews[id].tenant != tenant {
        return Throw(Failure.Rejected);
      }
      reviews := reviews[id := reviews[id].(status := status)];
      RecomputeProductRating(reviews[id].product, round);
      return Done(reviews[id].product);
    }
  }
}
