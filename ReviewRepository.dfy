/** The review table and its queries: by order, by rating, by order and product, by
    product through the order's lines, and the product's average rating. */
module ReviewRepository {
  import opened Linq
  import opened Domain

  function ForOrder(orderId: int): Review -> bool { (r: Review) => r.orderId == orderId }
  function AboutProduct(productId: int): Review -> bool { (r: Review) => r.productId == productId }
  function RatedAs(rating: int): Review -> bool { (r: Review) => r.rating == rating }
  function ForOrderAndProduct(orderId: int, productId: int): Review -> bool
  {
    (r: Review) => r.orderId == orderId && r.productId == productId
  }

  /** The order holds a line for the product. */
  predicate OrderContains(order: Order, productId: int)
  {
    exists i | 0 <= i < |order.items| :: order.items[i].productId == productId
  }

  /** The review's order (found through OrderId) holds a line for the product. */
  function OnOrderContaining(orders: map<int, Order>, productId: int): Review -> bool
  {
    (r: Review) => r.orderId in orders && OrderContains(orders[r.orderId], productId)
  }

  predicate DistinctIds(reviews: seq<Review>)
  {
    forall i, j | 0 <= i < j < |reviews| :: reviews[i].id != reviews[j].id
  }

  /** Reviews in insertion order; `nextId` is the next identity value. */
  class ReviewStore {
    var reviews: seq<Review>
    var nextId: int

    ghost predicate Valid()
      reads this
    {
      (forall i | 0 <= i < |reviews| :: reviews[i].id < nextId) && DistinctIds(reviews)
    }

    constructor ()
      ensures Valid() && reviews == [] && nextId == 1
    {
      reviews := [];
      nextId := 1;
    }

    /** AddAsync: appends the review under the next identity value. */
    method Add(review: Review) returns (stored: Review)
      requires Valid()
      modifies this
      ensures Valid()
      ensures stored == review.(id := old(nextId))
      ensures reviews == old(reviews) + [stored] && nextId == old(nextId) + 1
    {
      stored := review.(id := nextId);
      forall j | 0 <= j < |reviews| ensures reviews[j].id != stored.id { }
      reviews := reviews + [stored];
      nextId := nextId + 1;
    }
  }

  /** GetOrderReviewsAsync: exactly the reviews of that order, in stored order. */
  function OrderReviews(reviews: seq<Review>, orderId: int): (r: seq<Review>)
    ensures forall j | 0 <= j < |r| :: r[j] in reviews && r[j].orderId == orderId
    ensures forall j | 0 <= j < |reviews| && reviews[j].orderId == orderId :: reviews[j] in r
  {
    Where(reviews, ForOrder(orderId))
  }

  /** GetFilteredReviewsAsync: exactly the reviews with that rating, in stored order. */
  function FilteredReviews(reviews: seq<Review>, rating: int): (r: seq<Review>)
    ensures forall j | 0 <= j < |r| :: r[j] in reviews && r[j].rating == rating
    ensures forall j | 0 <= j < |reviews| && reviews[j].rating == rating :: reviews[j] in r
  {
    Where(reviews, RatedAs(rating))
  }

  /** A review stored after the others comes after them in the order's list, so the
      list keeps insertion order. */
  lemma OrderReviewsAppend(reviews: seq<Review>, x: Review, orderId: int)
    ensures OrderReviews(reviews + [x], orderId)
            == OrderReviews(reviews, orderId) + (if x.orderId == orderId then [x] else [])
  {
    WhereAppend(reviews, [x], ForOrder(orderId));
    assert [x][1..] == [];
  }

  /** Likewise for the reviews with a rating. */
  lemma FilteredReviewsAppend(reviews: seq<Review>, x: Review, rating: int)
    ensures FilteredReviews(reviews + [x], rating)
            == FilteredReviews(reviews, rating) + (if x.rating == rating then [x] else [])
  {
    WhereAppend(reviews, [x], RatedAs(rating));
    assert [x][1..] == [];
  }

  /** GetReviewByOrderIdAsync: the first review of the order, None exactly when it has none. */
  function ReviewByOrderId(reviews: seq<Review>, orderId: int): (r: Option<Review>)
    ensures r.None? <==> forall j | 0 <= j < |reviews| :: reviews[j].orderId != orderId
    ensures r.Some? ==> r.value == reviews[FirstIndex(reviews, ForOrder(orderId)).value]
    ensures r.Some? ==> r.value.orderId == orderId
  {
    FirstOrDefault(reviews, ForOrder(orderId))
  }

  /** GetReviewByOrderAndProductAsync: a review matching both ids, None exactly when none does. */
  function ReviewByOrderAndProduct(reviews: seq<Review>, orderId: int, productId: int): (r: Option<Review>)
    ensures r.None? <==> forall j | 0 <= j < |reviews| ::
                           !(reviews[j].orderId == orderId && reviews[j].productId == productId)
    ensures r.Some? ==> r.value in reviews && r.value.orderId == orderId && r.value.productId == productId
  {
    FirstOrDefault(reviews, ForOrderAndProduct(orderId, productId))
  }

  /** GetProductReviewsAsync: the reviews whose order holds a line for the product,
      whatever product the review itself names. */
  function ProductReviews(reviews: seq<Review>, orders: map<int, Order>, productId: int): (r: seq<Review>)
    ensures forall j | 0 <= j < |r| ::
              r[j] in reviews && r[j].orderId in orders && OrderContains(orders[r[j].orderId], productId)
    ensures forall j | 0 <= j < |reviews| ::
              reviews[j].orderId in orders && OrderContains(orders[reviews[j].orderId], productId)
              ==> reviews[j] in r
  {
    Where(reviews, OnOrderContaining(orders, productId))
  }

  function RatingSum(reviews: seq<Review>): int
  {
    if reviews == [] then 0 else reviews[0].rating + RatingSum(reviews[1..])
  }

  /** The reviews that name the product, which the average reads. */
  function RatedReviews(reviews: seq<Review>, productId: int): seq<Review>
  {
    Where(reviews, AboutProduct(productId))
  }

  /** GetProductAverageRatingAsync: 0 when no review names the product, otherwise the
      mean of their ratings. */
  function AverageRating(reviews: seq<Review>, productId: int): (r: real)
    ensures RatedReviews(reviews, productId) == [] ==> r == 0.0
    ensures RatedReviews(reviews, productId) != [] ==>
              r * (|RatedReviews(reviews, productId)| as real) == RatingSum(RatedReviews(reviews, productId)) as real
  {
    var rated := RatedReviews(reviews, productId);
    if rated == [] then 0.0
    else Mean(RatingSum(rated), |rated|)
  }

  /** The mean of a sum over n values, as the double that Average returns. */
  function Mean(sum: int, n: int): (r: real)
    requires n > 0
    ensures r * (n as real) == sum as real
  {
    (sum as real) / (n as real)
  }

  lemma MeanBounds(sum: int, n: int)
    requires 0 < n <= sum <= 5 * n
    ensures 1.0 <= Mean(sum, n) <= 5.0
  {
    var m := Mean(sum, n);
    var count := n as real;
    assert (m - 1.0) * count == sum as real - count;
    assert (5.0 - m) * count == 5.0 * count - sum as real;
    NonNegativeFactor(m - 1.0, count);
    NonNegativeFactor(5.0 - m, count);
  }

  lemma NonNegativeFactor(x: real, y: real)
    requires y > 0.0 && x * y >= 0.0
    ensures x >= 0.0
  {
  }

  predicate RatingsInRange(reviews: seq<Review>)
  {
    forall i | 0 <= i < |reviews| :: 1 <= reviews[i].rating <= 5
  }

  lemma {:induction false} RatingSumBounds(reviews: seq<Review>)
    requires RatingsInRange(reviews)
    ensures |reviews| <= RatingSum(reviews) <= 5 * |reviews|
  {
    if reviews != [] {
      RatingSumBounds(reviews[1..]);
    }
  }

  /** The reviews of a product keep the ratings' range, and there is one when some
      stored review names the product. */
  lemma RatedReviewsInRange(reviews: seq<Review>, productId: int)
    requires RatingsInRange(reviews)
    ensures RatingsInRange(RatedReviews(reviews, productId))
    ensures (exists i | 0 <= i < |reviews| :: reviews[i].productId == productId) ==>
              RatedReviews(reviews, productId) != []
  {
    var rated := RatedReviews(reviews, productId);
    forall j | 0 <= j < |rated| ensures 1 <= rated[j].rating <= 5 {
      assert rated[j] in reviews;
    }
    if i :| 0 <= i < |reviews| && reviews[i].productId == productId {
      assert reviews[i] in rated;
    }
  }

  /** With every stored rating in 1..5, a product that has reviews averages within [1, 5]. */
  lemma AverageRatingInRange(reviews: seq<Review>, productId: int)
    requires RatingsInRange(reviews)
    requires exists i | 0 <= i < |reviews| :: reviews[i].productId == productId
    ensures 1.0 <= AverageRating(reviews, productId) <= 5.0
  {
    var rated := RatedReviews(reviews, productId);
    RatedReviewsInRange(reviews, productId);
    RatingSumBounds(rated);
    MeanBounds(RatingSum(rated), |rated|);
  }

  /** Two reviews of product 1 rated 3 and 5, and one of product 2, average 4 for product 1. */
  lemma AverageRatingExample()
    ensures var d := DateTime(2025, 1, 1, 0);
            AverageRating([Review(1, 1, 1, 1, 3, "", d, None), Review(2, 1, 1, 2, 1, "", d, None),
                           Review(3, 2, 2, 1, 5, "", d, None)], 1) == 4.0
  {
    var d := DateTime(2025, 1, 1, 0);
    var reviews := [Review(1, 1, 1, 1, 3, "", d, None), Review(2, 1, 1, 2, 1, "", d, None),
                    Review(3, 2, 2, 1, 5, "", d, None)];
    assert Where(reviews[2..], AboutProduct(1)) == [reviews[2]];
    assert Where(reviews[1..], AboutProduct(1)) == [reviews[2]];
    assert RatedReviews(reviews, 1) == [reviews[0], reviews[2]];
    assert [reviews[2]][1..] == [];
    assert RatingSum([reviews[2]]) == 5;
    assert [reviews[0], reviews[2]][1..] == [reviews[2]];
    assert RatingSum([reviews[0], reviews[2]]) == 8;
    assert Mean(8, 2) * 2.0 == 8.0;
  }

  /** The product-review list and the average do not read the same reviews: a review of
      product 1 on an order that also holds product 2 is listed for product 2 but does not
      count towards product 2's average. */
  lemma ProductReviewsDifferFromAverage()
    ensures var d := DateTime(2025, 1, 1, 0);
            var review := Review(1, 1, 1, 1, 4, "", d, None);
            var orders := map[1 := Order(1, "", 1, Delivered, 0, d, [OrderItem(1, 1, 0), OrderItem(2, 1, 0)])];
            ProductReviews([review], orders, 2) == [review]
            && RatedReviews([review], 2) == []
            && AverageRating([review], 2) == 0.0
  {
    var d := DateTime(2025, 1, 1, 0);
    var orders := map[1 := Order(1, "", 1, Delivered, 0, d, [OrderItem(1, 1, 0), OrderItem(2, 1, 0)])];
    assert orders[1].items[1].productId == 2;
  }
}
