/** The review rules: who may review which product of which order, rating bounds, the
    edit that touches only rating and comment, the status-change hook and the checked
    queries. */
module ReviewService {
  import opened Linq
  import opened Domain
  import opened OrderRepository
  import opened ReviewRepository

  const OrderMissing := Error(ArgumentError, "Order not found")
  const NotOrderOwner := Error(Unauthorized, "User is not authorized to review this order")
  const ProductNotInOrder := Error(ArgumentError, "Product is not part of the specified order")
  const DuplicateReview := Error(InvalidOperation, "A review for this product in the order already exists")
  const RatingOutOfRange := Error(ArgumentError, "Rating must be between 1 and 5")
  const ReviewMissing := Error(ArgumentError, "Review not found")
  const InvalidProductId := Error(ArgumentError, "Invalid productId")

  function HasReviewId(reviewId: int): Review -> bool { (r: Review) => r.id == reviewId }
  function ForOtherOrder(orderId: int): Review -> bool { (r: Review) => r.orderId != orderId }
  function ForItem(productId: int): OrderItem -> bool { (i: OrderItem) => i.productId == productId }

  /** No (order, product) pair has two reviews. */
  predicate OnePerOrderAndProduct(reviews: seq<Review>)
  {
    forall i, j | 0 <= i < j < |reviews| ::
      !(reviews[i].orderId == reviews[j].orderId && reviews[i].productId == reviews[j].productId)
  }

  /** The duplicate check as the service words it (a review of the product among the
      order's reviews) is the repository's by-order-and-product lookup. */
  lemma OrderReviewOfProduct(reviews: seq<Review>, orderId: int, productId: int)
    ensures FirstOrDefault(OrderReviews(reviews, orderId), AboutProduct(productId)).Some?
            <==> ReviewByOrderAndProduct(reviews, orderId, productId).Some?
  {
    var mine := OrderReviews(reviews, orderId);
    if j :| 0 <= j < |reviews| && reviews[j].orderId == orderId && reviews[j].productId == productId {
      assert reviews[j] in mine;
      var k :| 0 <= k < |mine| && mine[k] == reviews[j];
      assert AboutProduct(productId)(mine[k]);
    }
    if FirstOrDefault(mine, AboutProduct(productId)).Some? {
      var k := FirstIndex(mine, AboutProduct(productId)).value;
      assert mine[k] in reviews;
      var j :| 0 <= j < |reviews| && reviews[j] == mine[k];
      assert ForOrderAndProduct(orderId, productId)(reviews[j]);
    }
  }

  /** CreateReviewAsync. The order, its owner, the product's line, an earlier review of
      the pair and the rating are checked in that order; the order's status is not. */
  method CreateReview(orders: OrderStore, store: ReviewStore, userId: int, orderId: int, productId: int,
                      rating: int, comment: string, now: DateTime) returns (r: Result<Review>)
    requires store.Valid()
    modifies store
    ensures store.Valid()
    ensures orderId !in orders.orders ==> r == Failure(OrderMissing)
    ensures orderId in orders.orders && orders.orders[orderId].userId != userId ==> r == Failure(NotOrderOwner)
    ensures (orderId in orders.orders && orders.orders[orderId].userId == userId
             && !OrderContains(orders.orders[orderId], productId)) ==> r == Failure(ProductNotInOrder)
    ensures (orderId in orders.orders && orders.orders[orderId].userId == userId
             && OrderContains(orders.orders[orderId], productId)
             && ReviewByOrderAndProduct(old(store.reviews), orderId, productId).Some?) ==> r == Failure(DuplicateReview)
    ensures (orderId in orders.orders && orders.orders[orderId].userId == userId
             && OrderContains(orders.orders[orderId], productId)
             && ReviewByOrderAndProduct(old(store.reviews), orderId, productId).None?
             && !(1 <= rating <= 5)) ==> r == Failure(RatingOutOfRange)
    ensures r.Success? <==>
              && orderId in orders.orders && orders.orders[orderId].userId == userId
              && OrderContains(orders.orders[orderId], productId)
              && ReviewByOrderAndProduct(old(store.reviews), orderId, productId).None?
              && 1 <= rating <= 5
    ensures r.Failure? ==> store.reviews == old(store.reviews) && store.nextId == old(store.nextId)
    ensures r.Success? ==>
              && r.value == Review(old(store.nextId), userId, orderId, productId, rating, comment, now, None)
              && store.reviews == old(store.reviews) + [r.value]
              && store.nextId == old(store.nextId) + 1
    ensures OnePerOrderAndProduct(old(store.reviews)) ==> OnePerOrderAndProduct(store.reviews)
    ensures RatingsInRange(old(store.reviews)) ==> RatingsInRange(store.reviews)
  {
    if orderId !in orders.orders {
      return Failure(OrderMissing);
    }
    var order := orders.orders[orderId];
    if order.userId != userId {
      return Failure(NotOrderOwner);
    }
    var line := FirstOrDefault(order.items, ForItem(productId));
    if line.None? {
      return Failure(ProductNotInOrder);
    }
    var existing := FirstOrDefault(OrderReviews(store.reviews, orderId), AboutProduct(productId));
    OrderReviewOfProduct(store.reviews, orderId, productId);
    if existing.Some? {
      return Failure(DuplicateReview);
    }
    if rating < 1 || rating > 5 {
      return Failure(RatingOutOfRange);
    }
    AppendReview(store.reviews, Review(store.nextId, userId, orderId, productId, rating, comment, now, None));
    var review := store.Add(Review(0, userId, orderId, productId, rating, comment, now, None));
    r := Success(review);
  }

  /** Appending a review of a pair not yet reviewed, with a rating in range, keeps the
      pairs unique and the ratings in range. */
  lemma AppendReview(reviews: seq<Review>, x: Review)
    ensures OnePerOrderAndProduct(reviews) && ReviewByOrderAndProduct(reviews, x.orderId, x.productId).None?
            ==> OnePerOrderAndProduct(reviews + [x])
    ensures RatingsInRange(reviews) && 1 <= x.rating <= 5 ==> RatingsInRange(reviews + [x])
  {
    var w := reviews + [x];
    assert forall i | 0 <= i < |reviews| :: w[i] == reviews[i];
  }

  /** UpdateReviewAsync: a stored review gets the new rating and comment, and nothing else
      about it or any other review changes. */
  method UpdateReview(store: ReviewStore, reviewId: int, rating: int, comment: string) returns (r: Result<Review>)
    requires store.Valid()
    modifies store
    ensures store.Valid() && store.nextId == old(store.nextId)
    ensures FirstIndex(old(store.reviews), HasReviewId(reviewId)).None? ==> r == Failure(ReviewMissing)
    ensures FirstIndex(old(store.reviews), HasReviewId(reviewId)).Some? && !(1 <= rating <= 5) ==>
              r == Failure(RatingOutOfRange)
    ensures r.Success? <==> FirstIndex(old(store.reviews), HasReviewId(reviewId)).Some? && 1 <= rating <= 5
    ensures r.Failure? ==> r.error in {ReviewMissing, RatingOutOfRange} && store.reviews == old(store.reviews)
    ensures r.Success? ==>
              var k := FirstIndex(old(store.reviews), HasReviewId(reviewId)).value;
              && r.value == old(store.reviews)[k].(rating := rating, comment := comment)
              && r.value.id == reviewId
              && store.reviews == old(store.reviews)[k := r.value]
    ensures OnePerOrderAndProduct(old(store.reviews)) ==> OnePerOrderAndProduct(store.reviews)
    ensures RatingsInRange(old(store.reviews)) ==> RatingsInRange(store.reviews)
  {
    var found := FirstIndex(store.reviews, HasReviewId(reviewId));
    if found.None? {
      return Failure(ReviewMissing);
    }
    if rating < 1 || rating > 5 {
      return Failure(RatingOutOfRange);
    }
    var k := found.value;
    var review := store.reviews[k].(rating := rating, comment := comment);
    store.reviews := store.reviews[k := review];
    r := Success(review);
  }

  /** The review table after the status-change hook: unless the new status is Delivered,
      the order's first review is deleted. */
  function AfterStatusChange(reviews: seq<Review>, orderId: int, newStatus: OrderStatus): (r: seq<Review>)
    ensures newStatus == Delivered || ReviewByOrderId(reviews, orderId).None? ==> r == reviews
    ensures newStatus != Delivered && ReviewByOrderId(reviews, orderId).Some? ==>
              |r| == |reviews| - 1
              && multiset(r) + multiset{ReviewByOrderId(reviews, orderId).value} == multiset(reviews)
  {
    match FirstIndex(reviews, ForOrder(orderId))
    case None => reviews
    case Some(k) =>
      if newStatus == Delivered then reviews
      else
        assert reviews == reviews[..k] + [reviews[k]] + reviews[k + 1..];
        reviews[..k] + reviews[k + 1..]
  }

  /** HandleOrderStatusChangeAsync as written: None after a deletion, otherwise the
      order's first review, if any. */
  method HandleOrderStatusChange(store: ReviewStore, orderId: int, newStatus: OrderStatus)
    returns (r: Option<Review>)
    requires store.Valid()
    modifies store
    ensures store.Valid() && store.nextId == old(store.nextId)
    ensures store.reviews == AfterStatusChange(old(store.reviews), orderId, newStatus)
    ensures r == if newStatus != Delivered then None else ReviewByOrderId(old(store.reviews), orderId)
  {
    var found := FirstIndex(store.reviews, ForOrder(orderId));
    if found.Some? && newStatus != Delivered {
      var k := found.value;
      store.reviews := store.reviews[..k] + store.reviews[k + 1..];
      return None;
    }
    r := if found.Some? then Some(store.reviews[found.value]) else None;
  }

  /** Since an order may hold reviews of several products, the hook leaves all but one of
      them behind: cancelling order 1 with reviews of products 1 and 2 keeps the second. */
  lemma StatusChangeLeavesOrderReviews()
    ensures var d := DateTime(2025, 1, 1, 0);
            var reviews := [Review(1, 1, 1, 1, 5, "", d, None), Review(2, 1, 1, 2, 4, "", d, None)];
            AfterStatusChange(reviews, 1, Cancelled) == [reviews[1]]
            && OrderReviews(AfterStatusChange(reviews, 1, Cancelled), 1) != []
  {
    var d := DateTime(2025, 1, 1, 0);
    var reviews := [Review(1, 1, 1, 1, 5, "", d, None), Review(2, 1, 1, 2, 4, "", d, None)];
    assert ForOrder(1)(reviews[0]);
    assert reviews[1] in OrderReviews([reviews[1]], 1);
  }

  /** The review table after the hook as evidently intended: every review of the order is
      deleted unless the new status is Delivered. */
  function WithoutOrderReviews(reviews: seq<Review>, orderId: int, newStatus: OrderStatus): (r: seq<Review>)
    ensures newStatus == Delivered ==> r == reviews
  {
    if newStatus == Delivered then reviews else Where(reviews, ForOtherOrder(orderId))
  }

  /** Under the intended hook the order has no review left, reviews of every other order
      stay as they were and in their order, and a Delivered status changes nothing. */
  lemma {:induction false} WithoutOrderReviewsSpec(reviews: seq<Review>, orderId: int, newStatus: OrderStatus,
                                                   other: int)
    requires newStatus != Delivered
    ensures OrderReviews(WithoutOrderReviews(reviews, orderId, newStatus), orderId) == []
    ensures other != orderId ==>
              OrderReviews(WithoutOrderReviews(reviews, orderId, newStatus), other) == OrderReviews(reviews, other)
  {
    if reviews != [] {
      WithoutOrderReviewsSpec(reviews[1..], orderId, newStatus, other);
      var rest := Where(reviews[1..], ForOtherOrder(orderId));
      if reviews[0].orderId == orderId {
        assert Where(reviews, ForOtherOrder(orderId)) == rest;
      } else {
        assert Where(reviews, ForOtherOrder(orderId)) == [reviews[0]] + rest;
        assert ([reviews[0]] + rest)[1..] == rest;
      }
    }
  }

  /** HandleOrderStatusChangeAsync as evidently intended: same result, but the order keeps
      no review once its status leaves Delivered. */
  method HandleOrderStatusChangeAll(store: ReviewStore, orderId: int, newStatus: OrderStatus)
    returns (r: Option<Review>)
    requires store.Valid()
    modifies store
    ensures store.Valid() && store.nextId == old(store.nextId)
    ensures store.reviews == WithoutOrderReviews(old(store.reviews), orderId, newStatus)
    ensures newStatus != Delivered ==> OrderReviews(store.reviews, orderId) == []
    ensures r == if newStatus != Delivered then None else ReviewByOrderId(old(store.reviews), orderId)
  {
    r := ReviewByOrderId(store.reviews, orderId);
    if newStatus != Delivered {
      WithoutOrderReviewsSpec(store.reviews, orderId, newStatus, orderId);
      WhereKeepsDistinctIds(store.reviews, ForOtherOrder(orderId));
      store.reviews := Where(store.reviews, ForOtherOrder(orderId));
      r := None;
    }
  }

  /** Filtering keeps the ids distinct. */
  lemma {:induction false} WhereKeepsDistinctIds(reviews: seq<Review>, p: Review -> bool)
    requires DistinctIds(reviews)
    ensures DistinctIds(Where(reviews, p))
  {
    if reviews != [] {
      var rest := Where(reviews[1..], p);
      WhereKeepsDistinctIds(reviews[1..], p);
      if p(reviews[0]) {
        forall j | 0 <= j < |rest| ensures rest[j].id != reviews[0].id {
          assert rest[j] in reviews[1..];
        }
        PrependKeepsDistinctIds(reviews[0], rest);
      }
    }
  }

  lemma PrependKeepsDistinctIds(x: Review, rest: seq<Review>)
    requires DistinctIds(rest) && forall j | 0 <= j < |rest| :: rest[j].id != x.id
    ensures DistinctIds([x] + rest)
  {
    var w := [x] + rest;
    forall i, j | 0 <= i < j < |w| ensures w[i].id != w[j].id {
      assert w[j] == rest[j - 1];
      if i > 0 {
        assert w[i] == rest[i - 1];
      }
    }
  }

  /** HasUserPurchasedProductAsync: some Delivered order of the user holds the product. */
  predicate HasUserPurchasedProduct(orders: map<int, Order>, userId: int, productId: int)
  {
    exists id | id in orders ::
      orders[id].userId == userId && orders[id].status == Delivered && OrderContains(orders[id], productId)
  }

  /** Delivering a user's order that holds the product makes it purchased, and moving the
      user's only such Delivered order to another status takes that back. */
  lemma PurchaseFollowsDelivery(orders: map<int, Order>, id: int, userId: int, productId: int, status: OrderStatus)
    requires id in orders && orders[id].userId == userId && OrderContains(orders[id], productId)
    ensures HasUserPurchasedProduct(orders[id := orders[id].(status := Delivered)], userId, productId)
    ensures status != Delivered
            && (forall o | o in orders && o != id :: !(orders[o].userId == userId && orders[o].status == Delivered
                                                       && OrderContains(orders[o], productId)))
            ==> !HasUserPurchasedProduct(orders[id := orders[id].(status := status)], userId, productId)
  {
    var delivered := orders[id := orders[id].(status := Delivered)];
    assert delivered[id].items == orders[id].items;
    assert OrderContains(delivered[id], productId);
  }

  /** GetFilteredReviewsAsync: a rating outside 1..5 fails; otherwise exactly the reviews
      with that rating. */
  function GetFilteredReviews(reviews: seq<Review>, rating: int): (r: Result<seq<Review>>)
    ensures !(1 <= rating <= 5) ==> r == Failure(RatingOutOfRange)
    ensures 1 <= rating <= 5 ==> r.Success?
    ensures r.Success? ==>
              && (forall j | 0 <= j < |r.value| :: r.value[j] in reviews && r.value[j].rating == rating)
              && (forall j | 0 <= j < |reviews| && reviews[j].rating == rating :: reviews[j] in r.value)
  {
    if rating < 1 || rating > 5 then Failure(RatingOutOfRange) else Success(FilteredReviews(reviews, rating))
  }

  /** GetProductReviewsAsync: a productId of 0 or less fails; otherwise the reviews whose
      order holds the product. */
  function GetProductReviews(reviews: seq<Review>, orders: map<int, Order>, productId: int)
    : (r: Result<seq<Review>>)
    ensures productId <= 0 ==> r == Failure(InvalidProductId)
    ensures productId > 0 ==> r.Success?
    ensures r.Success? ==>
              && (forall j | 0 <= j < |r.value| ::
                    r.value[j] in reviews && r.value[j].orderId in orders
                    && OrderContains(orders[r.value[j].orderId], productId))
              && (forall j | 0 <= j < |reviews| ::
                    reviews[j].orderId in orders && OrderContains(orders[reviews[j].orderId], productId)
                    ==> reviews[j] in r.value)
  {
    if productId <= 0 then Failure(InvalidProductId) else Success(ProductReviews(reviews, orders, productId))
  }
}
