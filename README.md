# Order and feedback back end: a Dafny model

This project models the business core of OrderFeedbackManagementSystemAPI. That core is an
ASP.NET Core shop back end with products, carts, orders and reviews of delivered
purchases, plus registration and login. The database tables are classes that hold
sequences or maps of entity values: `ProductStore`, `CartStore`, `OrderStore`,
`UserStore` and `ReviewStore`. Each has a `nextId` identity counter and a `Valid()`
invariant. Each service operation is a method over the stores it writes, and its
`ensures` give the whole new state and the result. Helpers that only compute are
functions, and the lemmas beside them prove what the services promise.

The model covers these operations:

- **Orders:**
  - the one-line-at-a-time stock check, which writes each line's price snapshot in place into the caller's array;
  - the order total;
  - the stock decrements;
  - the status write;
  - the order number format.
- **Catalog:**
  - field validation on create and update;
  - delete;
  - the in-stock query;
  - signed stock adjustment;
  - the repository's unchecked stock decrement.
- **Carts:**
  - lazy creation;
  - add with merge, or append with a price snapshot;
  - remove;
  - set quantity;
  - clear;
  - the `CartItem` factory and its quantity setter.
- **Reviews:**
  - the checks before a review is created;
  - the edit, which changes only rating and comment;
  - the status-change hook;
  - the purchase predicate;
  - the six repository queries, including the average rating.
- **Accounts:**
  - register, with duplicate checks and the default role `"User"`;
  - login, which gives one failure for both an unknown email and a wrong password;
  - the current user taken from the id claim.
- **Listing:** the product listing's filter, sort and page pipeline, and the controller's own
  product update, which writes the parsed form fields without any range check.

Every failure is a `Result.Failure` carrying an `Error`. The error's kind is the .NET exception type the
code throws, and its message is the code's exact text.

Where the code and the entity types disagree, the model follows the code:

- `Review.cs` declares no `ProductId`. The five-argument `CreateReviewAsync` and the
  review repository both read and write one, so the model's `Review` has one.
- `Order` declares a single `Review` navigation. The migration `FixRelationships.cs:13-20` drops
  the unique index on `Reviews.OrderId`, so an order can hold several reviews. The model
  treats an order's reviews as the rows of the review table with that `OrderId`.

Modules:

| module | models |
|---|---|
| `Linq` | `Option`, `FirstOrDefault` (`FirstIndex`), `Where`, `Skip`, `Take` |
| `Text` | whitespace, ASCII lower-casing, substring search, ordinal order, decimal digits |
| `Domain` | entities, column limits, failure kinds, `CartItem.Create` / `UpdateQuantity` |
| `ProductRepository`, `UserRepository`, `OrderRepository`, `CartRepository`, `ReviewRepository` | the tables and their queries |
| `ProductService`, `OrderService`, `CartService`, `ReviewService`, `AuthService` | the services |
| `ProductsController` | `GetProducts` and `UpdateProduct` |

## Model

| member | source | states |
|---|---|---|
| Linq.FirstIndex | OrderFeedbackManagementSystemAPI.Infrastructure/Repositories/CartRepositoty.cs:12-18 | FirstOrDefault's index: None exactly when no element matches, otherwise the first matching index |
| Linq.Where | OrderFeedbackManagementSystemAPI.Infrastructure/Repositories/ReviewRepository.cs:40-45 | the result holds only matching elements of the input and every matching element |
| Linq.WhereAppend | OrderFeedbackManagementSystemAPI.Infrastructure/Repositories/ReviewRepository.cs:19-25 | filtering distributes over concatenation, so stored order is kept |
| Domain.CartItem.Create | OrderFeedbackManagementSystemAPI.Domain/Entities/CartItem.cs:12-23 | succeeds exactly for a positive quantity and keeps product, quantity and price; otherwise fails with "Quantity must be greater than 0" |
| Domain.CartItem.UpdateQuantity | OrderFeedbackManagementSystemAPI.Domain/Entities/CartItem.cs:25-31 | sets exactly the quantity when it is positive, otherwise fails with the same error |
| Domain.CartItemQuantityStaysPositive | OrderFeedbackManagementSystemAPI.Domain/Entities/CartItem.cs:12-31 | a line made by Create keeps a positive quantity, its product and its price through any series of UpdateQuantity calls |
| ProductRepository.ProductStore.UpdateStock | OrderFeedbackManagementSystemAPI.Infrastructure/Repositories/ProductRepository.cs:18-26 | the table becomes StockDecremented: only that product's stock drops by the quantity; an unknown id changes nothing |
| ProductRepository.StockDecremented | OrderFeedbackManagementSystemAPI.Infrastructure/Repositories/ProductRepository.cs:18-26 | same keys, every other product untouched, only the stock of the named product changed |
| ProductRepository.StockDecrementCanGoNegative | OrderFeedbackManagementSystemAPI.Infrastructure/Repositories/ProductRepository.cs:23 | no lower bound: decrementing by more than the stock leaves it negative |
| ProductService.FieldError | OrderFeedbackManagementSystemAPI.Application/Services/ProductService.cs:36-43 | None exactly for a well-formed product (non-blank name, positive price, non-negative stock); otherwise the first failing check's error, in the code's order |
| ProductService.CreateProduct | OrderFeedbackManagementSystemAPI.Application/Services/ProductService.cs:34-46 | a failing check leaves the table unchanged with that error; otherwise the product is stored under the next id; well-formedness of the table is preserved |
| ProductService.Overwritten | OrderFeedbackManagementSystemAPI.Application/Services/ProductService.cs:63-67 | keeps the id and takes name, description, price, stock and image path from the request |
| ProductService.UpdateProduct | OrderFeedbackManagementSystemAPI.Application/Services/ProductService.cs:48-71 | an unknown id fails first, then the field checks; only when all pass is the product overwritten; well-formedness preserved |
| ProductService.DeleteProduct | OrderFeedbackManagementSystemAPI.Application/Services/ProductService.cs:73-80 | succeeds exactly for a stored id and then removes only that product |
| ProductService.IsProductInStock | OrderFeedbackManagementSystemAPI.Application/Services/ProductService.cs:82-89 | fails exactly for an unknown id; otherwise true exactly when stock >= quantity |
| ProductService.AdjustedStock | OrderFeedbackManagementSystemAPI.Application/Services/ProductService.cs:97-100 | refused exactly when a negative delta exceeds the stock; otherwise the stock plus the delta, never negative from non-negative stock |
| ProductService.AdjustRoundTrip | OrderFeedbackManagementSystemAPI.Application/Services/ProductService.cs:91-103 | adding q units then removing q restores the product |
| ProductService.UpdateProductStock | OrderFeedbackManagementSystemAPI.Application/Services/ProductService.cs:91-103 | unknown id fails; otherwise the result is AdjustedStock and only a success writes the product |
| UserRepository.UserStore.GetById | OrderFeedbackManagementSystemAPI.Domain/Interfaces/IUserRepository.cs:12-14 | None exactly when no user has the id, otherwise a stored user with that id |
| UserRepository.UserStore.GetByEmail | OrderFeedbackManagementSystemAPI.Domain/Interfaces/IUserRepository.cs:12-14 | None exactly when no user has the email, otherwise a stored user with that email |
| UserRepository.UserStore.GetByUsername | OrderFeedbackManagementSystemAPI.Domain/Interfaces/IUserRepository.cs:12-14 | None exactly when no user has the username, otherwise a stored user with it |
| OrderRepository.OrderStore.Add | OrderFeedbackManagementSystemAPI.Application/Services/OrderService.cs:63 | the order is stored under the next id and the counter advances |
| OrderService.SnapshotTotal | OrderFeedbackManagementSystemAPI.Application/Services/OrderService.cs:87-96 | once every line carries its catalog price, the catalog total equals the sum of unit price times quantity |
| OrderService.DecrementAllStock | OrderFeedbackManagementSystemAPI.Application/Services/OrderService.cs:58-61 | the decrement loop changes only stock, and each product loses the summed quantity of its lines |
| OrderService.OrderKeepsStockNonNegative | OrderFeedbackManagementSystemAPI.Application/Services/OrderService.cs:36-61 | when all lines pass the check and name distinct products, no non-negative stock goes below zero |
| OrderService.DuplicateLinesOversell | OrderFeedbackManagementSystemAPI.Application/Services/OrderService.cs:36-61 | two lines of the same product both pass against one unit of stock, which ends at -1 |
| OrderService.OrderableInTotalKeepsStock | OrderFeedbackManagementSystemAPI.Application/Services/OrderService.cs:36-61 | with the summed check, no non-negative stock goes below zero, repeated products or not |
| OrderService.OrderableInTotalAgrees | OrderFeedbackManagementSystemAPI.Application/Services/OrderService.cs:36-46 | on distinct products the summed check accepts exactly what the code's check accepts |
| OrderService.OrderableInTotalRefusesOversell | OrderFeedbackManagementSystemAPI.Application/Services/OrderService.cs:36-46 | the summed check refuses the two-line order that oversells |
| OrderService.GenerateOrderNumber | OrderFeedbackManagementSystemAPI.Application/Services/OrderService.cs:98-101 | the number is always 21 characters long |
| OrderService.OrderNumberRoundTrip | OrderFeedbackManagementSystemAPI.Application/Services/OrderService.cs:100 | parsing the number gives back the UTC date and the first eight GUID characters |
| OrderService.OrderNumberExceedsColumn | OrderFeedbackManagementSystemAPI.Infrastructure/Data/ApplicationDbContext.cs:61 | every generated number is longer than the 20 characters the OrderNumber column allows |
| OrderService.CalculateOrderTotal | OrderFeedbackManagementSystemAPI.Application/Services/OrderService.cs:87-96 | succeeds exactly when every line's product exists, with the catalog total; a missing product is a null dereference |
| OrderService.CheckLines | OrderFeedbackManagementSystemAPI.Application/Services/OrderService.cs:36-46 | passes exactly when every line passes, leaving every line with its catalog price; otherwise stops at the first failing line, with earlier lines priced and later ones untouched |
| OrderService.DecrementLines | OrderFeedbackManagementSystemAPI.Application/Services/OrderService.cs:58-61 | the product table becomes DecrementAll of the lines |
| OrderService.CreateOrder | OrderFeedbackManagementSystemAPI.Application/Services/OrderService.cs:29-64 | succeeds exactly when the user exists and every line passes; then the order is Pending with the generated number, the snapshotted lines and their total, stored under the next id, and the stock is decremented; an unknown user or a refused line changes no table |
| OrderService.UpdateOrderStatus | OrderFeedbackManagementSystemAPI.Application/Services/OrderService.cs:76-85 | unknown id fails with the table unchanged; otherwise only that order's status changes |
| CartRepository.CartStore.GetByUserId | OrderFeedbackManagementSystemAPI.Infrastructure/Repositories/CartRepositoty.cs:12-18 | None exactly when the user has no cart, otherwise the user's first cart |
| CartRepository.CartStore.GetCartWithItems | OrderFeedbackManagementSystemAPI.Infrastructure/Repositories/CartRepositoty.cs:28-34 | None exactly when no cart has the id, otherwise a cart with that id |
| CartRepository.CartStore.ClearCart | OrderFeedbackManagementSystemAPI.Infrastructure/Repositories/CartRepositoty.cs:36-44 | the carts become ClearedById: the cart with that id loses its items, nothing else changes |
| CartRepository.ClearedById | OrderFeedbackManagementSystemAPI.Infrastructure/Repositories/CartRepositoty.cs:36-44 | only the first cart with that id is emptied; every other cart, and the whole table when there is none, is untouched |
| CartService.WithUserCart | OrderFeedbackManagementSystemAPI.Application/Services/CartService.cs:19-28 | afterwards the user's first cart exists; an existing one is used as is, otherwise an empty cart is appended under the next id |
| CartService.GetCart | OrderFeedbackManagementSystemAPI.Application/Services/CartService.cs:19-28 | returns the user's existing cart, or appends and returns a new empty one; afterwards a lookup by user finds it |
| CartService.AddLine | OrderFeedbackManagementSystemAPI.Application/Services/CartService.cs:46-59 | the product's first line grows by the quantity, or a new line with the current price is appended |
| CartService.AddLineQuantities | OrderFeedbackManagementSystemAPI.Application/Services/CartService.cs:46-59 | adding gives the product exactly quantity more units and leaves other products' units alone |
| CartService.AddLineKeepsOneLinePerProduct | OrderFeedbackManagementSystemAPI.Application/Services/CartService.cs:46-59 | adding never creates a second line for a product |
| CartService.AddToCart | OrderFeedbackManagementSystemAPI.Application/Services/CartService.cs:30-62 | succeeds exactly when the product exists and its stock covers the added quantity; failures change nothing; on success the located or created cart gets AddLine |
| CartService.RemoveLine | OrderFeedbackManagementSystemAPI.Application/Services/CartService.cs:68-71 | the product's first line is removed and the others keep their order |
| CartService.RemoveLineQuantities | OrderFeedbackManagementSystemAPI.Application/Services/CartService.cs:65-74 | with one line per product, the product ends with no units and every other product keeps its units |
| CartService.RemoveFromCart | OrderFeedbackManagementSystemAPI.Application/Services/CartService.cs:65-74 | the user's cart is located or created, then loses the product's line |
| CartService.SetLineQuantity | OrderFeedbackManagementSystemAPI.Application/Services/CartService.cs:82-93 | the product's first line takes the new quantity |
| CartService.SetLineQuantities | OrderFeedbackManagementSystemAPI.Application/Services/CartService.cs:76-97 | with one line per product, the product ends with exactly the quantity and other products keep theirs |
| CartService.UpdateCartItemQuantity | OrderFeedbackManagementSystemAPI.Application/Services/CartService.cs:76-97 | a missing cart, a missing line, a missing product and short stock fail in that order and change nothing; it succeeds exactly when none of them applies, and then only that line's quantity changes and the cart is returned |
| CartService.ClearCart | OrderFeedbackManagementSystemAPI.Application/Services/CartService.cs:99-102 | the carts become ClearedById of the user id |
| CartService.ClearCartClearsAnotherUsersCart | OrderFeedbackManagementSystemAPI.Application/Services/CartService.cs:99-102 | clearing for user 1 empties another user's cart whose id is 1 and leaves user 1's cart full |
| CartService.ClearedForUser | OrderFeedbackManagementSystemAPI.Application/Services/CartService.cs:99-102 | the user's first cart loses its items and every other cart stays as it was |
| CartService.ClearUserCart | OrderFeedbackManagementSystemAPI.Application/Services/CartService.cs:99-102 | afterwards the user's cart is empty and every other cart is as it was |
| CartService.AddToCartCanExceedStock | OrderFeedbackManagementSystemAPI.Application/Services/CartService.cs:36-50 | 2 held and 3 in stock: adding 2 more passes the check and leaves 4 in the cart |
| CartService.HeldQuantity | OrderFeedbackManagementSystemAPI.Application/Services/CartService.cs:46-50 | the quantity on the product's first line, or 0 when the cart has none |
| CartService.AddToCartWithinStock | OrderFeedbackManagementSystemAPI.Application/Services/CartService.cs:30-62 | a missing product, then stock short of the held plus the added quantity, fail with their errors before any cart is touched; otherwise it adds as AddToCart does, and a cart with one line per product then holds no more of the product than the stock |
| CartService.CartHeld | OrderFeedbackManagementSystemAPI.Application/Services/CartService.cs:39-50 | 0 when the user has no cart, otherwise the quantity on the first line of the product in the user's first cart |
| CartService.CartHeldIsLocatedCart | OrderFeedbackManagementSystemAPI.Application/Services/CartService.cs:39-50 | the held quantity the check reads is that of the cart the add then writes, whether it existed or was just created |
| CartService.LocatedCartWithinStock | OrderFeedbackManagementSystemAPI.Application/Services/CartService.cs:36-50 | when the corrected check passes, the cart the add writes holds no more of the product than the stock |
| CartService.WithinStockBoundsCart | OrderFeedbackManagementSystemAPI.Application/Services/CartService.cs:36-50 | under the corrected check, the cart never holds more of a product than the stock it read |
| ReviewRepository.ReviewStore.Add | OrderFeedbackManagementSystemAPI.Application/Services/ReviewService.cs:59 | the review is appended under the next id with ids kept distinct |
| ReviewRepository.OrderReviews | OrderFeedbackManagementSystemAPI.Infrastructure/Repositories/ReviewRepository.cs:19-25 | exactly the reviews of the order |
| ReviewRepository.FilteredReviews | OrderFeedbackManagementSystemAPI.Infrastructure/Repositories/ReviewRepository.cs:40-45 | exactly the reviews with the rating |
| ReviewRepository.OrderReviewsAppend | OrderFeedbackManagementSystemAPI.Infrastructure/Repositories/ReviewRepository.cs:19-25 | a review stored last comes last in its order's list: the list keeps insertion order |
| ReviewRepository.FilteredReviewsAppend | OrderFeedbackManagementSystemAPI.Infrastructure/Repositories/ReviewRepository.cs:40-45 | a review stored last comes last among the reviews with its rating |
| ReviewRepository.ReviewByOrderId | OrderFeedbackManagementSystemAPI.Infrastructure/Repositories/ReviewRepository.cs:33-38 | None exactly when the order has no review, otherwise its first review |
| ReviewRepository.ReviewByOrderAndProduct | OrderFeedbackManagementSystemAPI.Infrastructure/Repositories/ReviewRepository.cs:47-51 | None exactly when no review matches both ids, otherwise one that does |
| ReviewRepository.ProductReviews | OrderFeedbackManagementSystemAPI.Infrastructure/Repositories/ReviewRepository.cs:53-59 | exactly the reviews whose order holds a line for the product |
| ReviewRepository.AverageRating | OrderFeedbackManagementSystemAPI.Infrastructure/Repositories/ReviewRepository.cs:27-31 | 0 when no review names the product, otherwise a value whose product with the count is the rating sum |
| ReviewRepository.Mean | OrderFeedbackManagementSystemAPI.Infrastructure/Repositories/ReviewRepository.cs:30 | the mean times the count is the sum |
| ReviewRepository.MeanBounds | OrderFeedbackManagementSystemAPI.Infrastructure/Repositories/ReviewRepository.cs:30 | a sum between n and 5n has a mean between 1 and 5 |
| ReviewRepository.RatingSumBounds | OrderFeedbackManagementSystemAPI.Infrastructure/Repositories/ReviewRepository.cs:27-31 | with every rating in 1..5, the sum lies between the count and five times the count |
| ReviewRepository.RatedReviewsInRange | OrderFeedbackManagementSystemAPI.Infrastructure/Repositories/ReviewRepository.cs:27-31 | a product's reviews keep the rating range, and there is at least one when some review names it |
| ReviewRepository.AverageRatingInRange | OrderFeedbackManagementSystemAPI.Infrastructure/Repositories/ReviewRepository.cs:27-31 | with every rating in 1..5, a reviewed product averages within [1, 5] |
| ReviewRepository.AverageRatingExample | OrderFeedbackManagementSystemAPI.Infrastructure/Repositories/ReviewRepository.cs:27-31 | ratings 3 and 5 for a product, beside one for another product, average 4 |
| ReviewRepository.ProductReviewsDifferFromAverage | OrderFeedbackManagementSystemAPI.Infrastructure/Repositories/ReviewRepository.cs:27-59 | a review listed for a product through its order need not count towards that product's average |
| ReviewService.OrderReviewOfProduct | OrderFeedbackManagementSystemAPI.Application/Services/ReviewService.cs:42 | the duplicate check through the order's reviews finds one exactly when the by-order-and-product lookup does |
| ReviewService.CreateReview | OrderFeedbackManagementSystemAPI.Application/Services/ReviewService.cs:29-60 | missing order, other owner, product not in the order, existing review of the pair and rating outside 1..5 fail in that order, each with its own error, and change nothing; success appends exactly the new review; one review per pair and the rating range are preserved |
| ReviewService.AppendReview | OrderFeedbackManagementSystemAPI.Application/Services/ReviewService.cs:42-59 | appending a review of an unreviewed pair with a rating in range keeps pairs unique and ratings in range |
| ReviewService.UpdateReview | OrderFeedbackManagementSystemAPI.Application/Services/ReviewService.cs:62-76 | a missing review fails with "Review not found", then a rating outside 1..5 with "Rating must be between 1 and 5", with nothing changed; otherwise only that review's rating and comment change; pair uniqueness and rating range preserved |
| ReviewService.AfterStatusChange | OrderFeedbackManagementSystemAPI.Application/Services/ReviewService.cs:96-105 | a Delivered status or an order with no review leaves the table; otherwise exactly the order's first review is removed |
| ReviewService.HandleOrderStatusChange | OrderFeedbackManagementSystemAPI.Application/Services/ReviewService.cs:96-105 | the table becomes AfterStatusChange; the result is None for a non-Delivered status, otherwise the order's first review |
| ReviewService.StatusChangeLeavesOrderReviews | OrderFeedbackManagementSystemAPI.Application/Services/ReviewService.cs:96-105 | cancelling an order with reviews of two products leaves one of them behind |
| ReviewService.WithoutOrderReviews | OrderFeedbackManagementSystemAPI.Application/Services/ReviewService.cs:96-105 | a Delivered status leaves the table as it is |
| ReviewService.WithoutOrderReviewsSpec | OrderFeedbackManagementSystemAPI.Application/Services/ReviewService.cs:96-105 | under the intended hook the order keeps no review and every other order keeps its reviews in order |
| ReviewService.HandleOrderStatusChangeAll | OrderFeedbackManagementSystemAPI.Application/Services/ReviewService.cs:96-105 | the same result, and no review of the order remains once its status leaves Delivered |
| ReviewService.WhereKeepsDistinctIds | OrderFeedbackManagementSystemAPI.Application/Services/ReviewService.cs:101 | deleting reviews keeps the ids distinct |
| ReviewService.PurchaseFollowsDelivery | OrderFeedbackManagementSystemAPI.Application/Services/ReviewService.cs:107-114 | delivering a user's order with the product makes it purchased; moving the user's only such order away from Delivered takes that back |
| ReviewService.GetFilteredReviews | OrderFeedbackManagementSystemAPI.Application/Services/ReviewService.cs:83-89 | a rating outside 1..5 fails; otherwise exactly the reviews with the rating |
| ReviewService.GetProductReviews | OrderFeedbackManagementSystemAPI.Application/Services/ReviewService.cs:116-126 | a product id of 0 or less fails; otherwise exactly the reviews whose order holds the product |
| AuthService.Login | OrderFeedbackManagementSystemAPI.Application/Services/AuthService.cs:60-76 | an unknown email and a failed verify both give "Invalid credentials"; success exactly otherwise, with the stored username, email and role and Id 0 |
| AuthService.Register | OrderFeedbackManagementSystemAPI.Application/Services/AuthService.cs:30-58 | a taken email, then a taken username, fail with nothing changed; otherwise the user is appended with the next id, the hashed password and role "User"; unique emails and usernames are preserved; a login with the same password then succeeds |
| AuthService.NewUserFoundByEmail | OrderFeedbackManagementSystemAPI.Application/Services/AuthService.cs:30-58 | a user appended under an unused email is the one a lookup by that email finds |
| AuthService.GetCurrentUser | OrderFeedbackManagementSystemAPI.Application/Services/AuthService.cs:111-124 | a missing or empty claim, an unparsable claim and an unknown id fail; success exactly when a stored user has the parsed id, and returns that user |
| ProductsController.Filtered | OrderFeedbackManagementSystemAPI/Controllers/ProductsController.cs:52-63 | exactly the rows that pass every filter the query sets |
| ProductsController.SortSpecProperties | OrderFeedbackManagementSystemAPI/Controllers/ProductsController.cs:66-75 | the choice ignores case, falls back to name ascending for an unknown key, and is ascending only for "asc" |
| ProductsController.SortSpecPriceDescending | OrderFeedbackManagementSystemAPI/Controllers/ProductsController.cs:71-73 | "PRICE" with "Desc" sorts by price descending |
| ProductsController.SortSpecUnknownKey | OrderFeedbackManagementSystemAPI/Controllers/ProductsController.cs:74 | an unknown key sorts by name ascending, whatever the order asked for |
| ProductsController.BeforeTotal | OrderFeedbackManagementSystemAPI/Controllers/ProductsController.cs:66-75 | the sort order is total |
| ProductsController.BeforeTransitive | OrderFeedbackManagementSystemAPI/Controllers/ProductsController.cs:66-75 | the sort order is transitive |
| ProductsController.Insert | OrderFeedbackManagementSystemAPI/Controllers/ProductsController.cs:66-75 | inserting adds exactly one element |
| ProductsController.InsertSorted | OrderFeedbackManagementSystemAPI/Controllers/ProductsController.cs:66-75 | inserting into a sorted sequence keeps it sorted |
| ProductsController.Sort | OrderFeedbackManagementSystemAPI/Controllers/ProductsController.cs:66-75 | the result is a permutation of the rows and is sorted by the ordering |
| ProductsController.PageSlice | OrderFeedbackManagementSystemAPI/Controllers/ProductsController.cs:86-89 | for a positive page and limit, the page is the slice starting at (page - 1) * limit and holds at most limit rows |
| ProductsController.PagesPrefix | OrderFeedbackManagementSystemAPI/Controllers/ProductsController.cs:86-89 | pages 1..n together are the first n * limit rows |
| ProductsController.PagesCover | OrderFeedbackManagementSystemAPI/Controllers/ProductsController.cs:86-89 | enough pages give back every row, each once and in order |
| ProductsController.PageSorted | OrderFeedbackManagementSystemAPI/Controllers/ProductsController.cs:86-89 | a page of a sorted sequence is sorted |
| ProductsController.GetProducts | OrderFeedbackManagementSystemAPI/Controllers/ProductsController.cs:37-97 | every item is a stored row passing the filters, the items are sorted as asked; getAll gives the whole sorted filtered sequence and no count; otherwise the items are Page of that sequence (the slice from (page - 1) * limit, by PageSlice), the count is the filtered count and the page holds at most limit items |
| ProductsController.TotalCountIgnoresPage | OrderFeedbackManagementSystemAPI/Controllers/ProductsController.cs:85 | the count does not depend on the page or the limit |
| ProductsController.FormOverwrite | OrderFeedbackManagementSystemAPI/Controllers/ProductsController.cs:203-206 | the four form fields are written as given, and the id and image path are kept |
| ProductsController.UpdateProduct | OrderFeedbackManagementSystemAPI/Controllers/ProductsController.cs:195-240 | an unknown id is NotFound; a field that does not parse is a server error with nothing saved; otherwise the parsed fields are saved as they are |
| ProductsController.FormOverwriteSkipsChecks | OrderFeedbackManagementSystemAPI/Controllers/ProductsController.cs:203-206 | the overwrite stores a negative stock that the service's checks refuse |
| Text.LexLeTotal | OrderFeedbackManagementSystemAPI/Controllers/ProductsController.cs:69-70 | ordinal string order is total |
| Text.LexLeTransitive | OrderFeedbackManagementSystemAPI/Controllers/ProductsController.cs:69-70 | ordinal string order is transitive |
| Text.DigitsRoundTrip | OrderFeedbackManagementSystemAPI.Application/Services/OrderService.cs:100 | a zero-padded number reads back as its value |

## Left out

- Async, EF Core and concurrency are not modelled. Each service call runs as one atomic step. Change tracking and `SaveChanges` reduce to writing the table field.
- Entities are values inside the tables, so aliasing between tracked entities is not modelled.
- Navigation loading (`Include`, `ThenInclude`) is not modelled. Entities refer to each other by id.
- `CreateOrder` keeps one in-place effect of the source. The check loop writes unit prices into the caller's item array, and the stored order carries a copy of those lines. Later sharing of that list is not modelled.
- `Domain.CartItem.UpdateQuantity` works on a value and returns the updated line. It does not mutate a tracked entity.
- Password hashing and verifying (BCrypt), token issuance (JWT) and the HTTP context's claims are left out. They are function parameters of `Register`, `Login` and `GetCurrentUser`, and the token's content is not modelled.
- `int.Parse` and `decimal.Parse` are function parameters. A failed parse is modelled as one fixed FormatException message instead of the runtime's exact text.
- `DateTime.UtcNow` and `Guid.NewGuid` are parameters (`now`, `guid`).
- `OrderService.CreateOrder` reads the clock once: the order number's date and `CreatedAt` come from the same `now`. The source reads `DateTime.UtcNow` twice (`OrderService.cs:53` and `:100`), so across midnight its number can carry the day before `CreatedAt`. The model does not capture that.
- `AuthService.GetCurrentUser` reports every failed parse of the claim as a FormatException. For an all-digit claim outside the 32-bit range, `int.Parse` throws OverflowException instead.
- Image upload and deletion in the controller's `UpdateProduct` (file I/O under the web root) is left out. Without an image, the image path stays as it was.
- `ProductsController.UpdateProduct`: when a parse fails after the name and description were assigned, the tracked entity is changed but not saved. The model treats the table as unchanged.
- HTTP status codes and the 500-with-message wrapper around `GetProducts` are not modelled.
- Money is integer cents, matching `decimal(18,2)`. Prices with more than two decimals and decimal overflow are not modelled.
- 32-bit integer wrap-around is not modelled. This affects stock, quantities, ids and totals, and `(page - 1) * limit` in `GetProducts`. All of these are unbounded integers.
- `ProductService.AdjustedStock` does not model the OverflowException that `Math.Abs(int.MinValue)` throws. The model refuses that delta like any other too-large removal.
- `ProductsController.Filtered` uses ordinal, case-sensitive substring search. The database's collation may be case-insensitive.
- `ProductsController.Sort` uses ordinal name order. Its contract states permutation and sortedness, but not stability under ties, which the database does not promise.
- `ProductsController.GetProducts` uses LINQ-to-objects behaviour for `Skip` and `Take` with negative counts, which clamp to zero. SQL Server rejects a negative OFFSET or FETCH.
- `Text.ToLower` lower-cases ASCII letters only. It does not model culture-sensitive casing.
- Null strings are not modelled: a missing search is the empty string and a missing description is empty. The null check in `GetCurrentUser` is modelled as an absent claim.
- `ReviewService.HasUserPurchasedProduct` is a predicate without a contract of its own. `PurchaseFollowsDelivery` states what it means.
- The review status-change hook is not called from `UpdateOrderStatus`. The source does not wire them together either.
- `CartService.AddToCart` accepts a quantity of zero or less, unlike `CartItem.Create`. The model keeps that: it has no positivity check.
- `CartService.UpdateCartItemQuantity` requires a quantity of at least 1. Its request model binds the value with a range of 1 or more (`UpdateCartItemQuantityRequest.cs:9`).
- `CreateReview` does not look at the order's status, as in the source.
- These read-only forwards are left out, because they add nothing beyond the repository queries they call: `GetOrderById`, `GetUserOrders`, `GetProductById`, `GetAllProducts`, `GetUserCart`, and the service-level `GetOrderReviews` and `GetProductAverageRating`.

## Findings

| source | as written | input that shows it | evidently intended | confidence | as-written member | corrected member |
|---|---|---|---|---|---|---|
| OrderFeedbackManagementSystemAPI.Application/Services/CartService.cs:99-102 | ClearCartAsync passes the user id to the repository, which matches it against cart ids | carts (id 1, user 2, one line) and (id 2, user 1, one line); clearing for user 1 empties user 2's cart | empty the caller's own cart | not executed | CartService.ClearCartClearsAnotherUsersCart | CartService.ClearUserCart |
| OrderFeedbackManagementSystemAPI.Application/Services/CartService.cs:36-50 | the stock check compares only the added quantity, then the merge adds it to what the cart holds | 2 held, stock 3, add 2: accepted, 4 in the cart | stock must cover held plus added | not executed | CartService.AddToCartCanExceedStock | CartService.AddToCartWithinStock |
| OrderFeedbackManagementSystemAPI.Application/Services/OrderService.cs:36-61 | each line is checked against the undecremented stock, and the decrements run afterwards | stock 1, two lines of 1 unit of that product: accepted, stock ends at -1 | a product's summed quantity must fit its stock | not executed | OrderService.DuplicateLinesOversell | OrderService.OrderableInTotalKeepsStock |
| OrderFeedbackManagementSystemAPI.Application/Services/ReviewService.cs:96-105 | the hook looks up one review of the order and deletes only that one | order 1 with reviews of products 1 and 2, status set to Cancelled: the review of product 2 remains | delete every review of the order | not executed | ReviewService.StatusChangeLeavesOrderReviews | ReviewService.HandleOrderStatusChangeAll |

Each service method models the code as written. Each corrected member sits beside the as-written one with the intended property proved about it:

- `ClearUserCart` leaves the user's own cart empty and no other cart changed.
- `AddToCartWithinStock` and `WithinStockBoundsCart` ensure a cart never holds more of a product than the stock that the check read.
- `OrderableInTotal` and `OrderableInTotalKeepsStock` ensure no stock goes negative. `OrderableInTotalAgrees` shows the corrected check matches the original when every line names a distinct product.
- `HandleOrderStatusChangeAll` and `WithoutOrderReviewsSpec` ensure the order keeps no reviews.

The order number also does not fit its column. `GenerateOrderNumber` always produces 21 characters, while `ApplicationDbContext.cs:61` limits the column to 20 (`OrderService.OrderNumberExceedsColumn`). The intended format is unclear, so no corrected member is given.
