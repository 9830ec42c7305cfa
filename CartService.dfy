/** The cart rules: lazy creation, add (merge or append with a price snapshot), remove,
    set quantity and clear. */
module CartService {
  import opened Linq
  import opened Domain
  import opened ProductRepository
  import opened CartRepository

  const ProductMissing := Error(InvalidOperation, "Товар не знайдено")
  const OutOfStock := Error(InvalidOperation, "Недостатньо товару на складі")
  const CartMissing := Error(InvalidOperation, "Корзина не знайдена")
  const LineMissing := Error(InvalidOperation, "Товар не знайдений в корзині")
  const ProductMissingOnUpdate := Error(InvalidOperation, "Товар не знайдений")

  function ForProduct(productId: int): CartItem -> bool { (i: CartItem) => i.productId == productId }

  predicate OneLinePerProduct(items: seq<CartItem>)
  {
    forall i, j | 0 <= i < j < |items| :: items[i].productId != items[j].productId
  }

  /** How many units of a product the lines hold, over all of its lines. */
  function CartQuantity(items: seq<CartItem>, productId: int): int
  {
    if items == [] then 0
    else (if items[0].productId == productId then items[0].quantity else 0) + CartQuantity(items[1..], productId)
  }

  lemma {:induction false} CartQuantityUpdate(items: seq<CartItem>, k: nat, item: CartItem, productId: int)
    requires k < |items| && item.productId == items[k].productId
    ensures CartQuantity(items[k := item], productId)
            == CartQuantity(items, productId)
               + (if item.productId == productId then item.quantity - items[k].quantity else 0)
  {
    if k > 0 {
      assert items[k := item][1..] == items[1..][k - 1 := item];
      CartQuantityUpdate(items[1..], k - 1, item, productId);
    }
  }

  lemma {:induction false} CartQuantityAppend(items: seq<CartItem>, item: CartItem, productId: int)
    ensures CartQuantity(items + [item], productId)
            == CartQuantity(items, productId) + (if item.productId == productId then item.quantity else 0)
  {
    if items == [] {
      assert [item][1..] == [];
    } else {
      assert (items + [item])[1..] == items[1..] + [item];
      CartQuantityAppend(items[1..], item, productId);
    }
  }

  lemma {:induction false} CartQuantityRemove(items: seq<CartItem>, k: nat, productId: int)
    requires k < |items|
    ensures CartQuantity(items[..k] + items[k + 1..], productId)
            == CartQuantity(items, productId) - (if items[k].productId == productId then items[k].quantity else 0)
  {
    if k > 0 {
      assert (items[..k] + items[k + 1..])[1..] == items[1..][..k - 1] + items[1..][k..];
      CartQuantityRemove(items[1..], k - 1, productId);
    } else {
      assert items[..k] + items[k + 1..] == items[1..];
    }
  }

  /** With one line per product, the cart's quantity of a product is that of its line. */
  lemma {:induction false} CartQuantityOfLine(items: seq<CartItem>, k: nat)
    requires OneLinePerProduct(items) && k < |items|
    ensures CartQuantity(items, items[k].productId) == items[k].quantity
  {
    if k > 0 {
      CartQuantityOfLine(items[1..], k - 1);
    } else {
      CartQuantityAbsent(items[1..], items[0].productId);
    }
  }

  lemma {:induction false} CartQuantityAbsent(items: seq<CartItem>, productId: int)
    requires forall j | 0 <= j < |items| :: items[j].productId != productId
    ensures CartQuantity(items, productId) == 0
  {
    if items != [] {
      CartQuantityAbsent(items[1..], productId);
    }
  }

  /** The carts after GetCartAsync's lazy creation, the next identity value, and where the
      user's cart is: an existing cart is used as it is, otherwise an empty one is appended. */
  function WithUserCart(carts: seq<Cart>, nextId: int, userId: int): (r: (seq<Cart>, int, nat))
    ensures r.2 < |r.0| && r.0[r.2].userId == userId
    ensures FirstIndex(r.0, OwnedBy(userId)) == Some(r.2)
    ensures FirstIndex(carts, OwnedBy(userId)).Some? ==> r.0 == carts && r.1 == nextId
    ensures FirstIndex(carts, OwnedBy(userId)).None? ==>
              r.0 == carts + [Cart(nextId, userId, [])] && r.1 == nextId + 1 && r.2 == |carts|
  {
    match FirstIndex(carts, OwnedBy(userId))
    case Some(k) => (carts, nextId, k)
    case None =>
      var carts' := carts + [Cart(nextId, userId, [])];
      assert OwnedBy(userId)(carts'[|carts|]);
      (carts', nextId + 1, |carts|)
  }

  /** Finds the user's cart, creating it first when there is none. */
  method LocateCart(store: CartStore, userId: int) returns (k: nat)
    requires store.Valid()
    modifies store
    ensures store.Valid()
    ensures (store.carts, store.nextId, k) == WithUserCart(old(store.carts), old(store.nextId), userId)
  {
    var found := FirstIndex(store.carts, OwnedBy(userId));
    if found.Some? {
      return found.value;
    }
    store.carts := store.carts + [Cart(store.nextId, userId, [])];
    store.nextId := store.nextId + 1;
    k := |store.carts| - 1;
  }

  /** GetCartAsync: the user's cart, created empty when missing, so a second call finds it. */
  method GetCart(store: CartStore, userId: int) returns (cart: Cart)
    requires store.Valid()
    modifies store
    ensures store.Valid()
    ensures old(store.GetByUserId(userId)).Some? ==>
              cart == old(store.GetByUserId(userId)).value
              && store.carts == old(store.carts) && store.nextId == old(store.nextId)
    ensures old(store.GetByUserId(userId)).None? ==>
              cart == Cart(old(store.nextId), userId, [])
              && store.carts == old(store.carts) + [cart] && store.nextId == old(store.nextId) + 1
    ensures store.GetByUserId(userId) == Some(cart)
  {
    var k := LocateCart(store, userId);
    cart := store.carts[k];
  }

  /** The lines after adding `quantity` of a product: the first line of that product grows,
      or, when there is none, a line with the given price is appended. */
  function AddLine(items: seq<CartItem>, productId: int, quantity: int, price: Cents): (r: seq<CartItem>)
    ensures FirstIndex(items, ForProduct(productId)).None? ==> r == items + [CartItem(productId, quantity, price)]
    ensures FirstIndex(items, ForProduct(productId)).Some? ==>
              var k := FirstIndex(items, ForProduct(productId)).value;
              |r| == |items| && r[k] == items[k].(quantity := items[k].quantity + quantity)
              && forall j | 0 <= j < |items| && j != k :: r[j] == items[j]
  {
    match FirstIndex(items, ForProduct(productId))
    case None => items + [CartItem(productId, quantity, price)]
    case Some(k) => items[k := items[k].(quantity := items[k].quantity + quantity)]
  }

  /** Adding gives the product exactly `quantity` more units and leaves every other
      product's units alone. */
  lemma AddLineQuantities(items: seq<CartItem>, productId: int, quantity: int, price: Cents, other: int)
    ensures CartQuantity(AddLine(items, productId, quantity, price), other)
            == CartQuantity(items, other) + (if other == productId then quantity else 0)
  {
    match FirstIndex(items, ForProduct(productId))
    case None =>
      CartQuantityAppend(items, CartItem(productId, quantity, price), other);
    case Some(k) =>
      CartQuantityUpdate(items, k, items[k].(quantity := items[k].quantity + quantity), other);
  }

  /** Adding never makes a second line for a product. */
  lemma AddLineKeepsOneLinePerProduct(items: seq<CartItem>, productId: int, quantity: int, price: Cents)
    requires OneLinePerProduct(items)
    ensures OneLinePerProduct(AddLine(items, productId, quantity, price))
  {
    var r := AddLine(items, productId, quantity, price);
    if FirstIndex(items, ForProduct(productId)).None? {
      forall i, j | 0 <= i < j < |r| ensures r[i].productId != r[j].productId {
        if j == |items| {
          assert !ForProduct(productId)(items[i]);
        }
      }
    }
  }

  /** The lines after removing a product: its first line goes, the others stay in order. */
  function RemoveLine(items: seq<CartItem>, productId: int): (r: seq<CartItem>)
    ensures FirstIndex(items, ForProduct(productId)).None? ==> r == items
    ensures FirstIndex(items, ForProduct(productId)).Some? ==>
              var k := FirstIndex(items, ForProduct(productId)).value;
              r == items[..k] + items[k + 1..]
  {
    match FirstIndex(items, ForProduct(productId))
    case None => items
    case Some(k) => items[..k] + items[k + 1..]
  }

  /** With one line per product, removing leaves no unit of that product and every other
      product's units as they were. */
  lemma RemoveLineQuantities(items: seq<CartItem>, productId: int, other: int)
    requires OneLinePerProduct(items)
    ensures CartQuantity(RemoveLine(items, productId), other)
            == if other == productId then 0 else CartQuantity(items, other)
  {
    match FirstIndex(items, ForProduct(productId))
    case None =>
      if other == productId {
        CartQuantityAbsent(items, productId);
      }
    case Some(k) =>
      CartQuantityRemove(items, k, other);
      if other == productId {
        CartQuantityOfLine(items, k);
      }
  }

  /** The lines after setting a product's quantity: its first line takes `quantity`. */
  function SetLineQuantity(items: seq<CartItem>, productId: int, quantity: int): (r: seq<CartItem>)
    ensures FirstIndex(items, ForProduct(productId)).None? ==> r == items
    ensures FirstIndex(items, ForProduct(productId)).Some? ==>
              var k := FirstIndex(items, ForProduct(productId)).value;
              r == items[k := items[k].(quantity := quantity)]
  {
    match FirstIndex(items, ForProduct(productId))
    case None => items
    case Some(k) => items[k := items[k].(quantity := quantity)]
  }

  /** With one line per product, the product ends with exactly `quantity` units and every
      other product keeps its own. */
  lemma SetLineQuantities(items: seq<CartItem>, productId: int, quantity: int, other: int)
    requires OneLinePerProduct(items) && FirstIndex(items, ForProduct(productId)).Some?
    ensures CartQuantity(SetLineQuantity(items, productId, quantity), other)
            == if other == productId then quantity else CartQuantity(items, other)
  {
    var k := FirstIndex(items, ForProduct(productId)).value;
    CartQuantityUpdate(items, k, items[k].(quantity := quantity), other);
    if other == productId {
      CartQuantityOfLine(items, k);
    }
  }

  /** AddToCartAsync. The stock check runs before the cart is located or created. */
  method AddToCart(products: ProductStore, store: CartStore, userId: int, productId: int, quantity: int)
    returns (r: Result<()>)
    requires store.Valid()
    modifies store
    ensures store.Valid()
    ensures r.Success? <==> productId in products.products && products.products[productId].stock >= quantity
    ensures productId !in products.products ==> r == Failure(ProductMissing)
    ensures productId in products.products && products.products[productId].stock < quantity ==>
              r == Failure(OutOfStock)
    ensures r.Failure? ==> store.carts == old(store.carts) && store.nextId == old(store.nextId)
    ensures r.Success? ==>
              var (carts, nextId, k) := WithUserCart(old(store.carts), old(store.nextId), userId);
              store.carts == carts[k := carts[k].(items := AddLine(carts[k].items, productId, quantity,
                                                                    products.products[productId].price))]
              && store.nextId == nextId
  {
    if productId !in products.products {
      return Failure(ProductMissing);
    }
    var product := products.products[productId];
    if product.stock < quantity {
      return Failure(OutOfStock);
    }
    var k := LocateCart(store, userId);
    var cart := store.carts[k];
    store.carts := store.carts[k := cart.(items := AddLine(cart.items, productId, quantity, product.price))];
    r := Success(());
  }

  /** RemoveFromCartAsync: goes through GetCartAsync, so it too creates a missing cart. */
  method RemoveFromCart(store: CartStore, userId: int, productId: int)
    requires store.Valid()
    modifies store
    ensures store.Valid()
    ensures var (carts, nextId, k) := WithUserCart(old(store.carts), old(store.nextId), userId);
            store.carts == carts[k := carts[k].(items := RemoveLine(carts[k].items, productId))]
            && store.nextId == nextId
  {
    var k := LocateCart(store, userId);
    var cart := store.carts[k];
    store.carts := store.carts[k := cart.(items := RemoveLine(cart.items, productId))];
  }

  /** UpdateCartItemQuantityAsync. Its caller has already bound the quantity to at least 1.
      No cart, no line, no product and short stock fail in that order. */
  method UpdateCartItemQuantity(products: ProductStore, store: CartStore, userId: int, productId: int,
                                quantity: int) returns (r: Result<Cart>)
    requires store.Valid()
    requires quantity >= 1
    modifies store
    ensures store.Valid() && store.nextId == old(store.nextId)
    ensures old(store.GetByUserId(userId)).None? ==> r == Failure(CartMissing)
    ensures old(store.GetByUserId(userId)).Some?
            && FirstIndex(old(store.GetByUserId(userId)).value.items, ForProduct(productId)).None? ==>
              r == Failure(LineMissing)
    ensures old(store.GetByUserId(userId)).Some?
            && FirstIndex(old(store.GetByUserId(userId)).value.items, ForProduct(productId)).Some? ==>
              && (productId !in products.products ==> r == Failure(ProductMissingOnUpdate))
              && (productId in products.products && products.products[productId].stock < quantity ==>
                    r == Failure(OutOfStock))
    ensures r.Success? <==>
              && old(store.GetByUserId(userId)).Some?
              && FirstIndex(old(store.GetByUserId(userId)).value.items, ForProduct(productId)).Some?
              && productId in products.products && products.products[productId].stock >= quantity
    ensures r.Failure? ==> store.carts == old(store.carts)
    ensures r.Success? ==>
              && old(store.GetByUserId(userId)).Some?
              && productId in products.products && products.products[productId].stock >= quantity
              && var k := FirstIndex(old(store.carts), OwnedBy(userId)).value;
                 store.carts == old(store.carts)[k := old(store.carts)[k].(items :=
                                  SetLineQuantity(old(store.carts)[k].items, productId, quantity))]
                 && r.value == store.carts[k]
  {
    var found := FirstIndex(store.carts, OwnedBy(userId));
    if found.None? {
      return Failure(CartMissing);
    }
    var k := found.value;
    var cart := store.carts[k];
    if FirstIndex(cart.items, ForProduct(productId)).None? {
      return Failure(LineMissing);
    }
    if productId !in products.products {
      return Failure(ProductMissingOnUpdate);
    }
    if products.products[productId].stock < quantity {
      return Failure(OutOfStock);
    }
    cart := cart.(items := SetLineQuantity(cart.items, productId, quantity));
    store.carts := store.carts[k := cart];
    r := Success(cart);
  }

  /** ClearCartAsync(userId): hands the user id to the repository, which reads it as a
      cart id. */
  method ClearCart(store: CartStore, userId: int)
    requires store.Valid()
    modifies store
    ensures store.Valid() && store.nextId == old(store.nextId)
    ensures store.carts == ClearedById(old(store.carts), userId)
  {
    store.ClearCart(userId);
  }

  /** ClearCartAsync as written, on two carts: clearing for user 1 empties cart 1, which
      belongs to user 2, and leaves user 1's own cart full. */
  lemma ClearCartClearsAnotherUsersCart()
    ensures var carts := [Cart(1, 2, [CartItem(10, 1, 500)]), Cart(2, 1, [CartItem(11, 1, 700)])];
            var r := ClearedById(carts, 1);
            r[0].userId == 2 && r[0].items == [] && r[1].userId == 1 && r[1].items != []
  {
    var carts := [Cart(1, 2, [CartItem(10, 1, 500)]), Cart(2, 1, [CartItem(11, 1, 700)])];
    assert CartIdIs(1)(carts[0]);
  }

  /** The carts after clearing a user's cart: that user's cart has no items, every other
      cart is untouched. */
  function ClearedForUser(carts: seq<Cart>, userId: int): (r: seq<Cart>)
    ensures |r| == |carts|
    ensures forall i | 0 <= i < |carts| && carts[i].userId != userId :: r[i] == carts[i]
    ensures forall i | 0 <= i < |carts| :: r[i].id == carts[i].id && r[i].userId == carts[i].userId
    ensures FirstIndex(r, OwnedBy(userId)) == FirstIndex(carts, OwnedBy(userId))
    ensures FirstIndex(carts, OwnedBy(userId)).Some? ==> r[FirstIndex(carts, OwnedBy(userId)).value].items == []
  {
    match FirstIndex(carts, OwnedBy(userId))
    case None => carts
    case Some(k) =>
      var r := carts[k := carts[k].(items := [])];
      SameOwnersSameFirst(carts, r, userId);
      r
  }

  lemma {:induction false} SameOwnersSameFirst(a: seq<Cart>, b: seq<Cart>, userId: int)
    requires |a| == |b| && forall i | 0 <= i < |a| :: a[i].userId == b[i].userId
    ensures FirstIndex(a, OwnedBy(userId)) == FirstIndex(b, OwnedBy(userId))
  {
    if a != [] {
      SameOwnersSameFirst(a[1..], b[1..], userId);
    }
  }

  /** ClearCartAsync as evidently intended: the user's own cart is looked up and emptied,
      so afterwards the user's cart is empty and everyone else's is as it was. */
  method ClearUserCart(store: CartStore, userId: int)
    requires store.Valid()
    modifies store
    ensures store.Valid() && store.nextId == old(store.nextId)
    ensures store.carts == ClearedForUser(old(store.carts), userId)
    ensures old(store.GetByUserId(userId)).Some? ==>
              store.GetByUserId(userId) == Some(old(store.GetByUserId(userId)).value.(items := []))
    ensures old(store.GetByUserId(userId)).None? ==> store.carts == old(store.carts)
  {
    var k := FirstIndex(store.carts, OwnedBy(userId));
    if k.Some? {
      store.carts := store.carts[k.value := store.carts[k.value].(items := [])];
    }
    assert store.carts == ClearedForUser(old(store.carts), userId);
  }

  /** AddToCartAsync as written checks the stock against the added quantity alone, so a
      merge can hold more than the stock: 2 in the cart, 3 in stock, 2 more accepted. */
  lemma AddToCartCanExceedStock()
    ensures var items := [CartItem(7, 2, 100)];
            var stock := 3;
            stock >= 2 && AddLine(items, 7, 2, 100)[0].quantity == 4 > stock
  {
    assert ForProduct(7)([CartItem(7, 2, 100)][0]);
  }

  /** The quantity of a product the cart already holds on its first line. */
  function HeldQuantity(items: seq<CartItem>, productId: int): (r: int)
    ensures FirstIndex(items, ForProduct(productId)).None? ==> r == 0
    ensures FirstIndex(items, ForProduct(productId)).Some? ==>
              r == items[FirstIndex(items, ForProduct(productId)).value].quantity
  {
    match FirstIndex(items, ForProduct(productId))
    case None => 0
    case Some(k) => items[k].quantity
  }

  /** AddToCartAsync as evidently intended: the stock must cover what the cart will hold
      after the merge. */
  method AddToCartWithinStock(products: ProductStore, store: CartStore, userId: int, productId: int,
                              quantity: int) returns (r: Result<()>)
    requires store.Valid()
    modifies store
    ensures store.Valid()
    ensures productId !in products.products ==> r == Failure(ProductMissing)
    ensures productId in products.products ==>
              (r.Success? <==> products.products[productId].stock >= CartHeld(old(store.carts), userId, productId) + quantity)
    ensures productId in products.products
            && products.products[productId].stock < CartHeld(old(store.carts), userId, productId) + quantity ==>
              r == Failure(OutOfStock)
    ensures r.Failure? ==> store.carts == old(store.carts) && store.nextId == old(store.nextId)
    ensures r.Success? ==>
              var (carts, nextId, k) := WithUserCart(old(store.carts), old(store.nextId), userId);
              productId in products.products
              && store.carts == carts[k := carts[k].(items := AddLine(carts[k].items, productId, quantity,
                                                                    products.products[productId].price))]
              && store.nextId == nextId
    ensures r.Success? ==>
              var (carts, _, k) := WithUserCart(old(store.carts), old(store.nextId), userId);
              OneLinePerProduct(carts[k].items) ==>
                CartQuantity(store.carts[k].items, productId) <= products.products[productId].stock
  {
    if productId !in products.products {
      return Failure(ProductMissing);
    }
    var product := products.products[productId];
    var found := FirstIndex(store.carts, OwnedBy(userId));
    var held := if found.Some? then HeldQuantity(store.carts[found.value].items, productId) else 0;
    if product.stock < held + quantity {
      return Failure(OutOfStock);
    }
    LocatedCartWithinStock(store.carts, store.nextId, userId, productId, quantity, product.price, product.stock);
    var k := LocateCart(store, userId);
    var cart := store.carts[k];
    store.carts := store.carts[k := cart.(items := AddLine(cart.items, productId, quantity, product.price))];
    r := Success(());
  }

  /** The corrected check bounds what the located or created cart holds after the add. */
  lemma LocatedCartWithinStock(carts: seq<Cart>, nextId: int, userId: int, productId: int, quantity: int,
                               price: Cents, stock: int)
    requires stock >= CartHeld(carts, userId, productId) + quantity
    ensures var (after, _, k) := WithUserCart(carts, nextId, userId);
            OneLinePerProduct(after[k].items) ==>
              CartQuantity(AddLine(after[k].items, productId, quantity, price), productId) <= stock
  {
    var (after, _, k) := WithUserCart(carts, nextId, userId);
    CartHeldIsLocatedCart(carts, nextId, userId, productId);
    if OneLinePerProduct(after[k].items) {
      WithinStockBoundsCart(after[k].items, productId, quantity, price, stock);
    }
  }

  /** What the user's cart already holds of a product: the quantity on its first line,
      or 0 when the user has no cart or the cart has no such line. */
  function CartHeld(carts: seq<Cart>, userId: int, productId: int): (r: int)
    ensures FirstIndex(carts, OwnedBy(userId)).None? ==> r == 0
    ensures FirstIndex(carts, OwnedBy(userId)).Some? ==>
              r == HeldQuantity(carts[FirstIndex(carts, OwnedBy(userId)).value].items, productId)
  {
    match FirstOrDefault(carts, OwnedBy(userId))
    case None => 0
    case Some(c) => HeldQuantity(c.items, productId)
  }

  /** The held quantity the corrected check reads is that of the cart the add then
      writes, whether that cart existed or was just created. */
  lemma CartHeldIsLocatedCart(carts: seq<Cart>, nextId: int, userId: int, productId: int)
    ensures var (after, _, k) := WithUserCart(carts, nextId, userId);
            HeldQuantity(after[k].items, productId) == CartHeld(carts, userId, productId)
  {
    var (after, _, k) := WithUserCart(carts, nextId, userId);
    if FirstIndex(carts, OwnedBy(userId)).None? {
      assert after[k].items == [];
    }
  }

  /** With the corrected check, a cart with one line per product never holds more of a
      product than the stock the check read. */
  lemma WithinStockBoundsCart(items: seq<CartItem>, productId: int, quantity: int, price: Cents, stock: int)
    requires OneLinePerProduct(items)
    requires stock >= HeldQuantity(items, productId) + quantity
    ensures CartQuantity(AddLine(items, productId, quantity, price), productId) <= stock
  {
    AddLineQuantities(items, productId, quantity, price, productId);
    match FirstIndex(items, ForProduct(productId))
    case None =>
      CartQuantityAbsent(items, productId);
    case Some(k) =>
      CartQuantityOfLine(items, k);
  }
}
