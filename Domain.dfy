/** The entities, the order status enumeration and the failure values shared by the
    repositories and services. Money is held in integer cents: every price and amount
    column is decimal(18,2). */
module Domain {
  import opened Linq

  type Cents = int

  /** Column limits of the database mapping. */
  const OrderNumberMaxLength: nat := 20
  const ProductNameMaxLength: nat := 200
  const EmailMaxLength: nat := 100
  const UsernameMaxLength: nat := 50
  const RoleMaxLength: nat := 20

  /** The .NET exception types the services throw, as failure kinds. */
  datatype ErrorKind =
    | ArgumentError          // ArgumentException
    | InvalidOperation       // InvalidOperationException
    | Unauthorized           // UnauthorizedAccessException
    | FormatError            // FormatException from int.Parse / decimal.Parse
    | NullReference          // NullReferenceException

  datatype Error = Error(kind: ErrorKind, message: string)

  datatype Result<T> = Success(value: T) | Failure(error: Error)

  /** A UTC instant, reduced to what the model reads: the calendar date. */
  datatype DateTime = DateTime(year: int, month: int, day: int, secondOfDay: int)

  predicate ValidDateTime(t: DateTime)
  {
    1 <= t.year <= 9999 && 1 <= t.month <= 12 && 1 <= t.day <= 31 && 0 <= t.secondOfDay < 86400
  }

  datatype OrderStatus = Pending | Processing | Shipped | Delivered | Cancelled

  datatype User = User(id: int, email: string, username: string, password: string, role: string)

  datatype Product = Product(id: int, name: string, price: Cents, stock: int,
                             description: string, imagePath: string)

  datatype OrderItem = OrderItem(productId: int, quantity: int, unitPrice: Cents)

  datatype Order = Order(id: int, orderNumber: string, userId: int, status: OrderStatus,
                         totalAmount: Cents, createdAt: DateTime, items: seq<OrderItem>)

  datatype Review = Review(id: int, userId: int, orderId: int, productId: int, rating: int,
                           comment: string, createdAt: DateTime, updatedAt: Option<DateTime>)

  const QuantityNotPositive := Error(ArgumentError, "Quantity must be greater than 0")

  /** A cart line: product, quantity and the price seen when it was added. */
  datatype CartItem = CartItem(productId: int, quantity: int, price: Cents)
  {
    /** The validating factory: a line needs a positive quantity. */
    static function Create(productId: int, quantity: int, price: Cents): (r: Result<CartItem>)
      ensures r.Success? <==> quantity > 0
      ensures r.Success? ==> r.value.productId == productId && r.value.quantity == quantity
                             && r.value.price == price
      ensures r.Failure? ==> r.error == QuantityNotPositive
    {
      if quantity <= 0 then Failure(QuantityNotPositive)
      else Success(CartItem(productId, quantity, price))
    }

    /** Sets the quantity, refusing one that is not positive. */
    function UpdateQuantity(quantity: int): (r: Result<CartItem>)
      ensures r.Success? <==> quantity > 0
      ensures r.Success? ==> r.value.quantity == quantity && r.value.productId == productId
                             && r.value.price == price
      ensures r.Failure? ==> r.error == QuantityNotPositive
    {
      if quantity <= 0 then Failure(QuantityNotPositive) else Success(this.(quantity := quantity))
    }
  }

  /** The line after a series of UpdateQuantity calls, each refused call leaving it as it was. */
  function UpdatedQuantities(item: CartItem, quantities: seq<int>): CartItem
    decreases |quantities|
  {
    if quantities == [] then item
    else
      var next := item.UpdateQuantity(quantities[0]);
      UpdatedQuantities(if next.Success? then next.value else item, quantities[1..])
  }

  /** A line made by Create keeps a positive quantity, its product and its price through
      any series of UpdateQuantity calls. */
  lemma {:induction false} CartItemQuantityStaysPositive(productId: int, quantity: int, price: Cents,
                                                          quantities: seq<int>)
    requires CartItem.Create(productId, quantity, price).Success?
    ensures var item := UpdatedQuantities(CartItem.Create(productId, quantity, price).value, quantities);
            item.quantity > 0 && item.productId == productId && item.price == price
  {
    UpdatesKeepLine(CartItem.Create(productId, quantity, price).value, quantities);
  }

  lemma {:induction false} UpdatesKeepLine(item: CartItem, quantities: seq<int>)
    requires item.quantity > 0
    ensures var r := UpdatedQuantities(item, quantities);
            r.quantity > 0 && r.productId == item.productId && r.price == item.price
    decreases |quantities|
  {
    if quantities != [] {
      var next := item.UpdateQuantity(quantities[0]);
      UpdatesKeepLine(if next.Success? then next.value else item, quantities[1..]);
    }
  }

  datatype Cart = Cart(id: int, userId: int, items: seq<CartItem>)
}
