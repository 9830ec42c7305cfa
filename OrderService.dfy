/** Order placement: the user check, the per-line stock check with price snapshot, the
    total, the stock decrements, and the status write. */
module OrderService {
  import opened Linq
  import opened Domain
  import opened Text
  import opened ProductRepository
  import opened OrderRepository
  import opened UserRepository

  const UserNotFound := Error(ArgumentError, "User not found")
  const OrderNotFound := Error(ArgumentError, "Order not found")
  const NullProduct := Error(NullReference, "Object reference not set to an instance of an object.")

  /** Why the check loop refuses a line, if it does: a missing product, then short stock. */
  function LineError(item: OrderItem, ps: map<int, Product>): Option<Error>
  {
    if item.productId !in ps then
      Some(Error(ArgumentError, "Product with ID " + IntToString(item.productId) + " not found"))
    else if ps[item.productId].stock < item.quantity then
      Some(Error(InvalidOperation, "Insufficient stock for product " + ps[item.productId].name))
    else None
  }

  /** Every line passes the check loop. */
  predicate Orderable(items: seq<OrderItem>, ps: map<int, Product>)
  {
    forall i | 0 <= i < |items| :: LineError(items[i], ps).None?
  }

  /** The check loop stopped at line k with `err`: all earlier lines passed and had their
      price snapshotted in place, line k and the later ones are as they were. */
  ghost predicate RefusedAt(before: seq<OrderItem>, ps: map<int, Product>, err: Error,
                            after: seq<OrderItem>, k: int)
  {
    && 0 <= k < |before| && |after| == |before|
    && LineError(before[k], ps) == Some(err)
    && (forall j | 0 <= j < k :: LineError(before[j], ps).None? && after[j] == Snapshot(before[j], ps))
    && (forall j | k <= j < |before| :: after[j] == before[j])
  }

  function PriceOf(ps: map<int, Product>, id: int): Cents
  {
    if id in ps then ps[id].price else 0
  }

  /** A line with its unit price taken from the catalog. */
  function Snapshot(item: OrderItem, ps: map<int, Product>): OrderItem
  {
    item.(unitPrice := PriceOf(ps, item.productId))
  }

  function Snapshotted(items: seq<OrderItem>, ps: map<int, Product>): seq<OrderItem>
  {
    seq(|items|, i requires 0 <= i < |items| => Snapshot(items[i], ps))
  }

  /** Σ Price × Quantity over the lines, at the catalog's current prices. */
  function CatalogTotal(items: seq<OrderItem>, ps: map<int, Product>): Cents
  {
    if items == [] then 0
    else CatalogTotal(items[..|items| - 1], ps)
         + PriceOf(ps, items[|items| - 1].productId) * items[|items| - 1].quantity
  }

  /** Σ UnitPrice × Quantity over the lines. */
  function LinesTotal(items: seq<OrderItem>): Cents
  {
    if items == [] then 0
    else LinesTotal(items[..|items| - 1]) + items[|items| - 1].unitPrice * items[|items| - 1].quantity
  }

  /** Once every line carries its catalog price, re-reading the catalog gives the same
      total as the snapshotted prices. */
  lemma {:induction false} SnapshotTotal(items: seq<OrderItem>, ps: map<int, Product>)
    requires forall i | 0 <= i < |items| :: items[i].unitPrice == PriceOf(ps, items[i].productId)
    ensures CatalogTotal(items, ps) == LinesTotal(items)
  {
    if items != [] {
      SnapshotTotal(items[..|items| - 1], ps);
    }
  }

  /** Σ of the quantities the lines order of one product. */
  function QuantityOf(items: seq<OrderItem>, productId: int): int
  {
    if items == [] then 0
    else QuantityOf(items[..|items| - 1], productId)
         + (if items[|items| - 1].productId == productId then items[|items| - 1].quantity else 0)
  }

  /** The product table after the decrement loop has run UpdateStockAsync for each line. */
  function DecrementAll(ps: map<int, Product>, items: seq<OrderItem>): map<int, Product>
  {
    if items == [] then ps
    else StockDecremented(DecrementAll(ps, items[..|items| - 1]),
                          items[|items| - 1].productId, items[|items| - 1].quantity)
  }

  /** The decrements change nothing but stock, and each product loses the summed
      quantity of its lines. */
  lemma {:induction false} DecrementAllStock(ps: map<int, Product>, items: seq<OrderItem>)
    ensures DecrementAll(ps, items).Keys == ps.Keys
    ensures forall id | id in ps ::
              DecrementAll(ps, items)[id] == ps[id].(stock := ps[id].stock - QuantityOf(items, id))
  {
    if items != [] {
      DecrementAllStock(ps, items[..|items| - 1]);
    }
  }

  predicate DistinctProducts(items: seq<OrderItem>)
  {
    forall i, j | 0 <= i < j < |items| :: items[i].productId != items[j].productId
  }

  /** With distinct product ids, a product's summed quantity is that of its one line. */
  lemma {:induction false} DistinctQuantityOf(items: seq<OrderItem>, k: int)
    requires DistinctProducts(items) && 0 <= k < |items|
    ensures QuantityOf(items, items[k].productId) == items[k].quantity
  {
    var init := items[..|items| - 1];
    if k < |items| - 1 {
      DistinctQuantityOf(init, k);
    } else {
      AbsentQuantityOf(init, items[k].productId);
    }
  }

  lemma {:induction false} AbsentQuantityOf(items: seq<OrderItem>, id: int)
    requires forall i | 0 <= i < |items| :: items[i].productId != id
    ensures QuantityOf(items, id) == 0
  {
    if items != [] {
      AbsentQuantityOf(items[..|items| - 1], id);
    }
  }

  /** When the lines name distinct products and all pass the stock check, no stock that
      was non-negative goes below zero. */
  lemma OrderKeepsStockNonNegative(ps: map<int, Product>, items: seq<OrderItem>)
    requires Orderable(items, ps) && DistinctProducts(items)
    requires forall id | id in ps :: ps[id].stock >= 0
    ensures forall id | id in DecrementAll(ps, items) :: DecrementAll(ps, items)[id].stock >= 0
  {
    DecrementAllStock(ps, items);
    forall id | id in ps
      ensures ps[id].stock - QuantityOf(items, id) >= 0
    {
      if k :| 0 <= k < |items| && items[k].productId == id {
        DistinctQuantityOf(items, k);
        assert LineError(items[k], ps).None?;
      } else {
        AbsentQuantityOf(items, id);
      }
    }
  }

  /** Two lines for the same product are checked against the same undecremented stock,
      so one unit in stock sells twice. */
  lemma DuplicateLinesOversell()
    ensures var ps := map[1 := Product(1, "Lamp", 1000, 1, "", "")];
            var items := [OrderItem(1, 1, 0), OrderItem(1, 1, 0)];
            Orderable(items, ps) && 1 in DecrementAll(ps, items) && DecrementAll(ps, items)[1].stock == -1
  {
    var ps := map[1 := Product(1, "Lamp", 1000, 1, "", "")];
    var items := [OrderItem(1, 1, 0), OrderItem(1, 1, 0)];
    DecrementAllStock(ps, items);
    assert items[..1] == [items[0]];
    assert QuantityOf(items, 1) == 2;
  }

  /** The check the loop evidently intends: each line passes, and each product's stock
      covers the summed quantity of all its lines, not just one line's. */
  predicate OrderableInTotal(items: seq<OrderItem>, ps: map<int, Product>)
  {
    && Orderable(items, ps)
    && forall i | 0 <= i < |items| ::
         items[i].productId in ps && QuantityOf(items, items[i].productId) <= ps[items[i].productId].stock
  }

  /** Under the summed check, no stock that was non-negative goes below zero, whether or
      not lines repeat a product. */
  lemma OrderableInTotalKeepsStock(ps: map<int, Product>, items: seq<OrderItem>)
    requires OrderableInTotal(items, ps)
    requires forall id | id in ps :: ps[id].stock >= 0
    ensures forall id | id in DecrementAll(ps, items) :: DecrementAll(ps, items)[id].stock >= 0
  {
    DecrementAllStock(ps, items);
    forall id | id in ps
      ensures ps[id].stock - QuantityOf(items, id) >= 0
    {
      if k :| 0 <= k < |items| && items[k].productId == id {
      } else {
        AbsentQuantityOf(items, id);
      }
    }
  }

  /** On lines with distinct products the summed check accepts what the source accepts,
      and it refuses the two-line order that oversells. */
  lemma OrderableInTotalAgrees(ps: map<int, Product>, items: seq<OrderItem>)
    requires DistinctProducts(items)
    ensures OrderableInTotal(items, ps) <==> Orderable(items, ps)
  {
    if Orderable(items, ps) {
      forall i | 0 <= i < |items|
        ensures items[i].productId in ps && QuantityOf(items, items[i].productId) <= ps[items[i].productId].stock
      {
        assert LineError(items[i], ps).None?;
        DistinctQuantityOf(items, i);
      }
    }
  }

  lemma OrderableInTotalRefusesOversell()
    ensures var ps := map[1 := Product(1, "Lamp", 1000, 1, "", "")];
            !OrderableInTotal([OrderItem(1, 1, 0), OrderItem(1, 1, 0)], ps)
  {
    var items := [OrderItem(1, 1, 0), OrderItem(1, 1, 0)];
    assert items[..1] == [items[0]];
    assert QuantityOf(items, 1) == 2;
  }

  /** The order number: "ORD-", the UTC date as yyyyMMdd, "-", and the first eight
      characters of a GUID's text. */
  function GenerateOrderNumber(now: DateTime, guid: string): (r: string)
    requires ValidDateTime(now) && |guid| == 36
    ensures |r| == 21
  {
    "ORD-" + Digits(now.year, 4) + Digits(now.month, 2) + Digits(now.day, 2) + "-" + guid[..8]
  }

  datatype OrderNumberParts = OrderNumberParts(year: nat, month: nat, day: nat, fragment: string)

  /** Reads an order number back into its date and fragment. */
  function ParseOrderNumber(s: string): Option<OrderNumberParts>
  {
    if |s| == 21 && s[..4] == "ORD-" && s[12] == '-' && forall i | 4 <= i < 12 :: IsDigit(s[i]) then
      Some(OrderNumberParts(DigitsValue(s[4..8]), DigitsValue(s[8..10]), DigitsValue(s[10..12]), s[13..]))
    else None
  }

  /** The order number determines the date and the GUID fragment it was made from. */
  lemma OrderNumberRoundTrip(now: DateTime, guid: string)
    requires ValidDateTime(now) && |guid| == 36
    ensures ParseOrderNumber(GenerateOrderNumber(now, guid))
            == Some(OrderNumberParts(now.year, now.month, now.day, guid[..8]))
  {
    var s := GenerateOrderNumber(now, guid);
    assert s[4..8] == Digits(now.year, 4);
    assert s[8..10] == Digits(now.month, 2);
    assert s[10..12] == Digits(now.day, 2);
    assert s[13..] == guid[..8];
    DigitsRoundTrip(now.year, 4);
    DigitsRoundTrip(now.month, 2);
    DigitsRoundTrip(now.day, 2);
  }

  /** Every generated order number is longer than the 20 characters the OrderNumber
      column allows. */
  lemma OrderNumberExceedsColumn(now: DateTime, guid: string)
    requires ValidDateTime(now) && |guid| == 36
    ensures |GenerateOrderNumber(now, guid)| > OrderNumberMaxLength
  {
  }

  /** CalculateOrderTotalAsync: re-reads each line's product and sums price × quantity;
      a missing product is dereferenced as null. */
  method CalculateOrderTotal(products: ProductStore, items: seq<OrderItem>) returns (r: Result<Cents>)
    ensures r.Success? <==> forall i | 0 <= i < |items| :: items[i].productId in products.products
    ensures r.Failure? ==> r.error == NullProduct
    ensures r.Success? ==> r.value == CatalogTotal(items, products.products)
  {
    var total := 0;
    var i := 0;
    while i < |items|
      invariant 0 <= i <= |items|
      invariant forall j | 0 <= j < i :: items[j].productId in products.products
      invariant total == CatalogTotal(items[..i], products.products)
    {
      if items[i].productId !in products.products {
        return Failure(NullProduct);
      }
      var product := products.products[items[i].productId];
      total := total + product.price * items[i].quantity;
      assert items[..i + 1][..i] == items[..i];
      i := i + 1;
    }
    assert items[..i] == items;
    r := Success(total);
  }

  /** CreateOrderAsync. The items are the caller's list, whose unit prices the check loop
      writes in place. */
  method CreateOrder(users: UserStore, products: ProductStore, orders: OrderStore, userId: int,
                     items: array<OrderItem>, now: DateTime, guid: string) returns (r: Result<Order>)
    requires products.Valid() && orders.Valid()
    requires ValidDateTime(now) && |guid| == 36
    modifies products, orders, items
    ensures products.Valid() && orders.Valid()
    ensures r.Success? <==> users.GetById(userId).Some? && Orderable(old(items[..]), old(products.products))
    ensures users.GetById(userId).None? ==>
              r == Failure(UserNotFound) && unchanged(products, orders, items)
    ensures users.GetById(userId).Some? && !Orderable(old(items[..]), old(products.products)) ==>
              && r.Failure? && unchanged(products, orders)
              && exists k :: RefusedAt(old(items[..]), old(products.products), r.error, items[..], k)
    ensures r.Success? ==>
              && items[..] == Snapshotted(old(items[..]), old(products.products))
              && r.value == Order(old(orders.nextId), GenerateOrderNumber(now, guid), userId, Pending,
                                  LinesTotal(items[..]), now, items[..])
              && orders.orders == old(orders.orders)[old(orders.nextId) := r.value]
              && orders.nextId == old(orders.nextId) + 1
              && products.products == DecrementAll(old(products.products), items[..])
              && products.nextId == old(products.nextId)
  {
    if users.GetById(userId).None? {
      return Failure(UserNotFound);
    }
    ghost var ps := products.products;
    ghost var before := items[..];
    var refused := CheckLines(products, items);
    if refused.Some? {
      return Failure(refused.value);
    }
    ghost var after := items[..];
    assert Orderable(before, ps) && after == Snapshotted(before, ps);

    var orderNumber := GenerateOrderNumber(now, guid);
    var total := CalculateOrderTotal(products, items[..]);
    assert forall j | 0 <= j < |after| :: after[j].productId == before[j].productId;
    SnapshotTotal(after, ps);
    var order := Order(0, orderNumber, userId, Pending, total.value, now, items[..]);

    assert total.value == LinesTotal(after);
    DecrementLines(products, items);
    assert items[..] == after;

    order := orders.Add(order);
    r := Success(order);
  }

  /** The check loop of CreateOrderAsync: each line is checked for a product and enough
      stock, then gets the product's price written into it; the first failing line stops
      the loop. */
  method CheckLines(products: ProductStore, items: array<OrderItem>) returns (refused: Option<Error>)
    modifies items
    ensures refused.None? <==> Orderable(old(items[..]), products.products)
    ensures refused.None? ==> items[..] == Snapshotted(old(items[..]), products.products)
    ensures refused.Some? ==> exists k :: RefusedAt(old(items[..]), products.products, refused.value, items[..], k)
  {
    ghost var ps := products.products;
    ghost var before := items[..];
    var i := 0;
    while i < items.Length
      invariant 0 <= i <= items.Length
      invariant forall j | 0 <= j < i :: LineError(before[j], ps).None? && items[j] == Snapshot(before[j], ps)
      invariant forall j | i <= j < items.Length :: items[j] == before[j]
    {
      var item := items[i];
      if item.productId !in products.products {
        refused := Some(Error(ArgumentError, "Product with ID " + IntToString(item.productId) + " not found"));
        assert RefusedAt(before, ps, refused.value, items[..], i);
        return;
      }
      var product := products.products[item.productId];
      if product.stock < item.quantity {
        refused := Some(Error(InvalidOperation, "Insufficient stock for product " + product.name));
        assert RefusedAt(before, ps, refused.value, items[..], i);
        return;
      }
      items[i] := item.(unitPrice := product.price);
      i := i + 1;
    }
    assert items[..] == Snapshotted(before, ps);
    refused := None;
  }

  /** The decrement loop of CreateOrderAsync: UpdateStockAsync once per line, in order. */
  method DecrementLines(products: ProductStore, items: array<OrderItem>)
    requires products.Valid()
    modifies products
    ensures products.Valid() && products.nextId == old(products.nextId)
    ensures products.products == DecrementAll(old(products.products), items[..])
  {
    var i := 0;
    while i < items.Length
      invariant 0 <= i <= items.Length
      invariant products.Valid() && products.nextId == old(products.nextId)
      invariant products.products == DecrementAll(old(products.products), items[..i])
    {
      products.UpdateStock(items[i].productId, items[i].quantity);
      assert items[..i + 1][..i] == items[..i];
      i := i + 1;
    }
    assert items[..i] == items[..];
  }

  /** UpdateOrderStatusAsync: a plain write of the status field; it touches no other table,
      so no review is looked at. */
  method UpdateOrderStatus(orders: OrderStore, orderId: int, newStatus: OrderStatus) returns (r: Result<Order>)
    requires orders.Valid()
    modifies orders
    ensures orders.Valid() && orders.nextId == old(orders.nextId)
    ensures orderId !in old(orders.orders) ==> r == Failure(OrderNotFound) && orders.orders == old(orders.orders)
    ensures orderId in old(orders.orders) ==>
              r == Success(old(orders.orders)[orderId].(status := newStatus))
              && orders.orders == old(orders.orders)[orderId := r.value]
  {
    if orderId !in orders.orders {
      return Failure(OrderNotFound);
    }
    var order := orders.orders[orderId].(status := newStatus);
    orders.orders := orders.orders[orderId := order];
    r := Success(order);
  }
}
