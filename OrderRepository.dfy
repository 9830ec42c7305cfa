/** The order table. */
module OrderRepository {
  import opened Domain

  /** Orders keyed by primary key; `nextId` is the next identity value. */
  class OrderStore {
    var orders: map<int, Order>
    var nextId: int

    ghost predicate Valid()
      reads this
    {
      forall id | id in orders :: orders[id].id == id && id < nextId
    }

    constructor ()
      ensures Valid() && orders == map[] && nextId == 1
    {
      orders := map[];
      nextId := 1;
    }

    /** AddAsync: stores the order under the next identity value. */
    method Add(order: Order) returns (stored: Order)
      requires Valid()
      modifies this
      ensures Valid()
      ensures stored == order.(id := old(nextId))
      ensures orders == old(orders)[old(nextId) := stored] && nextId == old(nextId) + 1
    {
      stored := order.(id := nextId);
      orders := orders[nextId := stored];
      nextId := nextId + 1;
    }
  }
}
