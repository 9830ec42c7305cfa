/** The cart table: first-match lookups by owner and by id, and ClearCartAsync. */
module CartRepository {
  import opened Linq
  import opened Domain

  function OwnedBy(userId: int): Cart -> bool { (c: Cart) => c.userId == userId }
  function CartIdIs(cartId: int): Cart -> bool { (c: Cart) => c.id == cartId }

  /** Carts in insertion order; `nextId` is the next identity value. */
  class CartStore {
    var carts: seq<Cart>
    var nextId: int

    ghost predicate Valid()
      reads this
    {
      && (forall i | 0 <= i < |carts| :: carts[i].id < nextId)
      && (forall i, j | 0 <= i < j < |carts| :: carts[i].id != carts[j].id)
    }

    constructor ()
      ensures Valid() && carts == [] && nextId == 1
    {
      carts := [];
      nextId := 1;
    }

    /** GetByUserIdAsync: the first cart whose UserId matches, or None exactly when the
        user has none. */
    function GetByUserId(userId: int): (r: Option<Cart>)
      reads this
      ensures r.None? <==> forall i | 0 <= i < |carts| :: carts[i].userId != userId
      ensures r.Some? ==> r.value in carts && r.value.userId == userId
      ensures r.Some? ==> r.value == carts[FirstIndex(carts, OwnedBy(userId)).value]
    {
      FirstOrDefault(carts, OwnedBy(userId))
    }

    /** GetCartWithItemsAsync: the cart whose Id matches, or None exactly when there is none. */
    function GetCartWithItems(cartId: int): (r: Option<Cart>)
      reads this
      ensures r.None? <==> forall i | 0 <= i < |carts| :: carts[i].id != cartId
      ensures r.Some? ==> r.value in carts && r.value.id == cartId
    {
      FirstOrDefault(carts, CartIdIs(cartId))
    }

    /** ClearCartAsync(cartId): empties the item list of the cart with that Id. */
    method ClearCart(cartId: int)
      requires Valid()
      modifies this
      ensures Valid() && nextId == old(nextId)
      ensures carts == ClearedById(old(carts), cartId)
    {
      var k := FirstIndex(carts, CartIdIs(cartId));
      if k.Some? {
        carts := carts[k.value := carts[k.value].(items := [])];
      }
    }
  }

  /** The carts after ClearCartAsync(cartId): the first cart with that Id has no items,
      every other cart is untouched, and nothing changes when no cart has that Id. */
  function ClearedById(carts: seq<Cart>, cartId: int): (r: seq<Cart>)
    ensures |r| == |carts|
    ensures forall i | 0 <= i < |carts| && carts[i].id != cartId :: r[i] == carts[i]
    ensures forall i | 0 <= i < |carts| :: r[i] == carts[i] || r[i] == carts[i].(items := [])
    ensures forall i | 0 <= i < |carts| ::
              FirstIndex(carts, CartIdIs(cartId)) == Some(i) ==> r[i].items == []
    ensures FirstIndex(carts, CartIdIs(cartId)).None? ==> r == carts
  {
    match FirstIndex(carts, CartIdIs(cartId))
    case None => carts
    case Some(k) => carts[k := carts[k].(items := [])]
  }
}
