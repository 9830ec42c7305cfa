/** The product table and its one custom write, UpdateStockAsync. */
module ProductRepository {
  import opened Domain

  /** Products keyed by primary key; `nextId` is the next identity value the table hands out. */
  class ProductStore {
    var products: map<int, Product>
    var nextId: int

    ghost predicate Valid()
      reads this
    {
      forall id | id in products :: products[id].id == id && id < nextId
    }

    constructor ()
      ensures Valid() && products == map[] && nextId == 1
    {
      products := map[];
      nextId := 1;
    }

    /** UpdateStockAsync: subtracts `quantity` from the stock of the product, with no lower
        bound; an unknown product id is a silent no-op. */
    method UpdateStock(productId: int, quantity: int)
      requires Valid()
      modifies this
      ensures Valid() && nextId == old(nextId)
      ensures products == StockDecremented(old(products), productId, quantity)
    {
      if productId in products {
        var p := products[productId];
        products := products[productId := p.(stock := p.stock - quantity)];
      }
    }
  }

  /** The table after UpdateStockAsync(productId, quantity): the same keys, every other
      product untouched, and of that product only the stock changed. */
  function StockDecremented(ps: map<int, Product>, productId: int, quantity: int): (r: map<int, Product>)
    ensures r.Keys == ps.Keys
    ensures forall id | id in ps && id != productId :: r[id] == ps[id]
    ensures productId in ps ==> r[productId] == ps[productId].(stock := ps[productId].stock - quantity)
    ensures productId !in ps ==> r == ps
  {
    if productId in ps then ps[productId := ps[productId].(stock := ps[productId].stock - quantity)]
    else ps
  }

  /** Nothing stops the stock from going below zero. */
  lemma StockDecrementCanGoNegative(ps: map<int, Product>, productId: int, quantity: int)
    requires productId in ps && quantity > ps[productId].stock
    ensures StockDecremented(ps, productId, quantity)[productId].stock < 0
  {
  }
}
