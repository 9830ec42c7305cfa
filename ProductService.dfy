/** The catalog rules: field validation on create and update, deletion, the in-stock
    query and signed stock adjustment. */
module ProductService {
  import opened Linq
  import opened Domain
  import opened Text
  import opened ProductRepository

  function ProductNotFound(id: int): Error
  {
    Error(ArgumentError, "Product with ID " + IntToString(id) + " not found")
  }

  const NameRequired := Error(ArgumentError, "Product name is required")
  const PriceNotPositive := Error(ArgumentError, "Product price must be greater than zero")
  const StockNegative := Error(ArgumentError, "Product stock cannot be negative")
  const StockTooLow := Error(InvalidOperation, "Cannot remove more items than available in stock")

  /** What create and update demand of a product's fields. */
  predicate WellFormed(p: Product)
  {
    !IsBlank(p.name) && p.price > 0 && p.stock >= 0
  }

  predicate AllWellFormed(ps: map<int, Product>)
  {
    forall id | id in ps :: WellFormed(ps[id])
  }

  /** The three field checks of create and update, in the order they run: the first that
      fails names the error, and none fails exactly for a well-formed product. */
  function FieldError(p: Product): (r: Option<Error>)
    ensures r.None? <==> WellFormed(p)
    ensures IsBlank(p.name) ==> r == Some(NameRequired)
    ensures !IsBlank(p.name) && p.price <= 0 ==> r == Some(PriceNotPositive)
    ensures !IsBlank(p.name) && p.price > 0 && p.stock < 0 ==> r == Some(StockNegative)
  {
    if IsBlank(p.name) then Some(NameRequired)
    else if p.price <= 0 then Some(PriceNotPositive)
    else if p.stock < 0 then Some(StockNegative)
    else None
  }

  /** CreateProductAsync: validates, then inserts under the next identity value. */
  method CreateProduct(repo: ProductStore, product: Product) returns (r: Result<Product>)
    requires repo.Valid()
    modifies repo
    ensures repo.Valid()
    ensures FieldError(product).Some? ==>
              r == Failure(FieldError(product).value)
              && repo.products == old(repo.products) && repo.nextId == old(repo.nextId)
    ensures FieldError(product).None? ==>
              r == Success(product.(id := old(repo.nextId)))
              && repo.products == old(repo.products)[old(repo.nextId) := r.value]
              && repo.nextId == old(repo.nextId) + 1
    ensures r.Success? ==> WellFormed(r.value)
    ensures AllWellFormed(old(repo.products)) ==> AllWellFormed(repo.products)
  {
    var err := FieldError(product);
    if err.Some? {
      return Failure(err.value);
    }
    var stored := product.(id := repo.nextId);
    repo.products := repo.products[repo.nextId := stored];
    repo.nextId := repo.nextId + 1;
    r := Success(stored);
  }

  /** The product after UpdateProductAsync copies the five editable fields onto it. */
  function Overwritten(existing: Product, from: Product): (r: Product)
    ensures r.id == existing.id
    ensures r.name == from.name && r.description == from.description && r.price == from.price
            && r.stock == from.stock && r.imagePath == from.imagePath
  {
    existing.(name := from.name, description := from.description, price := from.price,
              stock := from.stock, imagePath := from.imagePath)
  }

  /** UpdateProductAsync: an unknown id fails first, then the field checks; only when all
      pass are the fields written. */
  method UpdateProduct(repo: ProductStore, id: int, product: Product) returns (r: Result<Product>)
    requires repo.Valid()
    modifies repo
    ensures repo.Valid() && repo.nextId == old(repo.nextId)
    ensures id !in old(repo.products) ==>
              r == Failure(ProductNotFound(id)) && repo.products == old(repo.products)
    ensures id in old(repo.products) && FieldError(product).Some? ==>
              r == Failure(FieldError(product).value) && repo.products == old(repo.products)
    ensures id in old(repo.products) && FieldError(product).None? ==>
              r == Success(Overwritten(old(repo.products)[id], product))
              && repo.products == old(repo.products)[id := r.value]
    ensures r.Success? ==> r.value.id == id && WellFormed(r.value)
    ensures AllWellFormed(old(repo.products)) ==> AllWellFormed(repo.products)
  {
    if id !in repo.products {
      return Failure(ProductNotFound(id));
    }
    var err := FieldError(product);
    if err.Some? {
      return Failure(err.value);
    }
    var updated := Overwritten(repo.products[id], product);
    repo.products := repo.products[id := updated];
    r := Success(updated);
  }

  /** DeleteProductAsync: an unknown id fails; otherwise exactly that product goes. */
  method DeleteProduct(repo: ProductStore, id: int) returns (r: Result<()>)
    requires repo.Valid()
    modifies repo
    ensures repo.Valid() && repo.nextId == old(repo.nextId)
    ensures r.Success? <==> id in old(repo.products)
    ensures r.Failure? ==> r.error == ProductNotFound(id) && repo.products == old(repo.products)
    ensures r.Success? ==> repo.products == old(repo.products) - {id}
    ensures AllWellFormed(old(repo.products)) ==> AllWellFormed(repo.products)
  {
    if id !in repo.products {
      return Failure(ProductNotFound(id));
    }
    repo.products := repo.products - {id};
    r := Success(());
  }

  /** IsProductInStockAsync: true exactly when the stock covers `quantity`. */
  function IsProductInStock(repo: ProductStore, id: int, quantity: int): (r: Result<bool>)
    reads repo
    ensures r.Failure? <==> id !in repo.products
    ensures r.Failure? ==> r.error == ProductNotFound(id)
    ensures r.Success? ==> (r.value <==> repo.products[id].stock >= quantity)
  {
    if id !in repo.products then Failure(ProductNotFound(id))
    else Success(repo.products[id].stock >= quantity)
  }

  /** The stock adjustment of UpdateProductStockAsync on one product: a negative delta
      larger than the stock is refused, anything else is added. */
  function AdjustedStock(p: Product, quantity: int): (r: Result<Product>)
    ensures r.Failure? <==> quantity < 0 && -quantity > p.stock
    ensures r.Failure? ==> r.error == StockTooLow
    ensures r.Success? ==> r.value == p.(stock := p.stock + quantity)
    ensures r.Success? && p.stock >= 0 ==> r.value.stock >= 0
  {
    if quantity < 0 && -quantity > p.stock then Failure(StockTooLow)
    else Success(p.(stock := p.stock + quantity))
  }

  /** Adding q units and then removing them again restores the product. */
  lemma AdjustRoundTrip(p: Product, q: int)
    requires q >= 0 && p.stock >= 0
    ensures AdjustedStock(p, q).Success?
    ensures AdjustedStock(AdjustedStock(p, q).value, -q) == Success(p)
  {
  }

  /** UpdateProductStockAsync. */
  method UpdateProductStock(repo: ProductStore, id: int, quantity: int) returns (r: Result<Product>)
    requires repo.Valid()
    modifies repo
    ensures repo.Valid() && repo.nextId == old(repo.nextId)
    ensures id !in old(repo.products) ==>
              r == Failure(ProductNotFound(id)) && repo.products == old(repo.products)
    ensures id in old(repo.products) ==> r == AdjustedStock(old(repo.products)[id], quantity)
    ensures id in old(repo.products) && r.Success? ==>
              repo.products == old(repo.products)[id := r.value]
    ensures r.Failure? ==> repo.products == old(repo.products)
    ensures AllWellFormed(old(repo.products)) ==> AllWellFormed(repo.products)
  {
    if id !in repo.products {
      return Failure(ProductNotFound(id));
    }
    r := AdjustedStock(repo.products[id], quantity);
    if r.Success? {
      repo.products := repo.products[id := r.value];
    }
  }
}
