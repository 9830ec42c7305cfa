/** The catalog listing (search and price filters, a sort chosen by name, paging) and the
    controller's own product update, which parses the form fields and writes them with no
    range checks. */
module ProductsController {
  import opened Linq
  import opened Domain
  import opened Text
  import opened ProductRepository
  import opened ProductService

  /** The query-string parameters of GET products. A missing search is the empty string. */
  datatype ProductQuery = ProductQuery(search: string, minPrice: Option<Cents>, maxPrice: Option<Cents>,
                                       sortBy: string, sortOrder: string, page: int, limit: int, getAll: bool)

  /** The response body: the items, and the filtered count unless getAll was asked for. */
  datatype ProductListing = ProductListing(items: seq<Product>, totalCount: Option<int>)

  datatype SortField = ByName | ByPrice
  datatype Ordering = Ordering(field: SortField, ascending: bool)

  function MatchesSearch(search: string): Product -> bool
  {
    (p: Product) => Contains(p.name, search) || Contains(p.description, search)
  }
  function AtLeast(minPrice: Cents): Product -> bool { (p: Product) => p.price >= minPrice }
  function AtMost(maxPrice: Cents): Product -> bool { (p: Product) => p.price <= maxPrice }

  /** A product passes every filter the query sets. */
  predicate Matches(q: ProductQuery, p: Product)
  {
    && (q.search == "" || Contains(p.name, q.search) || Contains(p.description, q.search))
    && (q.minPrice.None? || p.price >= q.minPrice.value)
    && (q.maxPrice.None? || p.price <= q.maxPrice.value)
  }

  /** The three filters, each applied only when its parameter is given. */
  function Filtered(rows: seq<Product>, q: ProductQuery): (r: seq<Product>)
    ensures forall j | 0 <= j < |r| :: r[j] in rows && Matches(q, r[j])
    ensures forall j | 0 <= j < |rows| && Matches(q, rows[j]) :: rows[j] in r
  {
    var bySearch := if q.search == "" then rows else Where(rows, MatchesSearch(q.search));
    var byMin := if q.minPrice.None? then bySearch else Where(bySearch, AtLeast(q.minPrice.value));
    if q.maxPrice.None? then byMin else Where(byMin, AtMost(q.maxPrice.value))
  }

  /** The sort the switch picks: sortBy and sortOrder are lower-cased, "name" and "price"
      choose the key, only "asc" is ascending, and any other key means name ascending. */
  function SortSpec(sortBy: string, sortOrder: string): Ordering
  {
    if ToLower(sortBy) == "name" then Ordering(ByName, ToLower(sortOrder) == "asc")
    else if ToLower(sortBy) == "price" then Ordering(ByPrice, ToLower(sortOrder) == "asc")
    else Ordering(ByName, true)
  }

  /** The choice ignores case, falls back to name ascending, and reads descending from
      every sortOrder but "asc". */
  lemma SortSpecProperties(sortBy: string, sortOrder: string)
    ensures SortSpec(sortBy, sortOrder) == SortSpec(ToLower(sortBy), ToLower(sortOrder))
    ensures ToLower(sortBy) != "name" && ToLower(sortBy) != "price" ==> SortSpec(sortBy, sortOrder) == Ordering(ByName, true)
    ensures (ToLower(sortBy) == "name" || ToLower(sortBy) == "price") ==>
              (SortSpec(sortBy, sortOrder).ascending <==> ToLower(sortOrder) == "asc")
    ensures SortSpec(sortBy, sortOrder).field == ByPrice <==> ToLower(sortBy) == "price"
  {
    ToLowerIdempotent(sortBy);
    ToLowerIdempotent(sortOrder);
  }

  lemma SortSpecPriceDescending()
    ensures SortSpec("PRICE", "Desc") == Ordering(ByPrice, false)
  {
    assert ToLower("PRICE") == "price";
    assert ToLower("Desc") == "desc";
  }

  lemma SortSpecUnknownKey()
    ensures SortSpec("rating", "desc") == Ordering(ByName, true)
  {
    assert ToLower("rating")[0] == 'r';
  }

  /** `a` may come before `b` under the ordering. */
  predicate Before(o: Ordering, a: Product, b: Product)
  {
    match o.field
    case ByName => if o.ascending then LexLe(a.name, b.name) else LexLe(b.name, a.name)
    case ByPrice => if o.ascending then a.price <= b.price else b.price <= a.price
  }

  lemma BeforeTotal(o: Ordering, a: Product, b: Product)
    ensures Before(o, a, b) || Before(o, b, a)
  {
    if o.field == ByName {
      LexLeTotal(a.name, b.name);
    }
  }

  lemma BeforeTransitive(o: Ordering, a: Product, b: Product, c: Product)
    requires Before(o, a, b) && Before(o, b, c)
    ensures Before(o, a, c)
  {
    if o.field == ByName {
      if o.ascending {
        LexLeTransitive(a.name, b.name, c.name);
      } else {
        LexLeTransitive(c.name, b.name, a.name);
      }
    }
  }

  predicate SortedBy(s: seq<Product>, o: Ordering)
  {
    forall i, j | 0 <= i < j < |s| :: Before(o, s[i], s[j])
  }

  /** Puts x in front of the first element it may precede, so earlier rows stay ahead of
      equal later ones. */
  function Insert(x: Product, s: seq<Product>, o: Ordering): (r: seq<Product>)
    ensures multiset(r) == multiset(s) + multiset{x}
    ensures |r| == |s| + 1
  {
    if s == [] || Before(o, x, s[0]) then [x] + s
    else
      assert s == [s[0]] + s[1..];
      [s[0]] + Insert(x, s[1..], o)
  }

  lemma {:induction false} InsertSorted(x: Product, s: seq<Product>, o: Ordering)
    requires SortedBy(s, o)
    ensures SortedBy(Insert(x, s, o), o)
  {
    if s == [] || Before(o, x, s[0]) {
      var r := [x] + s;
      forall i, j | 0 <= i < j < |r| ensures Before(o, r[i], r[j]) {
        if i == 0 && j > 1 {
          BeforeTransitive(o, x, s[0], s[j - 1]);
        }
      }
    } else {
      BeforeTotal(o, x, s[0]);
      var t := Insert(x, s[1..], o);
      InsertSorted(x, s[1..], o);
      var r := [s[0]] + t;
      forall i, j | 0 <= i < j < |r| ensures Before(o, r[i], r[j]) {
        if i == 0 {
          assert r[j] in multiset(t);
          assert r[j] in multiset(s[1..]) || r[j] == x;
          if r[j] != x {
            var k :| 0 <= k < |s[1..]| && s[1..][k] == r[j];
            assert s[k + 1] == r[j];
          }
        } else {
          assert r[i] == t[i - 1] && r[j] == t[j - 1];
        }
      }
    }
  }

  /** OrderBy / OrderByDescending: the rows rearranged into the ordering. */
  function Sort(s: seq<Product>, o: Ordering): (r: seq<Product>)
    ensures multiset(r) == multiset(s)
    ensures SortedBy(r, o)
  {
    if s == [] then []
    else
      var rest := Sort(s[1..], o);
      InsertSorted(s[0], rest, o);
      assert s == [s[0]] + s[1..];
      Insert(s[0], rest, o)
  }

  /** Skip((page - 1) * limit).Take(limit). */
  function Page(s: seq<Product>, page: int, limit: int): seq<Product>
  {
    Take(Skip(s, (page - 1) * limit), limit)
  }

  function Min(a: int, b: int): int { if a <= b then a else b }

  /** For a positive page and limit, a page is the slice that starts at (page - 1) * limit
      and holds at most `limit` rows. */
  lemma PageSlice(s: seq<Product>, page: int, limit: int)
    requires page >= 1 && limit >= 1
    ensures 0 <= (page - 1) * limit && (page - 1) * limit + limit == page * limit
    ensures Page(s, page, limit) == s[Min((page - 1) * limit, |s|)..Min(page * limit, |s|)]
    ensures |Page(s, page, limit)| <= limit
  {
    MulStep(page - 1, limit);
    var start := (page - 1) * limit;
    if start >= |s| {
      assert Page(s, page, limit) == [];
    } else if start + limit >= |s| {
      assert Page(s, page, limit) == s[start..];
    } else {
      assert s[start..][..limit] == s[start..start + limit];
    }
  }

  lemma MulStep(a: nat, b: nat)
    ensures a * b >= 0 && a * b + b == (a + 1) * b
  {
  }

  lemma PageBounded(s: seq<Product>, page: int, limit: int)
    ensures page >= 1 && limit >= 1 ==> |Page(s, page, limit)| <= limit
  {
    if page >= 1 && limit >= 1 {
      PageSlice(s, page, limit);
    }
  }

  /** Pages 1..n one after another. */
  function Pages(s: seq<Product>, n: nat, limit: int): seq<Product>
  {
    if n == 0 then [] else Pages(s, n - 1, limit) + Page(s, n, limit)
  }

  /** Pages 1..n hold the first n * limit rows. */
  lemma {:induction false} PagesPrefix(s: seq<Product>, n: nat, limit: int)
    requires limit >= 1
    ensures Pages(s, n, limit) == s[..Min(n * limit, |s|)]
  {
    if n == 0 {
      assert s[..Min(n * limit, |s|)] == [];
    } else {
      PagesPrefix(s, n - 1, limit);
      PageSlice(s, n, limit);
      var a := Min((n - 1) * limit, |s|);
      var b := Min(n * limit, |s|);
      assert Pages(s, n, limit) == s[..a] + s[a..b];
      JoinSlices(s, a, b);
    }
  }

  lemma JoinSlices(s: seq<Product>, a: int, b: int)
    requires 0 <= a <= b <= |s|
    ensures s[..a] + s[a..b] == s[..b]
  {
  }

  /** Enough pages give back the whole sequence. */
  lemma PagesCover(s: seq<Product>, n: nat, limit: int)
    requires limit >= 1 && n * limit >= |s|
    ensures Pages(s, n, limit) == s
  {
    PagesPrefix(s, n, limit);
  }

  /** GetProducts: filter, sort, then either everything or one page with the filtered
      count. */
  function GetProducts(rows: seq<Product>, q: ProductQuery): (r: ProductListing)
    ensures forall j | 0 <= j < |r.items| :: r.items[j] in rows && Matches(q, r.items[j])
    ensures SortedBy(r.items, SortSpec(q.sortBy, q.sortOrder))
    ensures q.getAll ==>
              r.totalCount.None?
              && multiset(r.items) == multiset(Filtered(rows, q))
    ensures !q.getAll ==> r.totalCount == Some(|Filtered(rows, q)|)
    ensures !q.getAll && q.page >= 1 && q.limit >= 1 ==> |r.items| <= q.limit
    ensures q.getAll ==> r.items == Sort(Filtered(rows, q), SortSpec(q.sortBy, q.sortOrder))
    ensures !q.getAll ==> r.items == Page(Sort(Filtered(rows, q), SortSpec(q.sortBy, q.sortOrder)), q.page, q.limit)
  {
    var sorted := Sort(Filtered(rows, q), SortSpec(q.sortBy, q.sortOrder));
    SortedKeepsMatches(rows, q, sorted);
    if q.getAll then ProductListing(sorted, None)
    else
      var items := Page(sorted, q.page, q.limit);
      PageKeepsMatches(rows, q, sorted, q.page, q.limit);
      PageSorted(sorted, SortSpec(q.sortBy, q.sortOrder), q.page, q.limit);
      PageBounded(sorted, q.page, q.limit);
      ProductListing(items, Some(|sorted|))
  }

  lemma SortedKeepsMatches(rows: seq<Product>, q: ProductQuery, sorted: seq<Product>)
    requires multiset(sorted) == multiset(Filtered(rows, q))
    ensures forall j | 0 <= j < |sorted| :: sorted[j] in rows && Matches(q, sorted[j])
    ensures |sorted| == |Filtered(rows, q)|
  {
    var f := Filtered(rows, q);
    PermutationMembers(f, sorted);
    assert |multiset(sorted)| == |multiset(f)|;
  }

  lemma PermutationMembers(a: seq<Product>, b: seq<Product>)
    requires multiset(a) == multiset(b)
    ensures forall j | 0 <= j < |b| :: b[j] in a
  {
    forall j | 0 <= j < |b| ensures b[j] in a {
      assert b[j] in multiset(a);
    }
  }

  lemma PageKeepsMatches(rows: seq<Product>, q: ProductQuery, sorted: seq<Product>, page: int, limit: int)
    requires forall j | 0 <= j < |sorted| :: sorted[j] in rows && Matches(q, sorted[j])
    ensures forall j | 0 <= j < |Page(sorted, page, limit)| ::
              Page(sorted, page, limit)[j] in rows && Matches(q, Page(sorted, page, limit)[j])
  {
    var skipped := Skip(sorted, (page - 1) * limit);
    assert forall j | 0 <= j < |skipped| :: skipped[j] in sorted;
    var p := Take(skipped, limit);
    assert forall j | 0 <= j < |p| :: p[j] in skipped;
  }

  /** A page of a sorted sequence is sorted. */
  lemma PageSorted(s: seq<Product>, o: Ordering, page: int, limit: int)
    requires SortedBy(s, o)
    ensures SortedBy(Page(s, page, limit), o)
  {
    var n := (page - 1) * limit;
    var skipped := Skip(s, n);
    var a := if n <= 0 then 0 else if n >= |s| then |s| else n;
    assert skipped == s[a..];
    var p := Take(skipped, limit);
    var b := if limit <= 0 then 0 else if limit >= |skipped| then |skipped| else limit;
    assert p == skipped[..b];
    forall i, j | 0 <= i < j < |p| ensures Before(o, p[i], p[j]) {
      assert p[i] == s[a + i] && p[j] == s[a + j];
    }
  }

  /** The count does not depend on which page is asked for. */
  lemma TotalCountIgnoresPage(rows: seq<Product>, q: ProductQuery, page: int, limit: int)
    requires !q.getAll
    ensures GetProducts(rows, q.(page := page, limit := limit)).totalCount == GetProducts(rows, q).totalCount
  {
    assert Filtered(rows, q.(page := page, limit := limit)) == Filtered(rows, q);
  }

  /** What the controller's UpdateProduct answers. */
  datatype UpdateOutcome = NotFound | ServerError(message: string) | Updated(product: Product)

  const PriceNotNumber := "The input string was not in a correct format."

  /** The product after the controller's overwrite: the four form fields, parsed, with no
      range checks; Id and ImagePath stay. */
  function FormOverwrite(p: Product, name: string, description: string, price: Cents, stock: int): (r: Product)
    ensures r.id == p.id && r.imagePath == p.imagePath
    ensures r.name == name && r.description == description && r.price == price && r.stock == stock
  {
    p.(name := name, description := description, price := price, stock := stock)
  }

  /** UpdateProduct, given decimal.Parse and int.Parse: an unknown id is NotFound, a
      field that does not parse is a server error with nothing saved, otherwise the
      parsed fields are saved as they are. */
  method UpdateProduct(repo: ProductStore, id: int, name: string, description: string, price: string,
                       stock: string, parsePrice: string -> Option<Cents>, parseStock: string -> Option<int>)
    returns (r: UpdateOutcome)
    requires repo.Valid()
    modifies repo
    ensures repo.Valid() && repo.nextId == old(repo.nextId)
    ensures id !in old(repo.products) ==> r == NotFound
    ensures id in old(repo.products) && (parsePrice(price).None? || parseStock(stock).None?) ==>
              r == ServerError(PriceNotNumber)
    ensures !r.Updated? ==> repo.products == old(repo.products)
    ensures r.Updated? <==> id in old(repo.products) && parsePrice(price).Some? && parseStock(stock).Some?
    ensures r.Updated? ==>
              r.product == FormOverwrite(old(repo.products)[id], name, description,
                                         parsePrice(price).value, parseStock(stock).value)
              && repo.products == old(repo.products)[id := r.product]
  {
    if id !in repo.products {
      return NotFound;
    }
    var parsedPrice := parsePrice(price);
    if parsedPrice.None? {
      return ServerError(PriceNotNumber);
    }
    var parsedStock := parseStock(stock);
    if parsedStock.None? {
      return ServerError(PriceNotNumber);
    }
    var updated := FormOverwrite(repo.products[id], name, description, parsedPrice.value, parsedStock.value);
    repo.products := repo.products[id := updated];
    r := Updated(updated);
  }

  /** The service refuses a negative stock; the controller's overwrite stores it. */
  lemma FormOverwriteSkipsChecks(p: Product)
    requires WellFormed(p)
    ensures !WellFormed(FormOverwrite(p, p.name, p.description, p.price, -1))
    ensures FieldError(p.(stock := -1)) == Some(StockNegative)
  {
  }
}
