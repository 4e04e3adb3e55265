/** The two product routes: `create_product` (its business rules and the
    insert) and `list_products` (the optional name and size filters, the
    collection order, skip and limit, the projection and the cursors). */
module Products {
  import opened Wrappers
  import opened Text
  import opened ObjectIds
  import opened Models
  import opened Store
  import opened Pagination

  const BAD_PRICE := "Price must be greater than 0"
  const NO_SIZES := "At least one size must be provided"
  const NEGATIVE_QUANTITY := "Quantity cannot be negative"
  const CREATE_FAILED := "Failed to create product"
  const TERM_TOO_LONG := "Search term too long"
  const SIZE_TOO_LONG := "Size parameter too long"

  /** The longest search term and the longest size the listing accepts, after stripping. */
  const MAX_TERM := 100
  const MAX_SIZE := 20

  // ---------------------------------------------------------------------
  // create_product

  /** `create_product`'s business rules, in source order: the price, then the
      presence of a size, then each size's quantity. */
  function ProductRules(p: ProductCreate): Result<ProductCreate> {
    if p.price <= 0.0 then Err(400, BAD_PRICE)
    else if |p.sizes| == 0 then Err(400, NO_SIZES)
    else if exists k :: 0 <= k < |p.sizes| && p.sizes[k].quantity < 0 then Err(400, NEGATIVE_QUANTITY)
    else Ok(p)
  }

  /** The checks as the route performs them, the quantities one size at a time. */
  method CheckProduct(p: ProductCreate) returns (r: Result<ProductCreate>)
    ensures r == ProductRules(p)
  {
    if p.price <= 0.0 {
      return Err(400, BAD_PRICE);
    }
    if |p.sizes| == 0 {
      return Err(400, NO_SIZES);
    }
    var i := 0;
    while i < |p.sizes|
      invariant 0 <= i <= |p.sizes|
      invariant forall k :: 0 <= k < i ==> p.sizes[k].quantity >= 0
    {
      if p.sizes[i].quantity < 0 {
        return Err(400, NEGATIVE_QUANTITY);
      }
      i := i + 1;
    }
    return Ok(p);
  }

  /** For a non-empty name (the only schema constraint the route does not
      re-check), the route's rules accept a product exactly when the schema
      does; so a request the schema admits always passes, unchanged. */
  lemma ProductRulesMatchSchema(p: ProductCreate)
    ensures |p.name| >= 1 ==> (ProductRules(p).Ok? <==> ValidProductCreate(p))
    ensures ProductRules(p).Ok? ==> ProductRules(p).value == p
    ensures ValidProductCreate(p) ==> ProductRules(p) == Ok(p)
  {
    if ProductRules(p).Ok? {
      assert forall k :: 0 <= k < |p.sizes| ==> ValidSizeQuantity(p.sizes[k]);
    }
  }

  /** The route `POST /products`. `newId` is the `_id` the driver generates;
      an insert that fails (the id is taken) surfaces as the route's 500. */
  method CreateProduct(db: Database, p: ProductCreate, newId: ObjectId) returns (r: Result<ProductResponse>)
    requires db.Valid()
    modifies db
    ensures db.Valid() && db.orders == old(db.orders)
    ensures ProductRules(p).Err? ==>
      r == Err(ProductRules(p).status, ProductRules(p).detail) && db.products == old(db.products)
    ensures ProductRules(p).Ok? && newId in ProductIds(old(db.products)) ==>
      r == Err(500, CREATE_FAILED) && db.products == old(db.products)
    ensures ProductRules(p).Ok? && newId !in ProductIds(old(db.products)) ==>
      && r == Ok(ProductResponse(Render(newId)))
      && db.products == old(db.products) + [Product(newId, p.name, p.price, p.sizes)]
  {
    var check := CheckProduct(p);
    if check.Err? {
      return Err(check.status, check.detail);
    }
    var inserted := db.InsertProduct(Product(newId, p.name, p.price, p.sizes));
    if !inserted {
      return Err(500, CREATE_FAILED);
    }
    return Ok(ProductResponse(Render(newId)));
  }

  // ---------------------------------------------------------------------
  // list_products

  /** The query `list_products` builds: the stripped name term, matched
      case-insensitively anywhere in `name`, and the stripped size, matched
      exactly against any entry of `sizes`; an absent part matches everything. */
  datatype ProductQuery = ProductQuery(name: Option<string>, size: Option<string>)

  /** A query parameter Python treats as true: present and non-empty. */
  predicate Given(param: Option<string>) {
    param.Some? && param.value != []
  }

  /** The query for the request's parameters, or the error of the first
      parameter that is too long once stripped; the name is checked first. */
  function QueryFor(name: Option<string>, size: Option<string>): Result<ProductQuery> {
    var term := if Given(name) then Some(Strip(name.value)) else None;
    var sz := if Given(size) then Some(Strip(size.value)) else None;
    if term.Some? && |term.value| > MAX_TERM then Err(400, TERM_TOO_LONG)
    else if sz.Some? && |sz.value| > MAX_SIZE then Err(400, SIZE_TOO_LONG)
    else Ok(ProductQuery(term, sz))
  }

  predicate HasSize(p: Product, size: string) {
    exists k :: 0 <= k < |p.sizes| && p.sizes[k].size == size
  }

  /** The filters are combined with AND. */
  predicate Matches(q: ProductQuery, p: Product) {
    && (q.name.Some? ==> ContainsIgnoringCase(p.name, q.name.value))
    && (q.size.Some? ==> HasSize(p, q.size.value))
  }

  /** `find(query)` without a sort: the matching products, in collection order. */
  function FilterProducts(ps: seq<Product>, q: ProductQuery): (r: seq<Product>)
    ensures |r| <= |ps|
    ensures forall k :: 0 <= k < |r| ==> Matches(q, r[k]) && r[k] in ps
    ensures forall k :: 0 <= k < |ps| && Matches(q, ps[k]) ==> ps[k] in r
  {
    if ps == [] then []
    else if Matches(q, ps[0]) then [ps[0]] + FilterProducts(ps[1..], q)
    else FilterProducts(ps[1..], q)
  }

  /** The projection to `_id`, `name` and `price`, with the id rendered. */
  function ListDetails(p: Product): ProductListDetails {
    ProductListDetails(Render(p.id), p.name, p.price)
  }

  function ListAll(ps: seq<Product>): (r: seq<ProductListDetails>)
    ensures |r| == |ps| && forall k :: 0 <= k < |ps| ==> r[k] == ListDetails(ps[k])
  {
    seq(|ps|, k requires 0 <= k < |ps| => ListDetails(ps[k]))
  }

  /** What `GET /products` answers. */
  function ProductListing(ps: seq<Product>, name: Option<string>, size: Option<string>, limit: int, offset: int)
    : Result<ProductListResponse>
    requires limit >= 1 && offset >= 0
  {
    match QueryFor(name, size)
    case Err(s, d) => Err(s, d)
    case Ok(q) =>
      var data := ListAll(Page(FilterProducts(ps, q), offset, limit));
      Ok(ProductListResponse(data, Cursors(offset, limit, |data|)))
  }

  /** The route `GET /products`: it builds the query, runs it with skip and
      limit, and projects each document it gets back. */
  method ListProducts(ps: seq<Product>, name: Option<string>, size: Option<string>, limit: int, offset: int)
    returns (r: Result<ProductListResponse>)
    requires limit >= 1 && offset >= 0
    ensures r == ProductListing(ps, name, size, limit, offset)
  {
    var query := BuildQuery(name, size);
    if query.Err? {
      return Err(query.status, query.detail);
    }
    var docs := Page(FilterProducts(ps, query.value), offset, limit);
    var productList := ProjectAll(docs);
    return Ok(ProductListResponse(productList, Cursors(offset, limit, |productList|)));
  }

  /** The query dictionary, filled in one parameter at a time. */
  method BuildQuery(name: Option<string>, size: Option<string>) returns (r: Result<ProductQuery>)
    ensures r == QueryFor(name, size)
  {
    var nameFilter: Option<string> := None;
    if name.Some? && name.value != [] {
      var term := Strip(name.value);
      if |term| > MAX_TERM {
        return Err(400, TERM_TOO_LONG);
      }
      nameFilter := Some(term);
    }
    var sizeFilter: Option<string> := None;
    if size.Some? && size.value != [] {
      var sz := Strip(size.value);
      if |sz| > MAX_SIZE {
        return Err(400, SIZE_TOO_LONG);
      }
      sizeFilter := Some(sz);
    }
    return Ok(ProductQuery(nameFilter, sizeFilter));
  }

  /** The list comprehension over the cursor. */
  method ProjectAll(docs: seq<Product>) returns (productList: seq<ProductListDetails>)
    ensures productList == ListAll(docs)
  {
    productList := [];
    var i := 0;
    while i < |docs|
      invariant 0 <= i <= |docs|
      invariant |productList| == i && forall k :: 0 <= k < i ==> productList[k] == ListDetails(docs[k])
    {
      productList := productList + [ListDetails(docs[i])];
      i := i + 1;
    }
  }

  lemma StripNoLonger(s: string)
    ensures |Strip(s)| <= |s|
  {
  }

  /** Parameters within the declared ProductQueryParams bounds are never refused. */
  lemma BoundedParamsAccepted(name: Option<string>, size: Option<string>, limit: int, offset: int)
    requires ValidProductQueryParams(name, size, limit, offset)
    ensures QueryFor(name, size).Ok?
  {
    if name.Some? { StripNoLonger(name.value); }
    if size.Some? { StripNoLonger(size.value); }
  }

  lemma {:induction false} FilterSameMatches(ps: seq<Product>, q1: ProductQuery, q2: ProductQuery)
    requires forall p :: Matches(q1, p) <==> Matches(q2, p)
    ensures FilterProducts(ps, q1) == FilterProducts(ps, q2)
  {
    if ps != [] {
      FilterSameMatches(ps[1..], q1, q2);
    }
  }

  /** A name made of whitespace only (including the empty name) filters nothing:
      the answer is the one without a name. */
  lemma BlankNameFiltersNothing(ps: seq<Product>, name: string, size: Option<string>, limit: int, offset: int)
    requires limit >= 1 && offset >= 0
    requires AllSpace(name)
    ensures ProductListing(ps, Some(name), size, limit, offset) == ProductListing(ps, None, size, limit, offset)
  {
    StripEmptyIff(name);
    if QueryFor(None, size).Ok? && name != [] {
      var q1 := QueryFor(Some(name), size).value;
      var q2 := QueryFor(None, size).value;
      forall p ensures Matches(q1, p) <==> Matches(q2, p) {
        EmptyTermMatchesAll(p.name);
      }
      FilterSameMatches(ps, q1, q2);
    }
  }

  /** A size made of whitespace only is not ignored: it becomes the empty size,
      so only products that list an entry with the empty size are returned. */
  lemma BlankSizeMatchesEmptySize(name: Option<string>, size: string, p: Product)
    requires size != [] && AllSpace(size) && QueryFor(name, Some(size)).Ok?
    ensures QueryFor(name, Some(size)).value.size == Some("")
    ensures Matches(QueryFor(name, Some(size)).value, p) ==> HasSize(p, "")
  {
    StripEmptyIff(size);
  }

  /** The name match ignores ASCII case on both sides. */
  lemma NameMatchIgnoresCase(t: string, size: Option<string>, p: Product)
    ensures Matches(ProductQuery(Some(t), size), p)
        <==> Matches(ProductQuery(Some(Lower(t)), size), Product(p.id, Lower(p.name), p.price, p.sizes))
  {
    MatchIgnoresCase(p.name, t);
  }

  /** The answer to an accepted query: at most `limit` products, the window at
      `offset` of the matching products in collection order, each one a stored
      product that passes both filters, and the cursors for that many. */
  lemma ProductListingPage(ps: seq<Product>, name: Option<string>, size: Option<string>, limit: int, offset: int)
    requires limit >= 1 && offset >= 0 && QueryFor(name, size).Ok?
    ensures ProductListing(ps, name, size, limit, offset).Ok?
    ensures var q := QueryFor(name, size).value;
            var all := FilterProducts(ps, q);
            var resp := ProductListing(ps, name, size, limit, offset).value;
      && resp.data == ListAll(all[Min(offset, |all|)..Min(offset + limit, |all|)])
      && |resp.data| <= limit
      && resp.page == Cursors(offset, limit, |resp.data|)
      && forall i :: 0 <= i < |resp.data| ==>
           exists k :: 0 <= k < |ps| && Matches(q, ps[k]) && resp.data[i] == ListDetails(ps[k])
  {
    var q := QueryFor(name, size).value;
    var all := FilterProducts(ps, q);
    PageIsWindow(all, offset, limit);
    var resp := ProductListing(ps, name, size, limit, offset).value;
    forall i | 0 <= i < |resp.data|
      ensures exists k :: 0 <= k < |ps| && Matches(q, ps[k]) && resp.data[i] == ListDetails(ps[k])
    {
      var p := all[Min(offset, |all|) + i];
      assert p in ps;
      var k :| 0 <= k < |ps| && ps[k] == p;
    }
  }

  /** `find` keeps the collection order: filtering distributes over concatenation. */
  lemma {:induction false} FilterConcat(a: seq<Product>, b: seq<Product>, q: ProductQuery)
    ensures FilterProducts(a + b, q) == FilterProducts(a, q) + FilterProducts(b, q)
  {
    if a == [] {
      assert a + b == b;
    } else {
      assert (a + b)[0] == a[0] && (a + b)[1..] == a[1..] + b;
      FilterConcat(a[1..], b, q);
    }
  }

  /** A product inserted after the others is listed after them. */
  lemma InsertedProductListedLast(ps: seq<Product>, p: Product, q: ProductQuery)
    requires Matches(q, p)
    ensures FilterProducts(ps + [p], q) == FilterProducts(ps, q) + [p]
  {
    FilterConcat(ps, [p], q);
    assert FilterProducts([p], q) == [p];
  }
}
