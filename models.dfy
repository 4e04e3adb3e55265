/** The request and response documents of the API and the field constraints
    the schema declares on them, as validity predicates. Prices and totals are
    exact reals; ids travel as strings. */
module Models {
  import opened Wrappers

  // --- Products

  datatype SizeQuantity = SizeQuantity(size: string, quantity: int)

  datatype ProductCreate = ProductCreate(name: string, price: real, sizes: seq<SizeQuantity>)

  datatype ProductResponse = ProductResponse(id: string)

  datatype ProductListDetails = ProductListDetails(id: string, name: string, price: real)

  /** `next` and `previous` are offsets rendered as decimal strings, each possibly absent. */
  datatype Pagination = Pagination(next: Option<string>, limit: int, offset: int, previous: Option<string>)

  datatype ProductListResponse = ProductListResponse(data: seq<ProductListDetails>, page: Pagination)

  // --- Orders

  datatype OrderItemCreate = OrderItemCreate(productId: string, qty: int)

  datatype OrderCreate = OrderCreate(userId: string, items: seq<OrderItemCreate>)

  datatype OrderResponse = OrderResponse(id: string)

  datatype ProductDetails = ProductDetails(id: string, name: string)

  datatype OrderItemDetails = OrderItemDetails(productDetails: ProductDetails, qty: int)

  datatype OrderListDetails = OrderListDetails(id: string, items: seq<OrderItemDetails>, total: real)

  datatype OrderListResponse = OrderListResponse(data: seq<OrderListDetails>, page: Pagination)

  // --- Field constraints

  /** `quantity: int = Field(..., ge=0)` */
  predicate ValidSizeQuantity(s: SizeQuantity) {
    s.quantity >= 0
  }

  /** `name` has `min_length=1`, `price` is `gt=0`, `sizes` has `min_items=1`. */
  predicate ValidProductCreate(p: ProductCreate) {
    && |p.name| >= 1
    && p.price > 0.0
    && |p.sizes| >= 1
    && forall k :: 0 <= k < |p.sizes| ==> ValidSizeQuantity(p.sizes[k])
  }

  /** `qty: int = Field(..., gt=0)` */
  predicate ValidOrderItemCreate(i: OrderItemCreate) {
    i.qty > 0
  }

  /** `items` has `min_items=1`; `userId` carries no constraint. */
  predicate ValidOrderCreate(o: OrderCreate) {
    |o.items| >= 1 && forall k :: 0 <= k < |o.items| ==> ValidOrderItemCreate(o.items[k])
  }

  /** ProductQueryParams: `name` at most 100 characters, `size` at most 20,
      `1 <= limit <= 100`, `offset >= 0`. */
  predicate ValidProductQueryParams(name: Option<string>, size: Option<string>, limit: int, offset: int) {
    && (name.Some? ==> |name.value| <= 100)
    && (size.Some? ==> |size.value| <= 20)
    && 1 <= limit <= 100
    && offset >= 0
  }

  /** OrderQueryParams: `1 <= limit <= 100`, `offset >= 0`. */
  predicate ValidOrderQueryParams(limit: int, offset: int) {
    1 <= limit <= 100 && offset >= 0
  }
}
