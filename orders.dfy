/** The two order routes: `create_order` (validation, the product-existence
    count and the insert) and `get_user_orders` (the aggregation, the
    reshaping of its documents into the response, and the cursors). */
module Orders {
  import opened Wrappers
  import opened Text
  import opened ObjectIds
  import opened Models
  import opened Store
  import opened Pagination
  import opened Pipeline

  const EMPTY_ITEMS := "Order must contain at least one item"
  const BLANK_USER := "User ID cannot be empty"
  const BAD_QTY := "Item quantity must be greater than 0"
  const INVALID_ID := "Invalid product ID: "
  const MISSING_PRODUCTS := "One or more products do not exist"
  const CREATE_FAILED := "Failed to create order"

  /** The document `create_order` inserts, before the store assigns its `_id`:
      the request's userId as given and the items with converted product ids. */
  datatype OrderDoc = OrderDoc(userId: string, items: seq<Item>)

  // ---------------------------------------------------------------------
  // create_order

  /** An item passes both per-item checks of the loop. */
  predicate ItemOk(it: OrderItemCreate) {
    it.qty > 0 && Parse(it.productId).Some?
  }

  /** The detail of the error a failing item raises: the quantity is checked first. */
  function ItemError(it: OrderItemCreate): string {
    if it.qty <= 0 then BAD_QTY else INVALID_ID + it.productId
  }

  function Converted(it: OrderItemCreate): Item
    requires ItemOk(it)
  {
    Item(Parse(it.productId).value, it.qty)
  }

  /** The item loop: items are checked in order and the first failing one raises. */
  function ConvertItems(items: seq<OrderItemCreate>): Result<seq<Item>> {
    if items == [] then Ok([])
    else if !ItemOk(items[0]) then Err(400, ItemError(items[0]))
    else match ConvertItems(items[1..])
      case Err(s, d) => Err(s, d)
      case Ok(rest) => Ok([Converted(items[0])] + rest)
  }

  /** The `product_ids` list: one id per item, duplicates kept. */
  function ProductIdList(items: seq<Item>): (ids: seq<ObjectId>)
    ensures |ids| == |items| && forall k :: 0 <= k < |items| ==> ids[k] == items[k].productId
  {
    seq(|items|, k requires 0 <= k < |items| => items[k].productId)
  }

  ghost predicate Distinct(ids: seq<ObjectId>) {
    forall i, j :: 0 <= i < j < |ids| ==> ids[i] != ids[j]
  }

  /** `create_order`'s decision, checks in source order: the error it raises,
      or the document it inserts. */
  function OrderRules(ps: seq<Product>, order: OrderCreate): Result<OrderDoc> {
    if |order.items| == 0 then Err(400, EMPTY_ITEMS)
    else if Strip(order.userId) == [] then Err(400, BLANK_USER)
    else match ConvertItems(order.items)
      case Err(s, d) => Err(s, d)
      case Ok(items) =>
        var ids := ProductIdList(items);
        if CountDocuments(ps, IdSet(ids)) != |ids| then Err(400, MISSING_PRODUCTS)
        else Ok(OrderDoc(order.userId, items))
  }

  /** When every item passes, the loop converts each of them, in order. */
  lemma {:induction false} ConvertItemsOk(items: seq<OrderItemCreate>)
    requires forall k :: 0 <= k < |items| ==> ItemOk(items[k])
    ensures ConvertItems(items).Ok?
    ensures |ConvertItems(items).value| == |items|
    ensures forall k :: 0 <= k < |items| ==> ConvertItems(items).value[k] == Converted(items[k])
  {
    if items != [] {
      ConvertItemsOk(items[1..]);
    }
  }

  /** The first failing item decides the error. */
  lemma {:induction false} ConvertItemsFirstError(items: seq<OrderItemCreate>, i: nat)
    requires i < |items| && !ItemOk(items[i])
    requires forall k :: 0 <= k < i ==> ItemOk(items[k])
    ensures ConvertItems(items) == Err(400, ItemError(items[i]))
  {
    if i > 0 {
      ConvertItemsFirstError(items[1..], i - 1);
    }
  }

  /** The checks of `create_order`, in source order. */
  method CheckOrder(ps: seq<Product>, order: OrderCreate) returns (r: Result<OrderDoc>)
    ensures r == OrderRules(ps, order)
  {
    if |order.items| == 0 {
      return Err(400, EMPTY_ITEMS);
    }
    if Strip(order.userId) == [] {
      return Err(400, BLANK_USER);
    }
    var items, productIds := ConvertLoop(order.items);
    if items.Err? {
      return Err(items.status, items.detail);
    }
    var existing := CountDocuments(ps, IdSet(productIds));
    if existing != |productIds| {
      return Err(400, MISSING_PRODUCTS);
    }
    return Ok(OrderDoc(order.userId, items.value));
  }

  /** The item loop of `create_order`: it checks each item, converts its
      product id and collects `product_ids`. `order_dict`'s in-place rewrite
      of the items is the list built here. */
  method ConvertLoop(request: seq<OrderItemCreate>) returns (r: Result<seq<Item>>, productIds: seq<ObjectId>)
    ensures r == ConvertItems(request)
    ensures r.Ok? ==> productIds == ProductIdList(r.value)
  {
    var items: seq<Item> := [];
    productIds := [];
    var i := 0;
    while i < |request|
      invariant 0 <= i <= |request|
      invariant forall k :: 0 <= k < i ==> ItemOk(request[k])
      invariant |items| == i && forall k :: 0 <= k < i ==> items[k] == Converted(request[k])
      invariant |productIds| == i && forall k :: 0 <= k < i ==> productIds[k] == items[k].productId
    {
      var checked := CheckItem(request[i]);
      if checked.Err? {
        ConvertItemsFirstError(request, i);
        return Err(checked.status, checked.detail), productIds;
      }
      items := items + [checked.value];
      productIds := productIds + [checked.value.productId];
      i := i + 1;
    }
    LoopCompleted(request, items, productIds);
    return Ok(items), productIds;
  }

  /** One pass of the item loop: the quantity check, then the conversion of the product id. */
  method CheckItem(item: OrderItemCreate) returns (r: Result<Item>)
    ensures r.Ok? <==> ItemOk(item)
    ensures r.Ok? ==> r.value == Converted(item)
    ensures r.Err? ==> r == Err(400, ItemError(item))
  {
    if item.qty <= 0 {
      return Err(400, BAD_QTY);
    }
    var id := Parse(item.productId);
    if id.None? {
      return Err(400, INVALID_ID + item.productId);
    }
    return Ok(Item(id.value, item.qty));
  }

  /** When the item loop runs to the end, it has built the conversion and its id list. */
  lemma LoopCompleted(request: seq<OrderItemCreate>, items: seq<Item>, productIds: seq<ObjectId>)
    requires forall k :: 0 <= k < |request| ==> ItemOk(request[k])
    requires |items| == |request| && forall k :: 0 <= k < |request| ==> items[k] == Converted(request[k])
    requires |productIds| == |request| && forall k :: 0 <= k < |request| ==> productIds[k] == items[k].productId
    ensures ConvertItems(request) == Ok(items)
    ensures productIds == ProductIdList(items)
  {
    ConvertItemsOk(request);
    assert ConvertItems(request).value == items;
  }

  lemma {:induction false} IdSetSize(ids: seq<ObjectId>)
    ensures |IdSet(ids)| <= |ids|
    ensures |IdSet(ids)| == |ids| <==> Distinct(ids)
  {
    if ids != [] {
      IdSetSize(ids[1..]);
      if ids[0] in ids[1..] {
        RepeatedHead(ids);
      } else {
        FreshHead(ids);
      }
    }
  }

  lemma RepeatedHead(ids: seq<ObjectId>)
    requires ids != [] && ids[0] in ids[1..]
    ensures IdSet(ids) == IdSet(ids[1..]) && !Distinct(ids)
  {
    var m :| 0 <= m < |ids[1..]| && ids[1..][m] == ids[0];
    assert ids[m + 1] == ids[0];
  }

  lemma FreshHead(ids: seq<ObjectId>)
    requires ids != [] && ids[0] !in ids[1..]
    ensures |IdSet(ids)| == 1 + |IdSet(ids[1..])|
    ensures Distinct(ids) <==> Distinct(ids[1..])
  {
    assert IdSet(ids) == {ids[0]} + IdSet(ids[1..]) && ids[0] !in IdSet(ids[1..]);
    if Distinct(ids[1..]) {
      DistinctCons(ids);
    }
    if Distinct(ids) {
      DistinctTail(ids);
    }
  }

  lemma DistinctCons(ids: seq<ObjectId>)
    requires ids != [] && ids[0] !in ids[1..] && Distinct(ids[1..])
    ensures Distinct(ids)
  {
    var rest := ids[1..];
    forall i, j | 0 <= i < j < |ids| ensures ids[i] != ids[j] {
      assert ids[j] == rest[j - 1];
      if i > 0 {
        assert ids[i] == rest[i - 1];
      }
    }
  }

  lemma DistinctTail(ids: seq<ObjectId>)
    requires ids != [] && Distinct(ids)
    ensures Distinct(ids[1..])
  {
    var rest := ids[1..];
    forall i, j | 0 <= i < j < |rest| ensures rest[i] != rest[j] {
      assert rest[i] == ids[i + 1] && rest[j] == ids[j + 1];
    }
  }

  lemma IntersectionSize(a: set<ObjectId>, b: set<ObjectId>)
    ensures |a * b| <= |a|
    ensures |a * b| == |a| <==> a <= b
  {
    assert a == (a * b) + (a - b);
    assert (a * b) !! (a - b);
    if !(a <= b) {
      var x :| x in a && x !in b;
      assert x in a - b;
    }
  }

  /** `count_documents({"_id": {"$in": product_ids}}) == len(product_ids)` holds
      exactly when every id names an existing product AND no id occurs twice:
      an order naming the same product in two items is refused. */
  lemma CountCheckIff(ps: seq<Product>, ids: seq<ObjectId>)
    requires UniqueProductIds(ps)
    ensures CountDocuments(ps, IdSet(ids)) == |ids|
        <==> (forall k :: 0 <= k < |ids| ==> ids[k] in ProductIds(ps)) && Distinct(ids)
  {
    CountDocumentsUnique(ps, IdSet(ids));
    IdSetSize(ids);
    IntersectionSize(IdSet(ids), ProductIds(ps));
  }

  /** Every item's product exists. */
  ghost predicate AllProductsExist(ps: seq<Product>, items: seq<OrderItemCreate>) {
    forall k :: 0 <= k < |items| ==> Parse(items[k].productId).Some? && Parse(items[k].productId).value in ProductIds(ps)
  }

  /** No two items name the same product. */
  ghost predicate NoRepeatedProduct(items: seq<OrderItemCreate>) {
    forall i, j :: 0 <= i < j < |items| ==> Parse(items[i].productId) != Parse(items[j].productId)
  }

  /** `create_order` inserts exactly when the items list is non-empty, the
      stripped userId is non-empty, every item has a positive quantity and a
      well-formed product id, every product exists and no product is named
      twice; what it inserts is the userId as given with the converted items. */
  lemma OrderRulesAccepts(ps: seq<Product>, order: OrderCreate)
    requires UniqueProductIds(ps)
    ensures OrderRules(ps, order).Ok?
        <==> && |order.items| > 0
             && Strip(order.userId) != []
             && (forall k :: 0 <= k < |order.items| ==> ItemOk(order.items[k]))
             && AllProductsExist(ps, order.items)
             && NoRepeatedProduct(order.items)
    ensures OrderRules(ps, order).Ok? ==>
      && OrderRules(ps, order).value.userId == order.userId
      && |OrderRules(ps, order).value.items| == |order.items|
      && forall k :: 0 <= k < |order.items| ==> OrderRules(ps, order).value.items[k] == Converted(order.items[k])
  {
    if forall k :: 0 <= k < |order.items| ==> ItemOk(order.items[k]) {
      ConvertItemsOk(order.items);
      ConvertedIds(ps, order.items, ConvertItems(order.items).value);
      CountCheckIff(ps, ProductIdList(ConvertItems(order.items).value));
    } else {
      var i :| 0 <= i < |order.items| && !ItemOk(order.items[i]);
      FirstFailure(order.items, i);
    }
  }

  /** The converted items' ids exist and are distinct exactly when the
      request's ids parse to existing, pairwise different products. */
  lemma ConvertedIds(ps: seq<Product>, items: seq<OrderItemCreate>, conv: seq<Item>)
    requires forall k :: 0 <= k < |items| ==> ItemOk(items[k])
    requires |conv| == |items| && forall k :: 0 <= k < |items| ==> conv[k] == Converted(items[k])
    ensures var ids := ProductIdList(conv);
      && ((forall k :: 0 <= k < |ids| ==> ids[k] in ProductIds(ps)) <==> AllProductsExist(ps, items))
      && (Distinct(ids) <==> NoRepeatedProduct(items))
  {
    var ids := ProductIdList(conv);
    assert forall k :: 0 <= k < |items| ==> Parse(items[k].productId) == Some(ids[k]);
  }

  /** The error `create_order` raises for a rejected order, by the first check that fails. */
  lemma OrderRulesErrors(ps: seq<Product>, order: OrderCreate, i: nat)
    requires i < |order.items| && Strip(order.userId) != []
    requires forall k :: 0 <= k < i ==> ItemOk(order.items[k])
    requires !ItemOk(order.items[i])
    ensures OrderRules(ps, order) == Err(400, ItemError(order.items[i]))
    ensures order.items[i].qty <= 0 ==> OrderRules(ps, order) == Err(400, BAD_QTY)
  {
    ConvertItemsFirstError(order.items, i);
  }

  /** For a request the schema admits (`min_items=1`, every `qty > 0`), the
      route's own emptiness and quantity checks never fire: the only errors
      left are a blank userId, a malformed product id and a missing product. */
  lemma SchemaValidOrderErrors(ps: seq<Product>, order: OrderCreate)
    requires ValidOrderCreate(order)
    ensures var r := OrderRules(ps, order);
      r.Err? ==>
        || r == Err(400, BLANK_USER)
        || r == Err(400, MISSING_PRODUCTS)
        || exists k :: 0 <= k < |order.items| && r == Err(400, INVALID_ID + order.items[k].productId)
  {
    if Strip(order.userId) != [] {
      if forall k :: 0 <= k < |order.items| ==> ItemOk(order.items[k]) {
        ConvertItemsOk(order.items);
      } else {
        var i :| 0 <= i < |order.items| && !ItemOk(order.items[i]);
        FirstFailure(order.items, i);
        var f :| 0 <= f < |order.items| && !ItemOk(order.items[f]) && ConvertItems(order.items) == Err(400, ItemError(order.items[f]));
        assert ValidOrderItemCreate(order.items[f]);
        assert ItemError(order.items[f]) == INVALID_ID + order.items[f].productId;
      }
    }
  }

  /** Some item fails: then the first failing one decides the error. */
  lemma {:induction false} FirstFailure(items: seq<OrderItemCreate>, i: nat)
    requires i < |items| && !ItemOk(items[i])
    ensures exists f :: 0 <= f < |items| && !ItemOk(items[f]) && ConvertItems(items) == Err(400, ItemError(items[f]))
    decreases i
  {
    if exists k :: 0 <= k < i && !ItemOk(items[k]) {
      var k :| 0 <= k < i && !ItemOk(items[k]);
      FirstFailure(items, k);
    } else {
      ConvertItemsFirstError(items, i);
    }
  }

  /** The route `POST /orders`. `newId` is the `_id` the driver generates;
      an insert that fails (the id is taken) surfaces as the route's 500. */
  method CreateOrder(db: Database, order: OrderCreate, newId: ObjectId) returns (r: Result<OrderResponse>)
    requires db.Valid()
    modifies db
    ensures db.Valid() && db.products == old(db.products)
    ensures OrderRules(old(db.products), order).Err? ==>
      && r == Err(OrderRules(old(db.products), order).status, OrderRules(old(db.products), order).detail)
      && db.orders == old(db.orders)
    ensures OrderRules(old(db.products), order).Ok? && newId in OrderIds(old(db.orders)) ==>
      r == Err(500, CREATE_FAILED) && db.orders == old(db.orders)
    ensures OrderRules(old(db.products), order).Ok? && newId !in OrderIds(old(db.orders)) ==>
      var doc := OrderRules(old(db.products), order).value;
      && r == Ok(OrderResponse(Render(newId)))
      && db.orders == old(db.orders) + [Order(newId, doc.userId, doc.items)]
  {
    var check := CheckOrder(db.products, order);
    if check.Err? {
      return Err(check.status, check.detail);
    }
    var inserted := db.InsertOrder(Order(newId, check.value.userId, check.value.items));
    if !inserted {
      return Err(500, CREATE_FAILED);
    }
    return Ok(OrderResponse(Render(newId)));
  }

  // ---------------------------------------------------------------------
  // get_user_orders

  /** The route's declared parameters: `user_id` of 1 to 100 characters,
      `1 <= limit <= 100`, `offset >= 0`. */
  predicate ValidListParams(userId: string, limit: int, offset: int) {
    1 <= |userId| <= 100 && ValidOrderQueryParams(limit, offset)
  }

  /** One pushed item with its product id rendered as a string. */
  function ReshapeItem(it: GroupItem): OrderItemDetails {
    OrderItemDetails(ProductDetails(Render(it.productId), it.name), it.qty)
  }

  /** One aggregated document as an `OrderListDetails`. */
  function Reshape(g: Group): OrderListDetails {
    OrderListDetails(Render(g.id), seq(|g.items|, k requires 0 <= k < |g.items| => ReshapeItem(g.items[k])), g.total)
  }

  function ReshapeAll(gs: seq<Group>): (r: seq<OrderListDetails>)
    ensures |r| == |gs| && forall k :: 0 <= k < |gs| ==> r[k] == Reshape(gs[k])
  {
    seq(|gs|, k requires 0 <= k < |gs| => Reshape(gs[k]))
  }

  /** What `GET /orders/{user_id}` answers. */
  function UserOrders(os: seq<Order>, ps: seq<Product>, userId: string, limit: int, offset: int): Result<OrderListResponse>
    requires ValidListParams(userId, limit, offset)
  {
    var u := Strip(userId);
    if u == [] then Err(400, BLANK_USER)
    else
      var data := ReshapeAll(Aggregate(os, ps, u, offset, limit));
      Ok(OrderListResponse(data, Cursors(offset, limit, |data|)))
  }

  /** The route `GET /orders/{user_id}`: it runs the pipeline and converts each
      returned document, and each of its items, one at a time. */
  method GetUserOrders(os: seq<Order>, ps: seq<Product>, userId: string, limit: int, offset: int)
    returns (r: Result<OrderListResponse>)
    requires ValidListParams(userId, limit, offset)
    ensures r == UserOrders(os, ps, userId, limit, offset)
  {
    var u := Strip(userId);
    if u == [] {
      return Err(400, BLANK_USER);
    }
    var docs := Aggregate(os, ps, u, offset, limit);
    var orderList := ReshapeDocs(docs);
    return Ok(OrderListResponse(orderList, Cursors(offset, limit, |orderList|)));
  }

  /** The reshaping loop over the documents the pipeline returns. */
  method ReshapeDocs(docs: seq<Group>) returns (orderList: seq<OrderListDetails>)
    ensures orderList == ReshapeAll(docs)
  {
    orderList := [];
    var i := 0;
    while i < |docs|
      invariant 0 <= i <= |docs|
      invariant |orderList| == i && forall k :: 0 <= k < i ==> orderList[k] == Reshape(docs[k])
    {
      var doc := ReshapeDoc(docs[i]);
      orderList := orderList + [doc];
      i := i + 1;
    }
  }

  /** The body of the reshaping loop: the order's id is rendered, then each item's product id. */
  method ReshapeDoc(doc: Group) returns (d: OrderListDetails)
    ensures d == Reshape(doc)
  {
    var id := Render(doc.id);
    var items: seq<OrderItemDetails> := [];
    var j := 0;
    while j < |doc.items|
      invariant 0 <= j <= |doc.items|
      invariant |items| == j && forall k :: 0 <= k < j ==> items[k] == ReshapeItem(doc.items[k])
    {
      items := items + [ReshapeItem(doc.items[j])];
      j := j + 1;
    }
    d := OrderListDetails(id, items, doc.total);
  }

  /** A blank `user_id` is refused; any other is answered. */
  lemma UserOrdersBlankIff(os: seq<Order>, ps: seq<Product>, userId: string, limit: int, offset: int)
    requires ValidListParams(userId, limit, offset)
    ensures UserOrders(os, ps, userId, limit, offset).Err? <==> AllSpace(userId)
    ensures UserOrders(os, ps, userId, limit, offset).Err? ==>
      UserOrders(os, ps, userId, limit, offset) == Err(400, BLANK_USER)
  {
    StripEmptyIff(userId);
  }

  /** The page answered for a non-blank `user_id`: the reshaped window at
      `offset` of the user's sorted listing, at most `limit` orders, in strictly
      ascending id order, and the cursors computed from the number returned. */
  lemma UserOrdersPage(os: seq<Order>, ps: seq<Product>, userId: string, limit: int, offset: int)
    requires ValidListParams(userId, limit, offset) && Strip(userId) != []
    ensures UserOrders(os, ps, userId, limit, offset).Ok?
    ensures var resp := UserOrders(os, ps, userId, limit, offset).value;
      && resp.data == ReshapeAll(Page(SortedGroups(os, ps, Strip(userId)), offset, limit))
      && |resp.data| <= limit
      && resp.page == Cursors(offset, limit, |resp.data|)
      && (forall i, j :: 0 <= i < j < |resp.data| ==> Parse(resp.data[i].id).value < Parse(resp.data[j].id).value)
  {
    var u := Strip(userId);
    AggregateIsWindow(os, ps, u, offset, limit);
    UserOrdersData(os, ps, userId, limit, offset);
    RenderedAscending(Aggregate(os, ps, u, offset, limit));
  }

  /** `d` is the response form of the reference view of one of `u`'s orders
      that kept an item: its surviving items and their total at current prices. */
  ghost predicate IsUserOrderDetails(os: seq<Order>, ps: seq<Product>, u: string, d: OrderListDetails) {
    exists k :: 0 <= k < |os| && os[k].userId == u && ViewItems(os[k].items, ps) != [] && d == Reshape(OrderView(os[k], ps))
  }

  /** Each order answered is the view of one of the stripped user's orders
      that kept an item. */
  lemma UserOrdersAreViews(os: seq<Order>, ps: seq<Product>, userId: string, limit: int, offset: int)
    requires UniqueOrderIds(os) && UniqueProductIds(ps)
    requires ValidListParams(userId, limit, offset) && Strip(userId) != []
    ensures UserOrders(os, ps, userId, limit, offset).Ok?
    ensures var data := UserOrders(os, ps, userId, limit, offset).value.data;
      forall i :: 0 <= i < |data| ==> IsUserOrderDetails(os, ps, Strip(userId), data[i])
  {
    var u := Strip(userId);
    var all := SortedGroups(os, ps, u);
    AggregateIsWindow(os, ps, u, offset, limit);
    UserOrdersData(os, ps, userId, limit, offset);
    SortedGroupsSound(os, ps, u);
    WindowOfViews(os, ps, u, all, Min(offset, |all|), Min(offset + limit, |all|));
  }

  /** For a non-blank `user_id`, the data is the reshaped window of the listing. */
  lemma UserOrdersData(os: seq<Order>, ps: seq<Product>, userId: string, limit: int, offset: int)
    requires ValidListParams(userId, limit, offset) && Strip(userId) != []
    ensures UserOrders(os, ps, userId, limit, offset).Ok?
    ensures UserOrders(os, ps, userId, limit, offset).value.data
         == ReshapeAll(Aggregate(os, ps, Strip(userId), offset, limit))
    ensures Aggregate(os, ps, Strip(userId), offset, limit) == Page(SortedGroups(os, ps, Strip(userId)), offset, limit)
  {
  }

  /** Views of the user's orders stay views once windowed and reshaped. */
  lemma WindowOfViews(os: seq<Order>, ps: seq<Product>, u: string, all: seq<Group>, a: nat, b: nat)
    requires a <= b <= |all|
    requires forall i :: 0 <= i < |all| ==> IsUserView(os, ps, u, all[i])
    ensures var data := ReshapeAll(all[a..b]);
      forall i :: 0 <= i < |data| ==> IsUserOrderDetails(os, ps, u, data[i])
  {
    var data := ReshapeAll(all[a..b]);
    forall i | 0 <= i < |data| ensures IsUserOrderDetails(os, ps, u, data[i]) {
      assert data[i] == Reshape(all[a + i]);
      assert IsUserView(os, ps, u, all[a + i]);
      var k :| 0 <= k < |os| && os[k].userId == u && ViewItems(os[k].items, ps) != [] && all[a + i] == OrderView(os[k], ps);
      assert data[i] == Reshape(OrderView(os[k], ps));
    }
  }

  /** Strictly ascending ids stay strictly ascending once rendered and parsed back. */
  lemma RenderedAscending(gs: seq<Group>)
    requires StrictlyAscending(gs)
    ensures var data := ReshapeAll(gs);
      forall i, j :: 0 <= i < j < |data| ==> Parse(data[i].id).value < Parse(data[j].id).value
  {
    forall i | 0 <= i < |gs| ensures Parse(ReshapeAll(gs)[i].id) == Some(gs[i].id) {
      ParseRender(gs[i].id);
    }
  }

  /** An order whose products all exist is listed for its user with every one
      of its items and the total of qty * current price over all of them. */
  lemma StoredOrderListed(os: seq<Order>, ps: seq<Product>, userId: string, k: nat)
    requires UniqueOrderIds(os) && UniqueProductIds(ps)
    requires k < |os| && os[k].userId == Strip(userId) && |os[k].items| > 0
    requires forall m :: 0 <= m < |os[k].items| ==> FindProduct(ps, os[k].items[m].productId).Some?
    ensures exists i :: 0 <= i < |SortedGroups(os, ps, Strip(userId))| && SortedGroups(os, ps, Strip(userId))[i] == OrderView(os[k], ps)
    ensures |OrderView(os[k], ps).items| == |os[k].items|
  {
    ViewKeepsFoundItems(os[k].items, ps);
    SortedGroupsComplete(os, ps, Strip(userId));
  }

  /** `create_order` stores the userId unstripped while the listing strips its
      parameter, so an order whose stored userId has surrounding whitespace is
      never listed, whatever `user_id` is asked for. */
  lemma PaddedUserIdNeverListed(os: seq<Order>, ps: seq<Product>, userId: string, k: nat)
    requires UniqueOrderIds(os) && UniqueProductIds(ps)
    requires k < |os| && Strip(os[k].userId) != os[k].userId
    ensures os[k].id !in Ids(SortedGroups(os, ps, Strip(userId)))
  {
    StripIdempotent(userId);
    OrderListedIff(os, ps, Strip(userId), k);
  }
}
