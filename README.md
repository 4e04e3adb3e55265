# E-commerce API backend: a Dafny model

This project models the four HTTP handlers of a small FastAPI service backed by
MongoDB, with the request and response schemas they use:

- `POST /products` (`create_product`) checks a product's business rules and inserts it.
- `GET /products` (`list_products`) filters products by an optional name term and an
  optional size, pages them with skip and limit, and computes `next`/`previous` cursors.
- `POST /orders` (`create_order`) checks an order and its items, converts product ids
  to ObjectIds, requires every referenced product to exist, and inserts the order.
- `GET /orders/{user_id}` (`get_user_orders`) runs an aggregation pipeline over the
  user's orders. The pipeline joins each item with its product, groups the rows by
  order with a total and a pushed item list, sorts by id, and pages the result.

The store is a `Database` class with two sequence fields, `products` and `orders`,
each a sequence in one fixed order, taken to be insertion order, with unique `_id`s. The create routes update it through
`InsertProduct` and `InsertOrder`. The listing routes are pure functions of the
collections. Each listing route, and each loop of every route, is a `method` proved
equal to a specification function. The create routes `CreateOrder` and
`CreateProduct` are specified instead by two-state postconditions. These say how
the new store relates to the old one, using the rule functions `OrderRules` and
`ProductRules`. Lemmas about those functions state what the routes promise:
which requests are refused and with which message, what is inserted, and
which orders and products are listed, in what order and with what totals.

The package has two copies of each router, `app/api/` and `app/routers/`. They are
identical line for line, so the model follows `app/routers/`. Every line cited
below for `app/routers/orders.py` or `app/routers/products.py` also holds for
`app/api/orders.py` or `app/api/products.py`.

Behaviours of the code that the model makes explicit:

- The product-existence check in `create_order` compares the number of distinct
  existing ids with the number of items. So an order that names one product in two
  items is refused with "One or more products do not exist" (`Orders.CountCheckIff`).
- `create_order` stores the userId as given, unstripped. The listing strips its path
  parameter. So an order whose userId has surrounding whitespace is never listed
  (`Orders.PaddedUserIdNeverListed`).
- An order's listed items are only those whose product still exists, because
  `$lookup` followed by `$unwind` is an inner join. Its total is computed at current
  prices. An order none of whose products exists is not listed at all
  (`Pipeline.OrderListedIff`).
- `previous` is `offset - limit` whenever `offset > 0`. It is negative exactly
  when `0 < offset < limit` (`Pagination.PreviousMayBeNegative`).
- `next` is present whenever the page came back full, even at the exact end of the
  listing (`Pagination.FullLastPageHasNext`).
- In `list_products`, a name made only of whitespace filters nothing. A size made
  only of whitespace becomes the empty size, so it matches only products with an
  empty size entry.
- `list_products` declares `limit` with `ge=1` and no upper bound, and `name`/`size`
  with no length bound. `ProductQueryParams` in `app/models.py` bounds them, but no
  route uses it. The model follows the route.

## Model

| member | source | states |
|---|---|---|
| Text.Strip | app/routers/orders.py:30 | the result is the infix of the input left after removing Python whitespace from both ends; it neither starts nor ends with whitespace |
| Text.StripEmptyIff | app/routers/orders.py:30 | `not s.strip()` holds exactly when every character of `s` is whitespace |
| Text.StripIdempotent | app/routers/orders.py:83 | stripping an already stripped string changes nothing |
| Text.ParseIntToString | app/routers/orders.py:125-126 | every cursor string `str(n)`, negative ones included, reads back as `n` |
| ObjectIds.Parse | app/routers/orders.py:41-46 | `ObjectId(s)` succeeds for a string precisely when it is 24 hexadecimal digits, as the model treats ids |
| ObjectIds.Render | app/routers/orders.py:54 | `str(oid)` is a valid id string of 24 lower-case hexadecimal digits |
| ObjectIds.ParseRender | app/routers/orders.py:119 | parsing a rendered id gives the same id back |
| ObjectIds.RenderParse | app/routers/orders.py:42 | a lower-case valid id string survives parse-then-render unchanged |
| Store.CountDocuments | app/routers/orders.py:49 | the count never exceeds the size of the collection |
| Store.CountDocumentsUnique | app/routers/orders.py:49 | with unique `_id`s, the `$in` count is the number of requested ids that exist |
| Store.Database.InsertProduct | app/routers/products.py:37 | the insert succeeds exactly when the id is new; it then appends the product, otherwise nothing changes; orders are untouched and ids stay unique |
| Store.Database.InsertOrder | app/routers/orders.py:53 | the insert succeeds exactly when the id is new; it then appends the order, otherwise nothing changes; products are untouched and ids stay unique |
| Models.ValidSizeQuantity | app/models.py:10 | a size entry is valid iff its quantity is at least 0 |
| Models.ValidProductCreate | app/models.py:14-16 | a product request is valid iff its name is non-empty, its price positive, it has at least one size and every size entry is valid |
| Models.ValidOrderItemCreate | app/models.py:45 | an order item is valid iff its quantity is positive |
| Models.ValidOrderCreate | app/models.py:50 | an order request is valid iff it has at least one item and every item is valid; the userId is unconstrained |
| Models.ValidProductQueryParams | app/models.py:81-84 | name at most 100 characters, size at most 20, `1 <= limit <= 100`, `offset >= 0` |
| Models.ValidOrderQueryParams | app/models.py:88-89 | `1 <= limit <= 100` and `offset >= 0` |
| Pagination.Skip | app/routers/orders.py:112 | the result is the input from position `n` on, or empty past the end |
| Pagination.Limit | app/routers/products.py:83 | `cursor.limit(n)`, and for `n >= 1` the `$limit` stage: the result is the prefix of length `min(n, len)`, and the whole input for `n` = 0 (which only `cursor.limit` accepts; neither route passes it) |
| Pagination.PageIsWindow | app/routers/products.py:83 | skip-then-limit is the `[offset, offset+limit)` window cut to the end, at most `limit` long |
| Pagination.PagesArePrefix | app/routers/products.py:91 | following `next` from offset 0 for `n` pages reads the first `n*limit` elements exactly once, in order |
| Pagination.ShortPageEndsListing | app/routers/products.py:91 | once a page comes back short, the pages read so far are the whole listing |
| Pagination.Cursors | app/routers/products.py:91-101 | `next` is present iff the page is full and decodes to `offset+limit`; `previous` is present iff `offset > 0` and decodes to `offset-limit`; limit and offset are echoed |
| Pagination.PreviousMayBeNegative | app/routers/orders.py:126 | for `0 < offset < limit`, `previous` decodes to a negative offset, e.g. "-5" for offset 5 and limit 10 |
| Pagination.FullLastPageHasNext | app/routers/orders.py:125 | a page that ends exactly at the end of the listing still yields `next`, and that offset reads an empty page |
| Pipeline.MatchUser | app/routers/orders.py:88 | every kept order belongs to the user and comes from the collection, and every order of the user is kept |
| Pipeline.UnwindItems | app/routers/orders.py:89 | `$unwind` of `items`: one row per item of each order, carrying the order's id and the item, orders and items in their stored order (definition) |
| Pipeline.ProductsWithId | app/routers/orders.py:90-97 | `productInfo` holds only stored products with the item's product id |
| Pipeline.Lookup | app/routers/orders.py:90-97 | `$lookup`: each row, in order, gains the `productInfo` array of the stored products whose `_id` is the item's product id |
| Pipeline.UnwindInfo | app/routers/orders.py:98 | `$unwind` of `productInfo`: one joined row per element of each row's array, so a row with an empty array is dropped (definition) |
| Pipeline.SortById | app/routers/orders.py:111 | the result is a permutation of the groups, sorted by id |
| Pipeline.GroupById | app/routers/orders.py:99-110 | `$group` by order id: the rows are fed one at a time; a new key starts a group with total `qty * price` and a one-element pushed list, a known key adds to its total and appends `{productDetails: {id, name}, qty}` (definition; its meaning is `GroupByIdCorrect`) |
| Pipeline.GroupByIdCorrect | app/routers/orders.py:99-110 | the streaming `$group` yields one group per order id of the joined rows, with distinct keys; each group's total and items are the sum and the pushed list over exactly that order's rows, in row order |
| Pipeline.FindProduct | app/routers/orders.py:90-97 | the found product is stored with that id; none is found only when no stored product has it |
| Pipeline.ViewKeepsFoundItems | app/routers/orders.py:98-108 | when all of an order's products exist, its view keeps every item in order, each with its product's id and name and the item's quantity |
| Pipeline.ViewEmptyIff | app/routers/orders.py:98 | an order's view keeps no item exactly when none of its products exists |
| Pipeline.GroupIsView | app/routers/orders.py:87-110 | every `$group` output is the view of one of the user's orders that kept an item |
| Pipeline.ViewIsGroup | app/routers/orders.py:87-110 | the view of every such order is among the `$group` outputs |
| Pipeline.SortedGroupsAscending | app/routers/orders.py:111 | after `$sort` the ids strictly ascend, because the group keys are unique |
| Pipeline.SortedGroupsSound | app/routers/orders.py:87-111 | every sorted group is the view of one of the user's orders that kept an item |
| Pipeline.SortedGroupsComplete | app/routers/orders.py:87-111 | every order of the user that kept an item appears, as its view, among the sorted groups |
| Pipeline.OrderListedIff | app/routers/orders.py:87-111 | an order is listed for a user iff it is that user's order and at least one of its products exists |
| Pipeline.AggregateIsWindow | app/routers/orders.py:111-113 | the pipeline returns the `[offset, offset+limit)` window of the sorted groups, at most `limit` of them, strictly ascending |
| Pipeline.Aggregate | app/routers/orders.py:87-114 | the whole pipeline: `$match`, both `$unwind`s with the `$lookup` between them, `$group`, `$sort`, then `$skip` and `$limit` (definition) |
| Orders.ProductIdList | app/routers/orders.py:35-44 | `product_ids` has one entry per item, in item order, duplicates kept |
| Orders.ConvertItems | app/routers/orders.py:36-45 | the item loop as a function: the first item with a non-positive qty or a malformed id gives its 400 error; otherwise every item with its id converted, in order (definition; see `ConvertItemsOk`, `ConvertItemsFirstError`) |
| Orders.OrderRules | app/routers/orders.py:27-53 | the create decision: empty items, blank userId, the item loop, then the count check, each with its 400 detail, or the document to insert (definition; see `OrderRulesAccepts`) |
| Store.IdSet | app/routers/orders.py:49 | the `$in` set holds exactly the ids in the list |
| Orders.ConvertItemsOk | app/routers/orders.py:37-46 | when every item passes, the loop converts each item in order |
| Orders.ConvertItemsFirstError | app/routers/orders.py:37-46 | the first failing item decides the error |
| Orders.CheckOrder | app/routers/orders.py:27-51 | the checks run in source order and give the order-rules decision: the error raised or the document to insert |
| Orders.CheckItem | app/routers/orders.py:38-46 | an item passes iff its quantity is positive and its product id is well formed; it is then converted, and otherwise rejected with the quantity error first, then the invalid-id error naming the id |
| Orders.ConvertLoop | app/routers/orders.py:34-46 | the item loop gives the first failing item's error, or the converted items with `product_ids` listing their ids |
| Orders.IdSetSize | app/routers/orders.py:49-50 | the `$in` set has as many ids as the list exactly when the list has no repeat |
| Orders.CountCheckIff | app/routers/orders.py:48-51 | the count equals `len(product_ids)` iff every id names an existing product and no id repeats |
| Orders.OrderRulesAccepts | app/routers/orders.py:27-53 | an order is accepted iff it has items, a non-blank userId, positive quantities, well-formed product ids, existing products and no repeated product. What is inserted is the userId as given and the converted items |
| Orders.OrderRulesErrors | app/routers/orders.py:37-46 | a rejected item gives the error of the first failing item; a non-positive quantity gives "Item quantity must be greater than 0" |
| Orders.SchemaValidOrderErrors | app/routers/orders.py:27-51 | for a schema-valid request, the only errors left are a blank userId, a malformed product id (named in the message) and a missing product |
| Orders.FirstFailure | app/routers/orders.py:37-46 | when some item fails, the error is that of a failing item |
| Orders.CreateOrder | app/routers/orders.py:25-59 | a rejection returns its error and leaves the store unchanged; a taken id gives the 500 "Failed to create order"; otherwise the route returns the rendered new id and appends the order; products never change |
| Orders.ReshapeAll | app/routers/orders.py:117-123 | each returned document is reshaped, in order, with its ids rendered |
| Orders.GetUserOrders | app/routers/orders.py:81-136 | the route's reshaping loops give exactly the specified listing answer |
| Orders.UserOrders | app/routers/orders.py:81-136 | the listing answer: a 400 for a blank stripped `user_id`, otherwise the reshaped pipeline output for the stripped id with its cursors (definition; see `UserOrdersPage`) |
| Orders.ReshapeDocs | app/routers/orders.py:117-123 | the loop over the returned documents builds exactly their reshaped list, in order |
| Orders.ReshapeDoc | app/routers/orders.py:119-123 | one document becomes its `OrderListDetails`: rendered order id, every item with its rendered product id, name and qty, and the total |
| Orders.UserOrdersBlankIff | app/routers/orders.py:83-85 | the listing is refused iff `user_id` is all whitespace, and then with "User ID cannot be empty" |
| Orders.UserOrdersPage | app/routers/orders.py:83-136 | for a non-blank `user_id`, the data is the reshaped `[offset, offset+limit)` window of the sorted listing for the stripped id: at most `limit` orders, ids parsing to strictly ascending values, with cursors computed from the count returned |
| Orders.UserOrdersAreViews | app/routers/orders.py:87-123 | every order answered is the reshaped view of one of the stripped user's orders that kept an item |
| Orders.RenderedAscending | app/routers/orders.py:111-119 | strictly ascending ids stay strictly ascending after render and parse back |
| Orders.StoredOrderListed | app/routers/orders.py:87-111 | an order whose products all exist is listed for its user with all of its items, and a total of qty times current price |
| Orders.PaddedUserIdNeverListed | app/routers/orders.py:30-31 | an order stored with a userId that has surrounding whitespace is listed for no `user_id` |
| Products.CheckProduct | app/routers/products.py:26-34 | the checks, quantities one size at a time, give the product-rules decision |
| Products.ProductRules | app/routers/products.py:26-34 | the create decision: price, then sizes, then any negative quantity, each with its 400 detail, or the product unchanged (definition; see `ProductRulesMatchSchema`) |
| Products.ProductRulesMatchSchema | app/routers/products.py:26-34 | for a non-empty name, the route's rules accept a product iff the schema does; an accepted product is kept unchanged |
| Products.CreateProduct | app/routers/products.py:24-43 | a rejection returns its error and changes nothing; a taken id gives the 500 "Failed to create product"; otherwise the route returns the rendered new id and appends the product; orders never change |
| Products.FilterProducts | app/routers/products.py:83 | `find` keeps exactly the stored products that match the query, with their relative order |
| Products.ListAll | app/routers/products.py:85-88 | each document becomes its id, name and price, in order |
| Products.ListProducts | app/routers/products.py:67-102 | the route's query building and projection loop give exactly the specified listing answer |
| Products.ProductListing | app/routers/products.py:67-102 | the listing answer: the query's error, or the projection of the skip/limit page of the matching products with its cursors (definition; see `ProductListingPage`) |
| Products.BuildQuery | app/routers/products.py:68-80 | filling the query one parameter at a time gives the specified query or error |
| Products.QueryFor | app/routers/products.py:68-80 | the query: a non-empty name is stripped and refused over 100 characters, a non-empty size stripped and refused over 20, the name error first; an absent or empty parameter adds no filter (definition) |
| Products.Matches | app/routers/products.py:68-80 | a product matches when its name contains the stripped term ignoring case, if a term is given, and one of its size entries equals the size, if one is given (definition) |
| Text.ContainsIgnoringCase | app/routers/products.py:74 | the `$regex` of an escaped term with option `i`: the lower-cased term occurs in the lower-cased name (definition) |
| Products.ProjectAll | app/routers/products.py:85-88 | the projection loop gives the projection of every document, in order |
| Products.StripNoLonger | app/routers/products.py:71-72 | stripping never lengthens a parameter |
| Products.BoundedParamsAccepted | app/models.py:81-84 | parameters within the ProductQueryParams bounds are never refused |
| Products.FilterSameMatches | app/routers/products.py:83 | two queries that match the same products filter the same way |
| Products.BlankNameFiltersNothing | app/routers/products.py:69-74 | a whitespace-only name gives the same answer as no name |
| Products.BlankSizeMatchesEmptySize | app/routers/products.py:76-80 | a whitespace-only size becomes the empty size, so only products with an empty size entry match |
| Products.NameMatchIgnoresCase | app/routers/products.py:74 | the name match is unchanged when the term and the name are lower-cased |
| Products.ProductListingPage | app/routers/products.py:67-102 | an accepted listing is the `[offset, offset+limit)` window of the matching products in collection order, at most `limit` long; every entry is a stored matching product; the cursors follow the count |
| Products.FilterConcat | app/routers/products.py:83 | filtering distributes over concatenation, so the collection order is kept |
| Products.InsertedProductListedLast | app/routers/products.py:37-38 | a matching product inserted after the others is listed after them |

## Left out

- I/O, the async driver and the event loop are not modelled. Routes are functions and methods over the two collections.
- Concurrency is not modelled. In particular, a product deleted between the count and the insert of an order is not modelled.
- The catch-all `except Exception` 500 responses are modelled only for a failed insert, which is a duplicate `_id`. Other failures of the database are not modelled. This covers "Failed to retrieve orders" and "Failed to retrieve products".
- Orders.CreateOrder, Orders.UserOrders and Products.ProductListing: integers are unbounded here, but BSON stores at most signed 64-bit integers. The driver raises an error for a larger value, and the routes answer that with their catch-all 500. Such inputs include a `qty` of 2^63 or more in an order, which makes `insert_one` fail. They also include an `offset` of 2^63 or more in either listing, and a products `limit` of 2^63 or more, which has no upper bound. For all of these the model answers as if the value were stored or sent: it accepts and appends the order, or returns a page. If request parsing already refuses such values, the answer is a 422, which the next line leaves out too.
- FastAPI's request parsing and Pydantic's coercion are not modelled. The schema constraints are predicates in `Models`. The routes' models assume an already parsed request, and the listing functions require the declared `Query`/`Path` bounds.
- Prices and totals are exact reals, not IEEE doubles. Rounding in `$sum` and `$multiply` is not modelled.
- ObjectIds.Parse: a string is taken as a valid id exactly when it is 24 hexadecimal digits. The bson library's own decoding is not part of this model. If that decoding also tolerates whitespace between digit pairs, such strings are ones the model rejects.
- ObjectIds are their 96-bit value. The timestamp, counter and process parts, and how the driver picks a new id, are not modelled. The new id is a parameter of the create methods.
- Products.ProductListing, Products.ProductListingPage, Products.FilterConcat, Products.InsertedProductListedLast: the products collection is taken to be in insertion order and to keep that order from one request to the next. `find` at app/routers/products.py:83 has no sort, and MongoDB promises neither for an unsorted `find`. So which products a given page holds, and that a new product is listed last, follow from this assumption and not from the program. Pagination.PagesArePrefix and Pagination.ShortPageEndsListing describe a walk over the products listing only under the same assumption. The orders listing sorts on `_id` and does not depend on it.
- Case-insensitive matching is ASCII only. Unicode case folding in the regex engine is not modelled.
- The regex engine is modelled only for a literal term, which is what `re.escape` produces. Escaping itself is not modelled.
- Orders.ConvertLoop: the in-place rewrite of `order_dict["items"]` is modelled as a new list of converted items.
- Orders.ReshapeDoc: the in-place rewrite of each returned document is modelled as building the response record.
- `ProductQueryParams` and `OrderQueryParams` appear only as predicates. No route takes them as a model.
- `datetime` is imported by `app/models.py` and not used. `app/main.py` and `app/database.py` set up the application and the connection, and are not part of this model.
