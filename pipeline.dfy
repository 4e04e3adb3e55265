/** The aggregation pipeline `get_user_orders` sends to the orders collection,
    stage by stage: `$match` on userId, `$unwind` of the items, `$lookup` of
    each item's product and `$unwind` of the result (an inner join), `$group`
    by order id with a `$sum` and a `$push` accumulator, `$sort` on the id,
    then `$skip` and `$limit`. Beside the stages stands a reference definition
    of one order's view (its surviving items and their total), and the lemmas
    that tie the pipeline's output to it. */
module Pipeline {
  import opened Wrappers
  import opened ObjectIds
  import opened Store
  import opened Pagination

  /** An order after `$unwind: "$items"`: one document per item. */
  datatype Row = Row(orderId: ObjectId, item: Item)

  /** A row after `$lookup`: `productInfo` holds every product whose `_id` is the item's productId. */
  datatype LookedUp = LookedUp(orderId: ObjectId, item: Item, productInfo: seq<Product>)

  /** A row after `$unwind: "$productInfo"`: one document per matching product. */
  datatype Joined = Joined(orderId: ObjectId, item: Item, product: Product)

  /** `{productDetails: {id, name}, qty}` as `$push` builds it. */
  datatype GroupItem = GroupItem(productId: ObjectId, name: string, qty: int)

  /** One `$group` output document. */
  datatype Group = Group(id: ObjectId, total: real, items: seq<GroupItem>)

  // ---------------------------------------------------------------------
  // The stages

  /** `{"$match": {"userId": userId}}` */
  function MatchUser(os: seq<Order>, userId: string): (r: seq<Order>)
    ensures |r| <= |os|
    ensures forall k :: 0 <= k < |r| ==> r[k].userId == userId && r[k] in os
    ensures forall k :: 0 <= k < |os| && os[k].userId == userId ==> os[k] in r
  {
    if os == [] then []
    else
      var rest := MatchUser(os[1..], userId);
      assert forall k :: 1 <= k < |os| ==> os[k] == os[1..][k - 1];
      (if os[0].userId == userId then [os[0]] else []) + rest
  }

  function ItemRows(id: ObjectId, items: seq<Item>): (r: seq<Row>)
    ensures |r| == |items|
    ensures forall k :: 0 <= k < |r| ==> r[k] == Row(id, items[k])
  {
    if items == [] then [] else [Row(id, items[0])] + ItemRows(id, items[1..])
  }

  /** `{"$unwind": "$items"}` */
  function UnwindItems(os: seq<Order>): seq<Row> {
    if os == [] then [] else ItemRows(os[0].id, os[0].items) + UnwindItems(os[1..])
  }

  /** The `productInfo` array `$lookup` attaches: products whose `_id` equals `id`. */
  function ProductsWithId(ps: seq<Product>, id: ObjectId): (r: seq<Product>)
    ensures forall k :: 0 <= k < |r| ==> r[k].id == id && r[k] in ps
  {
    if ps == [] then []
    else (if ps[0].id == id then [ps[0]] else []) + ProductsWithId(ps[1..], id)
  }

  /** `{"$lookup": {"from": "products", "localField": "items.productId", "foreignField": "_id", "as": "productInfo"}}` */
  function Lookup(rows: seq<Row>, ps: seq<Product>): (r: seq<LookedUp>)
    ensures |r| == |rows|
    ensures forall k :: 0 <= k < |r| ==>
      r[k] == LookedUp(rows[k].orderId, rows[k].item, ProductsWithId(ps, rows[k].item.productId))
  {
    if rows == [] then []
    else [LookedUp(rows[0].orderId, rows[0].item, ProductsWithId(ps, rows[0].item.productId))]
         + Lookup(rows[1..], ps)
  }

  function InfoRows(l: LookedUp): (r: seq<Joined>)
    ensures |r| == |l.productInfo|
  {
    seq(|l.productInfo|, k requires 0 <= k < |l.productInfo| => Joined(l.orderId, l.item, l.productInfo[k]))
  }

  /** `{"$unwind": "$productInfo"}`: a row whose `productInfo` is empty disappears. */
  function UnwindInfo(ls: seq<LookedUp>): seq<Joined> {
    if ls == [] then [] else InfoRows(ls[0]) + UnwindInfo(ls[1..])
  }

  /** `$multiply: ["$items.qty", "$productInfo.price"]` */
  function Amount(j: Joined): real {
    j.item.qty as real * j.product.price
  }

  /** The document `$push` appends for a row. */
  function Detail(j: Joined): GroupItem {
    GroupItem(j.product.id, j.product.name, j.item.qty)
  }

  function Ids(gs: seq<Group>): (r: seq<ObjectId>)
    ensures |r| == |gs| && forall k :: 0 <= k < |gs| ==> r[k] == gs[k].id
  {
    IdList(gs, (g: Group) => g.id)
  }

  /** The position of the group with key `id`, or -1. */
  function IndexOf(gs: seq<Group>, id: ObjectId): (k: int)
    ensures -1 <= k < |gs|
    ensures k >= 0 ==> gs[k].id == id
    ensures k < 0 ==> id !in Ids(gs)
  {
    if gs == [] then -1
    else if gs[|gs| - 1].id == id then |gs| - 1
    else IndexOf(gs[..|gs| - 1], id)
  }

  /** Feeds one row to `$group`: the accumulators of the row's group are
      updated, or a new group is started when its key is new. */
  function Accumulate(gs: seq<Group>, j: Joined): seq<Group> {
    var k := IndexOf(gs, j.orderId);
    if k < 0 then gs + [Group(j.orderId, Amount(j), [Detail(j)])]
    else gs[k := Group(gs[k].id, gs[k].total + Amount(j), gs[k].items + [Detail(j)])]
  }

  /** `{"$group": {"_id": "$_id", "total": {"$sum": ...}, "items": {"$push": ...}}}`:
      the rows are fed in order; groups appear in the order their keys first occur. */
  function GroupById(js: seq<Joined>): seq<Group> {
    if js == [] then [] else Accumulate(GroupById(js[..|js| - 1]), js[|js| - 1])
  }

  ghost predicate SortedById(gs: seq<Group>) {
    forall i, j :: 0 <= i < j < |gs| ==> gs[i].id <= gs[j].id
  }

  ghost predicate StrictlyAscending(gs: seq<Group>) {
    forall i, j :: 0 <= i < j < |gs| ==> gs[i].id < gs[j].id
  }

  ghost predicate DistinctIds(gs: seq<Group>) {
    forall i, j :: 0 <= i < j < |gs| ==> gs[i].id != gs[j].id
  }

  function InsertById(g: Group, gs: seq<Group>): (r: seq<Group>)
    ensures multiset(r) == multiset(gs) + multiset{g}
  {
    if gs == [] || g.id <= gs[0].id then [g] + gs
    else
      assert gs == [gs[0]] + gs[1..];
      [gs[0]] + InsertById(g, gs[1..])
  }

  /** Every element of `InsertById(g, gs)` other than `g` comes from `gs`. */
  lemma FromInsert(g: Group, gs: seq<Group>, x: Group)
    requires x in InsertById(g, gs) && x != g
    ensures exists m :: 0 <= m < |gs| && gs[m] == x
  {
    assert x in multiset(InsertById(g, gs));
  }

  lemma {:induction false} InsertSorted(g: Group, gs: seq<Group>)
    requires SortedById(gs)
    ensures SortedById(InsertById(g, gs))
  {
    if gs != [] && g.id > gs[0].id {
      var rest := InsertById(g, gs[1..]);
      InsertSorted(g, gs[1..]);
      forall k | 0 <= k < |rest| ensures gs[0].id <= rest[k].id {
        if rest[k] != g {
          FromInsert(g, gs[1..], rest[k]);
          var m :| 0 <= m < |gs[1..]| && gs[1..][m] == rest[k];
          assert gs[m + 1] == rest[k];
        }
      }
    }
  }

  lemma {:induction false} InsertStrict(g: Group, gs: seq<Group>)
    requires StrictlyAscending(gs)
    requires forall k :: 0 <= k < |gs| ==> gs[k].id != g.id
    ensures StrictlyAscending(InsertById(g, gs))
  {
    if gs != [] && g.id > gs[0].id {
      var rest := InsertById(g, gs[1..]);
      InsertStrict(g, gs[1..]);
      forall k | 0 <= k < |rest| ensures gs[0].id < rest[k].id {
        if rest[k] != g {
          FromInsert(g, gs[1..], rest[k]);
          var m :| 0 <= m < |gs[1..]| && gs[1..][m] == rest[k];
          assert gs[m + 1] == rest[k];
        }
      }
    }
  }

  /** `{"$sort": {"_id": 1}}`: the result is ascending in the id and a
      permutation of the input. */
  function SortById(gs: seq<Group>): (r: seq<Group>)
    ensures multiset(r) == multiset(gs)
    ensures SortedById(r)
  {
    if gs == [] then []
    else
      var rest := SortById(gs[1..]);
      assert gs == [gs[0]] + gs[1..];
      InsertSorted(gs[0], rest);
      InsertById(gs[0], rest)
  }

  /** With distinct keys the sorted groups are strictly ascending. */
  lemma {:induction false} SortStrict(gs: seq<Group>)
    requires DistinctIds(gs)
    ensures StrictlyAscending(SortById(gs))
  {
    if gs != [] {
      var rest := SortById(gs[1..]);
      SortStrict(gs[1..]);
      forall k | 0 <= k < |rest| ensures rest[k].id != gs[0].id {
        assert rest[k] in multiset(gs[1..]);
        var m :| 0 <= m < |gs[1..]| && gs[1..][m] == rest[k];
        assert gs[m + 1] == rest[k];
      }
      InsertStrict(gs[0], rest);
    }
  }

  // ---------------------------------------------------------------------
  // What `$group` computes, stated per key

  /** The joined rows that belong to order `id`, in pipeline order. */
  function RowsOf(js: seq<Joined>, id: ObjectId): (r: seq<Joined>)
    ensures forall k :: 0 <= k < |r| ==> r[k].orderId == id
  {
    if js == [] then []
    else (if js[0].orderId == id then [js[0]] else []) + RowsOf(js[1..], id)
  }

  /** The sum of `qty * price` over some rows. */
  function TotalOf(js: seq<Joined>): real {
    if js == [] then 0.0 else Amount(js[0]) + TotalOf(js[1..])
  }

  /** The `$push`ed item documents of some rows. */
  function DetailsOf(js: seq<Joined>): (r: seq<GroupItem>)
    ensures |r| == |js| && forall k :: 0 <= k < |js| ==> r[k] == Detail(js[k])
  {
    seq(|js|, k requires 0 <= k < |js| => Detail(js[k]))
  }

  lemma {:induction false} RowsOfConcat(a: seq<Joined>, b: seq<Joined>, id: ObjectId)
    ensures RowsOf(a + b, id) == RowsOf(a, id) + RowsOf(b, id)
  {
    if a == [] {
      assert a + b == b;
    } else {
      assert (a + b)[0] == a[0] && (a + b)[1..] == a[1..] + b;
      RowsOfConcat(a[1..], b, id);
    }
  }

  lemma {:induction false} TotalOfConcat(a: seq<Joined>, b: seq<Joined>)
    ensures TotalOf(a + b) == TotalOf(a) + TotalOf(b)
  {
    if a == [] {
      assert a + b == b;
    } else {
      assert (a + b)[0] == a[0] && (a + b)[1..] == a[1..] + b;
      TotalOfConcat(a[1..], b);
    }
  }

  lemma DetailsOfConcat(a: seq<Joined>, b: seq<Joined>)
    ensures DetailsOf(a + b) == DetailsOf(a) + DetailsOf(b)
  {
  }

  /** `gs` is what `$group` must produce from `js`: one group per order id
      occurring in `js`, keys distinct, and each group's `total` and `items`
      the sum and the pushed list over exactly that order's rows. */
  ghost predicate GroupsOf(gs: seq<Group>, js: seq<Joined>) {
    && DistinctIds(gs)
    && (forall k :: 0 <= k < |gs| ==>
          gs[k].total == TotalOf(RowsOf(js, gs[k].id)) && gs[k].items == DetailsOf(RowsOf(js, gs[k].id)))
    && (forall id: ObjectId :: id in Ids(gs) <==> RowsOf(js, id) != [])
  }

  lemma RowsOfSnoc(init: seq<Joined>, j: Joined, id: ObjectId)
    ensures RowsOf(init + [j], id) == RowsOf(init, id) + (if j.orderId == id then [j] else [])
  {
    RowsOfConcat(init, [j], id);
    assert [j][1..] == [];
  }

  /** A row whose key has no group yet starts a new group at the end. */
  lemma AccumulateNew(gs: seq<Group>, init: seq<Joined>, j: Joined)
    requires GroupsOf(gs, init)
    requires IndexOf(gs, j.orderId) < 0
    ensures GroupsOf(Accumulate(gs, j), init + [j])
  {
    var g := Group(j.orderId, Amount(j), [Detail(j)]);
    assert Accumulate(gs, j) == gs + [g];
    NewKeyFresh(gs, init, j);
    NewGroupAccumulators(gs, init, j);
    NewGroupIds(gs, init, j);
  }

  lemma NewKeyFresh(gs: seq<Group>, init: seq<Joined>, j: Joined)
    requires GroupsOf(gs, init)
    requires j.orderId !in Ids(gs)
    ensures forall i :: 0 <= i < |gs| ==> gs[i].id != j.orderId
    ensures RowsOf(init, j.orderId) == []
    ensures DistinctIds(gs + [Group(j.orderId, Amount(j), [Detail(j)])])
  {
    forall i | 0 <= i < |gs| ensures gs[i].id != j.orderId {
      assert Ids(gs)[i] == gs[i].id;
    }
  }

  lemma NewGroupAccumulators(gs: seq<Group>, init: seq<Joined>, j: Joined)
    requires GroupsOf(gs, init)
    requires forall i :: 0 <= i < |gs| ==> gs[i].id != j.orderId
    requires RowsOf(init, j.orderId) == []
    ensures var r, js := gs + [Group(j.orderId, Amount(j), [Detail(j)])], init + [j];
      forall k :: 0 <= k < |r| ==>
        r[k].total == TotalOf(RowsOf(js, r[k].id)) && r[k].items == DetailsOf(RowsOf(js, r[k].id))
  {
    var js, x := init + [j], j.orderId;
    RowsOfSnoc(init, j, x);
    assert RowsOf(js, x) == [j];
    assert TotalOf([j]) == Amount(j) + TotalOf([]);
    forall i | 0 <= i < |gs| ensures RowsOf(js, gs[i].id) == RowsOf(init, gs[i].id) {
      RowsOfSnoc(init, j, gs[i].id);
    }
  }

  lemma NewGroupIds(gs: seq<Group>, init: seq<Joined>, j: Joined)
    requires GroupsOf(gs, init)
    ensures var r, js := gs + [Group(j.orderId, Amount(j), [Detail(j)])], init + [j];
      forall id: ObjectId :: id in Ids(r) <==> RowsOf(js, id) != []
  {
    var r, js := gs + [Group(j.orderId, Amount(j), [Detail(j)])], init + [j];
    assert Ids(r) == Ids(gs) + [j.orderId];
    forall id: ObjectId ensures id in Ids(r) <==> RowsOf(js, id) != [] {
      RowsOfSnoc(init, j, id);
    }
  }

  /** A row whose key already has a group updates that group's accumulators. */
  lemma AccumulateExisting(gs: seq<Group>, init: seq<Joined>, j: Joined)
    requires GroupsOf(gs, init)
    requires IndexOf(gs, j.orderId) >= 0
    ensures GroupsOf(Accumulate(gs, j), init + [j])
  {
    var js, x, k := init + [j], j.orderId, IndexOf(gs, j.orderId);
    var r := Accumulate(gs, j);
    RowsOfSnoc(init, j, x);
    TotalOfConcat(RowsOf(init, x), [j]);
    assert TotalOf([j]) == Amount(j) + TotalOf([]);
    assert r[k].total == TotalOf(RowsOf(js, x));
    assert r[k].items == DetailsOf(RowsOf(js, x));
    forall i | 0 <= i < |gs| && i != k ensures RowsOf(js, gs[i].id) == RowsOf(init, gs[i].id) {
      RowsOfSnoc(init, j, gs[i].id);
    }
    assert Ids(r) == Ids(gs);
    forall id: ObjectId ensures id in Ids(r) <==> RowsOf(js, id) != [] {
      RowsOfSnoc(init, j, id);
    }
  }

  lemma AccumulateCorrect(gs: seq<Group>, init: seq<Joined>, j: Joined)
    requires GroupsOf(gs, init)
    ensures GroupsOf(Accumulate(gs, j), init + [j])
  {
    if IndexOf(gs, j.orderId) < 0 {
      AccumulateNew(gs, init, j);
    } else {
      AccumulateExisting(gs, init, j);
    }
  }

  /** `$group`'s streaming accumulation computes exactly the per-key view. */
  lemma {:induction false} GroupByIdCorrect(js: seq<Joined>)
    ensures GroupsOf(GroupById(js), js)
  {
    if js != [] {
      var init := js[..|js| - 1];
      assert js == init + [js[|js| - 1]];
      GroupByIdCorrect(init);
      AccumulateCorrect(GroupById(init), init, js[|js| - 1]);
    }
  }

  // ---------------------------------------------------------------------
  // Reference definition: what one order looks like in the listing

  /** The product with `_id == id`, if there is one. */
  function FindProduct(ps: seq<Product>, id: ObjectId): (r: Option<Product>)
    ensures r.Some? ==> r.value in ps && r.value.id == id
    ensures r.None? ==> forall k :: 0 <= k < |ps| ==> ps[k].id != id
  {
    if ps == [] then None
    else if ps[0].id == id then Some(ps[0])
    else FindProduct(ps[1..], id)
  }

  /** The order's items whose product still exists, each shown with that
      product's id and name and the item's quantity, in item order. */
  function ViewItems(items: seq<Item>, ps: seq<Product>): seq<GroupItem> {
    if items == [] then []
    else
      (match FindProduct(ps, items[0].productId)
       case Some(p) => [GroupItem(p.id, p.name, items[0].qty)]
       case None => [])
      + ViewItems(items[1..], ps)
  }

  /** The sum of `qty * price` over the order's items whose product still exists,
      at the product's current price. */
  function ViewTotal(items: seq<Item>, ps: seq<Product>): real {
    if items == [] then 0.0
    else
      (match FindProduct(ps, items[0].productId)
       case Some(p) => items[0].qty as real * p.price
       case None => 0.0)
      + ViewTotal(items[1..], ps)
  }

  function OrderView(o: Order, ps: seq<Product>): Group {
    Group(o.id, ViewTotal(o.items, ps), ViewItems(o.items, ps))
  }

  /** An order's items all survive the join when all of its products exist. */
  lemma {:induction false} ViewKeepsFoundItems(items: seq<Item>, ps: seq<Product>)
    requires forall k :: 0 <= k < |items| ==> FindProduct(ps, items[k].productId).Some?
    ensures |ViewItems(items, ps)| == |items|
    ensures forall k :: 0 <= k < |items| ==>
      var p := FindProduct(ps, items[k].productId).value;
      ViewItems(items, ps)[k] == GroupItem(p.id, p.name, items[k].qty)
  {
    if items != [] {
      ViewKeepsFoundItems(items[1..], ps);
    }
  }

  /** An order keeps no item exactly when none of its products exists. */
  lemma {:induction false} ViewEmptyIff(items: seq<Item>, ps: seq<Product>)
    ensures ViewItems(items, ps) == [] <==> forall k :: 0 <= k < |items| ==> FindProduct(ps, items[k].productId).None?
  {
    if items != [] {
      ViewEmptyIff(items[1..], ps);
      assert forall k :: 1 <= k < |items| ==> items[k] == items[1..][k - 1];
    }
  }

  // ---------------------------------------------------------------------
  // The join, one order at a time

  /** The joined rows one order contributes. */
  function JoinedOf(id: ObjectId, items: seq<Item>, ps: seq<Product>): seq<Joined> {
    UnwindInfo(Lookup(ItemRows(id, items), ps))
  }

  lemma {:induction false} UnwindItemsConcat(a: seq<Order>, b: seq<Order>)
    ensures UnwindItems(a + b) == UnwindItems(a) + UnwindItems(b)
  {
    if a == [] {
      assert a + b == b;
    } else {
      assert (a + b)[0] == a[0] && (a + b)[1..] == a[1..] + b;
      UnwindItemsConcat(a[1..], b);
    }
  }

  lemma LookupConcat(a: seq<Row>, b: seq<Row>, ps: seq<Product>)
    ensures Lookup(a + b, ps) == Lookup(a, ps) + Lookup(b, ps)
  {
  }

  lemma {:induction false} UnwindInfoConcat(a: seq<LookedUp>, b: seq<LookedUp>)
    ensures UnwindInfo(a + b) == UnwindInfo(a) + UnwindInfo(b)
  {
    if a == [] {
      assert a + b == b;
    } else {
      assert (a + b)[0] == a[0] && (a + b)[1..] == a[1..] + b;
      UnwindInfoConcat(a[1..], b);
    }
  }

  /** The join of a sequence of orders is the join of its first order followed
      by the join of the rest. */
  lemma JoinedRowsCons(os: seq<Order>, ps: seq<Product>, userId: string)
    requires os != []
    ensures JoinedRows(os, ps, userId)
         == (if os[0].userId == userId then JoinedOf(os[0].id, os[0].items, ps) else [])
            + JoinedRows(os[1..], ps, userId)
  {
    var first := if os[0].userId == userId then [os[0]] else [];
    var rest := MatchUser(os[1..], userId);
    assert MatchUser(os, userId) == first + rest;
    UnwindItemsConcat(first, rest);
    var rows := UnwindItems(first);
    if first != [] {
      assert first[1..] == [];
      assert rows == ItemRows(os[0].id, os[0].items) + UnwindItems([]);
      assert rows == ItemRows(os[0].id, os[0].items);
    } else {
      assert rows == [];
    }
    LookupConcat(rows, UnwindItems(rest), ps);
    UnwindInfoConcat(Lookup(rows, ps), Lookup(UnwindItems(rest), ps));
    assert UnwindInfo(Lookup(rows, ps)) == if os[0].userId == userId then JoinedOf(os[0].id, os[0].items, ps) else [];
  }

  lemma {:induction false} UnwindInfoIds(ls: seq<LookedUp>, id: ObjectId)
    requires forall k :: 0 <= k < |ls| ==> ls[k].orderId == id
    ensures forall k :: 0 <= k < |UnwindInfo(ls)| ==> UnwindInfo(ls)[k].orderId == id
  {
    if ls != [] {
      UnwindInfoIds(ls[1..], id);
    }
  }

  lemma {:induction false} RowsOfAll(js: seq<Joined>, id: ObjectId)
    requires forall k :: 0 <= k < |js| ==> js[k].orderId == id
    ensures RowsOf(js, id) == js
  {
    if js != [] {
      RowsOfAll(js[1..], id);
    }
  }

  lemma {:induction false} RowsOfNone(js: seq<Joined>, id: ObjectId)
    requires forall k :: 0 <= k < |js| ==> js[k].orderId != id
    ensures RowsOf(js, id) == []
  {
    if js != [] {
      RowsOfNone(js[1..], id);
    }
  }

  /** Every row an order contributes carries that order's id. */
  lemma JoinedOfIds(id: ObjectId, items: seq<Item>, ps: seq<Product>, x: ObjectId)
    ensures RowsOf(JoinedOf(id, items, ps), x) == if x == id then JoinedOf(id, items, ps) else []
  {
    UnwindInfoIds(Lookup(ItemRows(id, items), ps), id);
    if x == id {
      RowsOfAll(JoinedOf(id, items, ps), x);
    } else {
      RowsOfNone(JoinedOf(id, items, ps), x);
    }
  }

  /** Splitting off the first order: its rows keyed `x`, then the rest's. */
  lemma RowsOfJoinedCons(os: seq<Order>, ps: seq<Product>, userId: string, x: ObjectId)
    requires os != []
    ensures RowsOf(JoinedRows(os, ps, userId), x)
         == (if os[0].userId == userId && os[0].id == x then JoinedOf(x, os[0].items, ps) else [])
            + RowsOf(JoinedRows(os[1..], ps, userId), x)
  {
    var first := if os[0].userId == userId then JoinedOf(os[0].id, os[0].items, ps) else [];
    JoinedRowsCons(os, ps, userId);
    RowsOfConcat(first, JoinedRows(os[1..], ps, userId), x);
    JoinedOfIds(os[0].id, os[0].items, ps, x);
  }

  /** No order with id `x`: no joined row is keyed `x`. */
  lemma {:induction false} RowsOfJoinedAbsent(os: seq<Order>, ps: seq<Product>, userId: string, x: ObjectId)
    requires forall k :: 0 <= k < |os| ==> os[k].id != x
    ensures RowsOf(JoinedRows(os, ps, userId), x) == []
  {
    if os != [] {
      RowsOfJoinedCons(os, ps, userId, x);
      assert forall k :: 0 <= k < |os[1..]| ==> os[1..][k] == os[k + 1];
      RowsOfJoinedAbsent(os[1..], ps, userId, x);
    }
  }

  /** With unique order ids, the joined rows keyed `os[k].id` are the join of
      `os[k]` alone if it is the user's order, and none otherwise. */
  lemma {:induction false} RowsOfJoinedPresent(os: seq<Order>, ps: seq<Product>, userId: string, k: nat)
    requires UniqueOrderIds(os)
    requires k < |os|
    ensures RowsOf(JoinedRows(os, ps, userId), os[k].id)
         == if os[k].userId == userId then JoinedOf(os[k].id, os[k].items, ps) else []
  {
    var x, rest := os[k].id, os[1..];
    RowsOfJoinedCons(os, ps, userId, x);
    if k == 0 {
      forall i | 0 <= i < |rest| ensures rest[i].id != x {
        assert rest[i] == os[i + 1];
      }
      RowsOfJoinedAbsent(rest, ps, userId, x);
    } else {
      assert os[0].id != x;
      assert UniqueOrderIds(rest) by {
        forall i, j | 0 <= i < j < |rest| ensures rest[i].id != rest[j].id {
          assert rest[i] == os[i + 1] && rest[j] == os[j + 1];
        }
      }
      assert rest[k - 1] == os[k];
      RowsOfJoinedPresent(rest, ps, userId, k - 1);
    }
  }

  lemma {:induction false} ProductsWithIdNone(ps: seq<Product>, id: ObjectId)
    requires forall k :: 0 <= k < |ps| ==> ps[k].id != id
    ensures ProductsWithId(ps, id) == []
  {
    if ps != [] {
      ProductsWithIdNone(ps[1..], id);
    }
  }

  /** With unique product ids, `$lookup` finds one product or none. */
  lemma {:induction false} ProductsWithIdUnique(ps: seq<Product>, id: ObjectId)
    requires UniqueProductIds(ps)
    ensures ProductsWithId(ps, id) == match FindProduct(ps, id) case Some(p) => [p] case None => []
  {
    if ps != [] {
      if ps[0].id == id {
        forall k | 0 <= k < |ps[1..]| ensures ps[1..][k].id != id {
          assert ps[1..][k] == ps[k + 1];
        }
        ProductsWithIdNone(ps[1..], id);
      } else {
        ProductsWithIdUnique(ps[1..], id);
      }
    }
  }

  /** The join of one order accumulates to that order's reference view. */
  lemma {:induction false} JoinedOfView(id: ObjectId, items: seq<Item>, ps: seq<Product>)
    requires UniqueProductIds(ps)
    ensures DetailsOf(JoinedOf(id, items, ps)) == ViewItems(items, ps)
    ensures TotalOf(JoinedOf(id, items, ps)) == ViewTotal(items, ps)
  {
    if items != [] {
      var head := InfoRows(LookedUp(id, items[0], ProductsWithId(ps, items[0].productId)));
      var rest := JoinedOf(id, items[1..], ps);
      JoinedOfCons(id, items, ps);
      JoinedOfView(id, items[1..], ps);
      HeadView(id, items[0], ps);
      ViewCons(items, ps);
      DetailsOfConcat(head, rest);
      TotalOfConcat(head, rest);
    }
  }

  lemma ViewCons(items: seq<Item>, ps: seq<Product>)
    requires items != []
    ensures ViewItems(items, ps) == ViewItems([items[0]], ps) + ViewItems(items[1..], ps)
    ensures ViewTotal(items, ps) == ViewTotal([items[0]], ps) + ViewTotal(items[1..], ps)
  {
    assert [items[0]][1..] == [];
  }

  /** The rows of an order's items are those of its first item, then the rest's. */
  lemma JoinedOfCons(id: ObjectId, items: seq<Item>, ps: seq<Product>)
    requires items != []
    ensures JoinedOf(id, items, ps)
         == InfoRows(LookedUp(id, items[0], ProductsWithId(ps, items[0].productId))) + JoinedOf(id, items[1..], ps)
  {
    var l := LookedUp(id, items[0], ProductsWithId(ps, items[0].productId));
    var rows := ItemRows(id, items);
    assert rows == [rows[0]] + ItemRows(id, items[1..]);
    LookupConcat([rows[0]], ItemRows(id, items[1..]), ps);
    UnwindInfoConcat([l], Lookup(ItemRows(id, items[1..]), ps));
    assert UnwindInfo([l]) == InfoRows(l) + UnwindInfo([]);
  }

  /** With unique product ids one item joins at most one row, its view. */
  lemma HeadView(id: ObjectId, item: Item, ps: seq<Product>)
    requires UniqueProductIds(ps)
    ensures var head := InfoRows(LookedUp(id, item, ProductsWithId(ps, item.productId)));
      && DetailsOf(head) == ViewItems([item], ps)
      && TotalOf(head) == ViewTotal([item], ps)
  {
    var head := InfoRows(LookedUp(id, item, ProductsWithId(ps, item.productId)));
    ProductsWithIdUnique(ps, item.productId);
    assert [item][1..] == [];
    match FindProduct(ps, item.productId)
    case Some(p) =>
      assert head == [Joined(id, item, p)];
      assert TotalOf(head) == Amount(head[0]) + TotalOf([]);
    case None =>
      assert head == [];
  }

  /** Stages `$match` to `$unwind: "$productInfo"`. */
  function JoinedRows(os: seq<Order>, ps: seq<Product>, userId: string): seq<Joined> {
    UnwindInfo(Lookup(UnwindItems(MatchUser(os, userId)), ps))
  }

  /** Stages `$match` to `$sort`: the user's orders, joined, grouped, sorted. */
  function SortedGroups(os: seq<Order>, ps: seq<Product>, userId: string): seq<Group> {
    SortById(GroupById(JoinedRows(os, ps, userId)))
  }

  /** The whole pipeline, `$skip` and `$limit` included. */
  function Aggregate(os: seq<Order>, ps: seq<Product>, userId: string, offset: nat, limit: nat): seq<Group> {
    Page(SortedGroups(os, ps, userId), offset, limit)
  }

  // ---------------------------------------------------------------------
  // What the pipeline returns

  /** `g` is the reference view of one of `userId`'s orders that kept at least one item. */
  ghost predicate IsUserView(os: seq<Order>, ps: seq<Product>, userId: string, g: Group) {
    exists k :: 0 <= k < |os| && os[k].userId == userId && ViewItems(os[k].items, ps) != [] && g == OrderView(os[k], ps)
  }

  /** Every `$group` output document is the reference view of one of the
      user's orders that kept at least one item. */
  lemma GroupIsView(os: seq<Order>, ps: seq<Product>, userId: string, m: nat)
    requires UniqueOrderIds(os) && UniqueProductIds(ps)
    requires m < |GroupById(JoinedRows(os, ps, userId))|
    ensures IsUserView(os, ps, userId, GroupById(JoinedRows(os, ps, userId))[m])
  {
    var js := JoinedRows(os, ps, userId);
    var gs := GroupById(js);
    GroupByIdCorrect(js);
    var x := gs[m].id;
    assert Ids(gs)[m] == x;
    assert RowsOf(js, x) != [];
    if forall k :: 0 <= k < |os| ==> os[k].id != x {
      RowsOfJoinedAbsent(os, ps, userId, x);
      assert false;
    }
    var k :| 0 <= k < |os| && os[k].id == x;
    RowsOfJoinedPresent(os, ps, userId, k);
    assert os[k].userId == userId;
    JoinedOfView(x, os[k].items, ps);
    assert gs[m] == OrderView(os[k], ps);
  }

  /** Every order of the user that kept at least one item has its reference
      view among the `$group` output documents. */
  lemma ViewIsGroup(os: seq<Order>, ps: seq<Product>, userId: string, k: nat)
    requires UniqueOrderIds(os) && UniqueProductIds(ps)
    requires k < |os| && os[k].userId == userId && ViewItems(os[k].items, ps) != []
    ensures OrderView(os[k], ps) in GroupById(JoinedRows(os, ps, userId))
  {
    var js := JoinedRows(os, ps, userId);
    var gs := GroupById(js);
    var x := os[k].id;
    GroupByIdCorrect(js);
    RowsOfJoinedPresent(os, ps, userId, k);
    JoinedOfView(x, os[k].items, ps);
    assert RowsOf(js, x) != [];
    var m :| 0 <= m < |gs| && Ids(gs)[m] == x;
    assert gs[m] == OrderView(os[k], ps);
  }

  /** `$group` keys are unique, so after `$sort` the ids strictly ascend. */
  lemma SortedGroupsAscending(os: seq<Order>, ps: seq<Product>, userId: string)
    ensures StrictlyAscending(SortedGroups(os, ps, userId))
  {
    var gs := GroupById(JoinedRows(os, ps, userId));
    assert DistinctIds(gs) by {
      GroupByIdCorrect(JoinedRows(os, ps, userId));
    }
    SortStrict(gs);
  }

  /** Each listed group is the reference view of one of the user's orders that
      kept at least one item. */
  lemma SortedGroupsSound(os: seq<Order>, ps: seq<Product>, userId: string)
    requires UniqueOrderIds(os) && UniqueProductIds(ps)
    ensures forall i :: 0 <= i < |SortedGroups(os, ps, userId)| ==> IsUserView(os, ps, userId, SortedGroups(os, ps, userId)[i])
  {
    var gs := GroupById(JoinedRows(os, ps, userId));
    var sorted := SortById(gs);
    assert sorted == SortedGroups(os, ps, userId);
    PermutationMembers(gs, sorted);
    forall i | 0 <= i < |sorted| ensures IsUserView(os, ps, userId, sorted[i]) {
      var m :| 0 <= m < |gs| && gs[m] == sorted[i];
      GroupIsView(os, ps, userId, m);
    }
  }

  /** Sorting only reorders the `$group` output. */
  lemma PermutationMembers(gs: seq<Group>, sorted: seq<Group>)
    requires multiset(sorted) == multiset(gs)
    ensures forall i :: 0 <= i < |sorted| ==> sorted[i] in gs
  {
    forall i | 0 <= i < |sorted| ensures sorted[i] in gs {
      assert sorted[i] in multiset(sorted);
    }
  }

  /** Each of the user's orders that kept at least one item is listed, as its reference view. */
  lemma SortedGroupsComplete(os: seq<Order>, ps: seq<Product>, userId: string)
    requires UniqueOrderIds(os) && UniqueProductIds(ps)
    ensures forall k :: 0 <= k < |os| && os[k].userId == userId && ViewItems(os[k].items, ps) != [] ==>
      OrderView(os[k], ps) in SortedGroups(os, ps, userId)
  {
    var gs := GroupById(JoinedRows(os, ps, userId));
    forall k | 0 <= k < |os| && os[k].userId == userId && ViewItems(os[k].items, ps) != []
      ensures OrderView(os[k], ps) in SortById(gs)
    {
      ViewIsGroup(os, ps, userId, k);
      assert OrderView(os[k], ps) in multiset(gs);
    }
  }

  /** An order is listed for `userId` exactly when it is that user's order and
      at least one of its products still exists. */
  lemma OrderListedIff(os: seq<Order>, ps: seq<Product>, userId: string, k: nat)
    requires UniqueOrderIds(os) && UniqueProductIds(ps)
    requires k < |os|
    ensures os[k].id in Ids(SortedGroups(os, ps, userId))
        <==> os[k].userId == userId && ViewItems(os[k].items, ps) != []
  {
    if os[k].userId == userId && ViewItems(os[k].items, ps) != [] {
      ListedIfKept(os, ps, userId, k);
    }
    if os[k].id in Ids(SortedGroups(os, ps, userId)) {
      KeptIfListed(os, ps, userId, k);
    }
  }

  lemma ListedIfKept(os: seq<Order>, ps: seq<Product>, userId: string, k: nat)
    requires UniqueOrderIds(os) && UniqueProductIds(ps)
    requires k < |os| && os[k].userId == userId && ViewItems(os[k].items, ps) != []
    ensures os[k].id in Ids(SortedGroups(os, ps, userId))
  {
    var gs := SortedGroups(os, ps, userId);
    SortedGroupsComplete(os, ps, userId);
    var i :| 0 <= i < |gs| && gs[i] == OrderView(os[k], ps);
    assert Ids(gs)[i] == os[k].id;
  }

  lemma KeptIfListed(os: seq<Order>, ps: seq<Product>, userId: string, k: nat)
    requires UniqueOrderIds(os) && UniqueProductIds(ps)
    requires k < |os| && os[k].id in Ids(SortedGroups(os, ps, userId))
    ensures os[k].userId == userId && ViewItems(os[k].items, ps) != []
  {
    var gs := SortedGroups(os, ps, userId);
    var i :| 0 <= i < |gs| && Ids(gs)[i] == os[k].id;
    SortedGroupsSound(os, ps, userId);
    assert IsUserView(os, ps, userId, gs[i]);
    var k' :| 0 <= k' < |os| && os[k'].userId == userId && ViewItems(os[k'].items, ps) != []
              && gs[i] == OrderView(os[k'], ps);
    assert os[k'].id == os[k].id;
    assert k' == k;
  }

  /** The pipeline's output is the `[offset, offset + limit)` window of the
      sorted groups: at most `limit` documents, still strictly ascending. */
  lemma AggregateIsWindow(os: seq<Order>, ps: seq<Product>, userId: string, offset: nat, limit: nat)
    requires limit >= 1
    ensures var all := SortedGroups(os, ps, userId);
      Aggregate(os, ps, userId, offset, limit) == all[Min(offset, |all|)..Min(offset + limit, |all|)]
    ensures |Aggregate(os, ps, userId, offset, limit)| <= limit
    ensures StrictlyAscending(Aggregate(os, ps, userId, offset, limit))
  {
    var all := SortedGroups(os, ps, userId);
    PageIsWindow(all, offset, limit);
    SortedGroupsAscending(os, ps, userId);
    WindowAscending(all, Min(offset, |all|), Min(offset + limit, |all|));
  }

  lemma WindowAscending(gs: seq<Group>, a: nat, b: nat)
    requires a <= b <= |gs| && StrictlyAscending(gs)
    ensures StrictlyAscending(gs[a..b])
  {
    forall i, j | 0 <= i < j < b - a ensures gs[a..b][i].id < gs[a..b][j].id {
      assert gs[a..b][i] == gs[a + i] && gs[a..b][j] == gs[a + j];
    }
  }
}
