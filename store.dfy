/** The two collections of the document store, `products` and `orders`, as the
    handlers read and write them. Each collection is a sequence in one fixed
    order, taken to be insertion order, whose `_id`s are unique, as MongoDB's `_id` index
    guarantees. `insert_one` is modelled with the id the driver assigns given
    as a parameter. */
module Store {
  import opened ObjectIds
  import opened Models

  datatype Product = Product(id: ObjectId, name: string, price: real, sizes: seq<SizeQuantity>)

  /** An order line as stored: the product reference has been converted to an ObjectId. */
  datatype Item = Item(productId: ObjectId, qty: int)

  datatype Order = Order(id: ObjectId, userId: string, items: seq<Item>)

  /** The set of a list of ids: what an `$in` operator tests against. */
  function IdSet(ids: seq<ObjectId>): (s: set<ObjectId>)
    ensures forall x :: x in s <==> x in ids
  {
    if ids == [] then {} else {ids[0]} + IdSet(ids[1..])
  }

  /** A collection's documents projected onto their `_id`s, in collection order. */
  function IdList<T>(docs: seq<T>, id: T -> ObjectId): (ids: seq<ObjectId>)
    ensures |ids| == |docs| && forall k :: 0 <= k < |docs| ==> ids[k] == id(docs[k])
  {
    seq(|docs|, k requires 0 <= k < |docs| => id(docs[k]))
  }

  /** The set of `_id`s of a collection, as `IdSet` of its projection onto `_id`. */
  function IdsOf<T>(docs: seq<T>, id: T -> ObjectId): (ids: set<ObjectId>)
    ensures forall x :: x in ids <==> exists k :: 0 <= k < |docs| && id(docs[k]) == x
  {
    var l := IdList(docs, id);
    assert forall x :: x in l <==> exists k :: 0 <= k < |docs| && id(docs[k]) == x by {
      forall x ensures x in l <==> exists k :: 0 <= k < |docs| && id(docs[k]) == x {
        if x in l {
          var k :| 0 <= k < |l| && l[k] == x;
          assert id(docs[k]) == x;
        }
      }
    }
    IdSet(l)
  }

  /** The `_id`s present in the products collection. */
  function ProductIds(ps: seq<Product>): (ids: set<ObjectId>)
    ensures forall x :: x in ids <==> exists k :: 0 <= k < |ps| && ps[k].id == x
  {
    IdsOf(ps, (p: Product) => p.id)
  }

  /** The `_id`s present in the orders collection. */
  function OrderIds(os: seq<Order>): (ids: set<ObjectId>)
    ensures forall x :: x in ids <==> exists k :: 0 <= k < |os| && os[k].id == x
  {
    IdsOf(os, (o: Order) => o.id)
  }

  /** The ids of a non-empty products collection: its first `_id` and those of the rest. */
  lemma ProductIdsCons(ps: seq<Product>)
    requires ps != []
    ensures ProductIds(ps) == {ps[0].id} + ProductIds(ps[1..])
  {
    forall x | x in ProductIds(ps) ensures x in {ps[0].id} + ProductIds(ps[1..]) {
      var k :| 0 <= k < |ps| && ps[k].id == x;
      if k > 0 {
        assert ps[1..][k - 1].id == x;
      }
    }
    forall x | x in ProductIds(ps[1..]) ensures x in ProductIds(ps) {
      var k :| 0 <= k < |ps[1..]| && ps[1..][k].id == x;
      assert ps[k + 1].id == x;
    }
  }

  ghost predicate UniqueProductIds(ps: seq<Product>) {
    forall i, j :: 0 <= i < j < |ps| ==> ps[i].id != ps[j].id
  }

  ghost predicate UniqueOrderIds(os: seq<Order>) {
    forall i, j :: 0 <= i < j < |os| ==> os[i].id != os[j].id
  }

  /** `count_documents({"_id": {"$in": ids}})` on the products collection. */
  function CountDocuments(ps: seq<Product>, ids: set<ObjectId>): (n: nat)
    ensures n <= |ps|
  {
    if ps == [] then 0 else (if ps[0].id in ids then 1 else 0) + CountDocuments(ps[1..], ids)
  }

  /** With unique `_id`s the count is the number of requested ids that exist. */
  lemma {:induction false} CountDocumentsUnique(ps: seq<Product>, ids: set<ObjectId>)
    requires UniqueProductIds(ps)
    ensures CountDocuments(ps, ids) == |ids * ProductIds(ps)|
  {
    if ps != [] {
      var rest := ps[1..];
      FirstIdFresh(ps);
      CountDocumentsUnique(rest, ids);
      ProductIdsCons(ps);
      ConsIntersection(ids, ProductIds(ps), ProductIds(rest), ps[0].id);
    }
  }

  /** Adding a fresh id to a set adds one to its intersection with `ids` when `ids` holds it. */
  lemma ConsIntersection(ids: set<ObjectId>, all: set<ObjectId>, rest: set<ObjectId>, x: ObjectId)
    requires all == {x} + rest && x !in rest
    ensures |ids * all| == (if x in ids then 1 else 0) + |ids * rest|
  {
    if x in ids {
      assert ids * all == (ids * rest) + {x};
    } else {
      assert ids * all == ids * rest;
    }
  }

  /** With unique `_id`s, the first product's id occurs nowhere in the rest. */
  lemma FirstIdFresh(ps: seq<Product>)
    requires ps != [] && UniqueProductIds(ps)
    ensures UniqueProductIds(ps[1..]) && ps[0].id !in ProductIds(ps[1..])
  {
    var rest := ps[1..];
    forall k | 0 <= k < |rest| ensures rest[k].id != ps[0].id {
      assert rest[k] == ps[k + 1];
    }
  }

  /** The database connection: the two collections the routers update. */
  class Database {
    var products: seq<Product>
    var orders: seq<Order>

    ghost predicate Valid()
      reads this
    {
      UniqueProductIds(products) && UniqueOrderIds(orders)
    }

    constructor ()
      ensures Valid() && products == [] && orders == []
    {
      products := [];
      orders := [];
    }

    /** `products_collection.insert_one`; it fails when the id is already taken. */
    method InsertProduct(p: Product) returns (ok: bool)
      requires Valid()
      modifies this
      ensures Valid()
      ensures ok <==> p.id !in ProductIds(old(products))
      ensures products == if ok then old(products) + [p] else old(products)
      ensures orders == old(orders)
    {
      ok := p.id !in ProductIds(products);
      if ok {
        products := products + [p];
      }
    }

    /** `orders_collection.insert_one`; it fails when the id is already taken. */
    method InsertOrder(o: Order) returns (ok: bool)
      requires Valid()
      modifies this
      ensures Valid()
      ensures ok <==> o.id !in OrderIds(old(orders))
      ensures orders == if ok then old(orders) + [o] else old(orders)
      ensures products == old(products)
    {
      ok := o.id !in OrderIds(orders);
      if ok {
        orders := orders + [o];
      }
    }
  }
}
