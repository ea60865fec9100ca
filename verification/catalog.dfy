/**
  The product collection. A product document carries the fields of
  models/Product.js together with the `stock` counter that the sale
  routes update (the schema itself does not declare it).
 */
module Catalog {
  import opened Common

  datatype Product = Product(
    id: ProductId,
    name: string,
    image: string,
    category: string,
    description: string,
    newPrice: int,
    oldPrice: int,
    timesPurchased: int,
    stock: int)

  /** Document identities are unique, as MongoDB's `_id` index guarantees. */
  predicate DistinctIds(products: seq<Product>)
  {
    forall i, j :: 0 <= i < j < |products| ==> products[i].id != products[j].id
  }

  /** `findById` / `findOne({_id})`: the position of the first document with that id. */
  function Find(products: seq<Product>, id: ProductId): (r: Option<nat>)
    ensures r.Some? ==> r.value < |products| && products[r.value].id == id
    ensures r.Some? ==> forall j :: 0 <= j < r.value ==> products[j].id != id
    ensures r.None? ==> forall j :: 0 <= j < |products| ==> products[j].id != id
  {
    FirstWithKey(products, (p: Product) => p.id, id, 0)
  }

  /** With unique ids, looking up a stored product's id finds exactly that product. */
  lemma FindStored(products: seq<Product>, i: nat)
    requires DistinctIds(products)
    requires i < |products|
    ensures Find(products, products[i].id) == Some(i)
  {
  }

  /** Two tables with the same ids position by position answer every lookup alike. */
  lemma FindSameIds(a: seq<Product>, b: seq<Product>, id: ProductId)
    requires |a| == |b|
    requires forall i :: 0 <= i < |a| ==> a[i].id == b[i].id
    ensures Find(a, id) == Find(b, id)
  {
  }

  /** The table with its `i`-th document deleted. */
  function RemoveAt(products: seq<Product>, i: nat): (r: seq<Product>)
    requires i < |products|
    ensures |r| == |products| - 1
    ensures forall j :: 0 <= j < i ==> r[j] == products[j]
    ensures forall j :: i <= j < |r| ==> r[j] == products[j + 1]
  {
    products[..i] + products[i + 1..]
  }

  /** Deleting a document keeps ids unique and the deleted id is gone. */
  lemma RemoveAtKeepsOthers(products: seq<Product>, i: nat)
    requires DistinctIds(products)
    requires i < |products|
    ensures DistinctIds(RemoveAt(products, i))
    ensures Find(RemoveAt(products, i), products[i].id).None?
    ensures multiset(RemoveAt(products, i)) == multiset(products) - multiset{products[i]}
  {
    var r := RemoveAt(products, i);
    assert products == products[..i] + [products[i]] + products[i + 1..];
    assert r == products[..i] + products[i + 1..];
  }

  /**
    What `/removeproduct` answers: the deleted product's name, a 404, or
    `MalformedId` when the query cannot cast `_id` (a CastError the route
    does not catch, so no response is sent).
   */
  datatype RemoveResult = RemovedProduct(name: string) | ProductMissing | MalformedId

  /** The in-memory product collection; the methods are the updates the routes issue. */
  class ProductTable {
    var products: seq<Product>

    ghost predicate Valid()
      reads this
    {
      DistinctIds(products)
    }

    constructor (initial: seq<Product>)
      requires DistinctIds(initial)
      ensures Valid() && products == initial
    {
      products := initial;
    }

    /**
      `/removeproduct`: `findOneAndDelete({_id})`. `isObjectId` says
      whether Mongoose can cast the id to an ObjectId.
     */
    method RemoveProduct(id: ProductId, isObjectId: string -> bool) returns (r: RemoveResult)
      requires Valid()
      modifies this
      ensures Valid()
      ensures !isObjectId(id) ==> r == MalformedId && products == old(products)
      ensures isObjectId(id) && Find(old(products), id).None? ==> r == ProductMissing && products == old(products)
      ensures isObjectId(id) && Find(old(products), id).Some? ==>
        var i := Find(old(products), id).value;
        r == RemovedProduct(old(products)[i].name) && products == RemoveAt(old(products), i)
      ensures r != MalformedId ==> Find(products, id).None?
    {
      if !isObjectId(id) {
        return MalformedId;
      }
      var found := Find(products, id);
      if found.None? {
        r := ProductMissing;
      } else {
        var i := found.value;
        r := RemovedProduct(products[i].name);
        RemoveAtKeepsOthers(products, i);
        products := RemoveAt(products, i);
      }
    }

    /** `updateOne({_id}, {category})`. */
    method SetCategory(id: ProductId, category: string)
      requires Valid()
      modifies this
      ensures Valid() && |products| == |old(products)|
      ensures Find(old(products), id).None? ==> products == old(products)
      ensures Find(old(products), id).Some? ==>
        var i := Find(old(products), id).value;
        products == old(products)[i := old(products)[i].(category := category)]
    {
      var found := Find(products, id);
      if found.Some? {
        var i := found.value;
        products := products[i := products[i].(category := category)];
      }
    }

    /** `updateOne({_id}, {$set: {image}})`. */
    method SetImage(id: ProductId, image: string)
      requires Valid()
      modifies this
      ensures Valid() && |products| == |old(products)|
      ensures Find(old(products), id).None? ==> products == old(products)
      ensures Find(old(products), id).Some? ==>
        var i := Find(old(products), id).value;
        products == old(products)[i := old(products)[i].(image := image)]
    {
      var found := Find(products, id);
      if found.Some? {
        var i := found.value;
        products := products[i := products[i].(image := image)];
      }
    }

    /** `product.save()` after the in-memory `product.stock` was changed. */
    method SetStock(id: ProductId, stock: int)
      requires Valid()
      modifies this
      ensures Valid() && |products| == |old(products)|
      ensures Find(old(products), id).None? ==> products == old(products)
      ensures Find(old(products), id).Some? ==>
        var i := Find(old(products), id).value;
        products == old(products)[i := old(products)[i].(stock := stock)]
    {
      var found := Find(products, id);
      if found.Some? {
        var i := found.value;
        products := products[i := products[i].(stock := stock)];
      }
    }

    /** `findByIdAndUpdate(id, {$inc: {timesPurchased: purchased, stock: stockDelta}})`. */
    method Increment(id: ProductId, purchased: int, stockDelta: int)
      requires Valid()
      modifies this
      ensures Valid() && |products| == |old(products)|
      ensures Find(old(products), id).None? ==> products == old(products)
      ensures Find(old(products), id).Some? ==>
        var i := Find(old(products), id).value;
        var p := old(products)[i];
        products == old(products)[i := p.(timesPurchased := p.timesPurchased + purchased, stock := p.stock + stockDelta)]
    {
      var found := Find(products, id);
      if found.Some? {
        var i := found.value;
        var p := products[i];
        products := products[i := p.(timesPurchased := p.timesPurchased + purchased, stock := p.stock + stockDelta)];
      }
    }
  }
}
