/**
  The read-only catalogue routes of routes/products.js: the filtered,
  paginated `/allproducts` listing, `/products/details`, `/newcollections`
  and `/popularproducts`. Each works on the product collection as the
  database returns it (stored order).
 */
module Queries {
  import opened Common
  import opened Catalog
  import opened Categories

  // ---------------------------------------------------------------------
  // /allproducts

  /** The already-parsed query-string filters; `None` is an absent or empty parameter. */
  datatype Filters = Filters(category: Option<string>, minPrice: Option<int>, maxPrice: Option<int>)

  /** The query string; `page` and `limit` default to 1 and 10. */
  datatype ListParams = ListParams(page: Option<int>, limit: Option<int>, filters: Filters)

  const DefaultPage := 1
  const DefaultLimit := 10

  /** What the route promises about one product: the meaning of the filters. */
  predicate Wanted(p: Product, f: Filters)
  {
    && (f.category.Some? && f.category.value != "" ==> p.category == NormalizeCategory(f.category.value))
    && (f.minPrice.Some? ==> p.newPrice >= f.minPrice.value)
    && (f.maxPrice.Some? ==> p.newPrice <= f.maxPrice.value)
  }

  /** The matching products in stored order. */
  function Matching(products: seq<Product>, f: Filters): (r: seq<Product>)
    ensures |r| <= |products|
    ensures forall p :: p in r <==> p in products && Wanted(p, f)
  {
    if products == [] then []
    else if Wanted(products[0], f) then [products[0]] + Matching(products[1..], f)
    else Matching(products[1..], f)
  }

  /** The `new_price` sub-document of the MongoDB query: `{$gte, $lte}`. */
  datatype PriceRange = PriceRange(gte: Option<int>, lte: Option<int>)

  /** The MongoDB query object the route builds. */
  datatype Query = Query(category: Option<string>, newPrice: Option<PriceRange>)

  /** How the database evaluates the query object on one document. */
  predicate Matches(p: Product, q: Query)
  {
    && (q.category.Some? ==> p.category == q.category.value)
    && (q.newPrice.Some? ==>
          && (q.newPrice.value.gte.Some? ==> p.newPrice >= q.newPrice.value.gte.value)
          && (q.newPrice.value.lte.Some? ==> p.newPrice <= q.newPrice.value.lte.value))
  }

  /**
    The query object is built field by field. `$lte` is added to whatever
    `new_price` already holds, so both bounds apply together.
   */
  method BuildQuery(f: Filters) returns (q: Query)
    ensures forall p :: Matches(p, q) <==> Wanted(p, f)
  {
    q := Query(None, None);
    if f.category.Some? && f.category.value != "" {
      q := q.(category := Some(NormalizeCategory(f.category.value)));
    }
    if f.minPrice.Some? {
      q := q.(newPrice := Some(PriceRange(Some(f.minPrice.value), None)));
    }
    if f.maxPrice.Some? {
      var lower := if q.newPrice.Some? then q.newPrice.value.gte else None;
      q := q.(newPrice := Some(PriceRange(lower, Some(f.maxPrice.value))));
    }
  }

  /** `Product.find(query)`: the documents satisfying the query object, in stored order. */
  function Select(products: seq<Product>, q: Query): (r: seq<Product>)
    ensures |r| <= |products|
    ensures forall i :: 0 <= i < |r| ==> Matches(r[i], q) && r[i] in products
  {
    if products == [] then []
    else if Matches(products[0], q) then [products[0]] + Select(products[1..], q)
    else Select(products[1..], q)
  }

  /** A query object that means the filters selects exactly the matching products, in order. */
  lemma {:induction false} SelectIsMatching(products: seq<Product>, q: Query, f: Filters)
    requires forall p :: Matches(p, q) <==> Wanted(p, f)
    ensures Select(products, q) == Matching(products, f)
  {
    if products != [] {
      SelectIsMatching(products[1..], q, f);
    }
  }

  /** `.skip(skip).limit(limit)` on a result sequence. */
  function Window(s: seq<Product>, skip: nat, limit: nat): (r: seq<Product>)
    ensures |r| <= limit
  {
    if skip >= |s| then []
    else if |s| - skip <= limit then s[skip..]
    else s[skip..skip + limit]
  }

  /** The page holds the items after the first `skip`, at most `limit` of them. */
  lemma WindowContents(s: seq<Product>, skip: nat, limit: nat)
    ensures |Window(s, skip, limit)| == if skip >= |s| then 0 else if |s| - skip <= limit then |s| - skip else limit
    ensures forall i :: 0 <= i < |Window(s, skip, limit)| ==> Window(s, skip, limit)[i] == s[skip + i]
  {
  }

  /** `Math.ceil(total / limit)` for a positive limit. */
  function CeilDiv(total: nat, limit: nat): (pages: nat)
    requires limit > 0
    ensures pages * limit >= total
    ensures pages == 0 || (pages - 1) * limit < total
  {
    if total == 0 then 0 else 1 + CeilDiv(if total <= limit then 0 else total - limit, limit)
  }

  datatype Listing = Listing(totalProducts: nat, totalPages: nat, currentPage: int, products: seq<Product>)

  /**
    The `/allproducts` handler. A page below 1 or a limit below 1 is
    reported as `None` (the server-error branch); see README for what the
    database would do with them.
   */
  method AllProducts(products: seq<Product>, params: ListParams) returns (r: Option<Listing>)
    ensures var page := params.page.GetOr(DefaultPage); var limit := params.limit.GetOr(DefaultLimit);
      r.None? <==> page < 1 || limit < 1
    ensures r.Some? ==> forall p :: p in r.value.products ==> Wanted(p, params.filters)
    ensures r.Some? ==>
      var page := params.page.GetOr(DefaultPage); var limit := params.limit.GetOr(DefaultLimit);
      var all := Matching(products, params.filters);
      && r.value.products == Window(all, (page - 1) * limit, limit)
      && r.value.totalProducts == |all|
      && r.value.totalPages == CeilDiv(|all|, limit)
      && r.value.currentPage == page
  {
    var page := params.page.GetOr(DefaultPage);
    var limit := params.limit.GetOr(DefaultLimit);
    if page < 1 || limit < 1 {
      return None;
    }
    var q := BuildQuery(params.filters);
    SelectIsMatching(products, q, params.filters);
    var found := Select(products, q);
    var pageItems := Window(found, (page - 1) * limit, limit);
    assert forall p :: p in pageItems ==> p in found;
    r := Some(Listing(|found|, CeilDiv(|found|, limit), page, pageItems));
  }

  /** 25 matches with limit 10: 3 pages, and page 2 holds items 11 to 20. */
  lemma ListingExample(all: seq<Product>)
    requires |all| == 25
    ensures CeilDiv(|all|, 10) == 3
    ensures Window(all, (2 - 1) * 10, 10) == all[10..20]
  {
    assert CeilDiv(5, 10) == 1;
    assert CeilDiv(15, 10) == 2;
  }

  // ---------------------------------------------------------------------
  // /newcollections

  const NewCollectionCount := 8

  /** `products.slice(-8)`. */
  function NewCollections(products: seq<Product>): (r: seq<Product>)
    ensures |r| == if |products| < NewCollectionCount then |products| else NewCollectionCount
    ensures forall i :: 0 <= i < |r| ==> r[i] == products[|products| - |r| + i]
  {
    if |products| < NewCollectionCount then products else products[|products| - NewCollectionCount..]
  }

  // ---------------------------------------------------------------------
  // /popularproducts

  predicate NonIncreasing(s: seq<Product>)
  {
    forall i, j :: 0 <= i < j < |s| ==> s[i].timesPurchased >= s[j].timesPurchased
  }

  function InsertByPurchases(p: Product, s: seq<Product>): (r: seq<Product>)
    requires NonIncreasing(s)
    ensures NonIncreasing(r)
    ensures multiset(r) == multiset(s) + multiset{p}
  {
    if s == [] then [p]
    else if p.timesPurchased >= s[0].timesPurchased then [p] + s
    else
      var rest := InsertByPurchases(p, s[1..]);
      assert s == [s[0]] + s[1..];
      BoundedAfterInsert(s[0].timesPurchased, p, s[1..], rest);
      ConsNonIncreasing(s[0], rest);
      [s[0]] + rest
  }

  lemma BoundedAfterInsert(bound: int, p: Product, t: seq<Product>, rest: seq<Product>)
    requires multiset(rest) == multiset(t) + multiset{p}
    requires p.timesPurchased <= bound
    requires forall k :: 0 <= k < |t| ==> t[k].timesPurchased <= bound
    ensures forall k :: 0 <= k < |rest| ==> rest[k].timesPurchased <= bound
  {
    forall k | 0 <= k < |rest|
      ensures rest[k].timesPurchased <= bound
    {
      assert rest[k] in multiset(rest);
      if rest[k] != p {
        assert rest[k] in multiset(t);
      }
    }
  }

  lemma ConsNonIncreasing(head: Product, rest: seq<Product>)
    requires NonIncreasing(rest)
    requires forall k :: 0 <= k < |rest| ==> rest[k].timesPurchased <= head.timesPurchased
    ensures NonIncreasing([head] + rest)
  {
    var r := [head] + rest;
    forall i, j | 0 <= i < j < |r|
      ensures r[i].timesPurchased >= r[j].timesPurchased
    {
      assert r[j] == rest[j - 1];
      if i > 0 {
        assert r[i] == rest[i - 1];
      }
    }
  }

  /** `sort({timesPurchased: -1})`: a non-increasing permutation. */
  function SortByPurchases(s: seq<Product>): (r: seq<Product>)
    ensures NonIncreasing(r)
    ensures multiset(r) == multiset(s)
  {
    if s == [] then []
    else
      assert s == [s[0]] + s[1..];
      InsertByPurchases(s[0], SortByPurchases(s[1..]))
  }

  const PopularCount := 5

  /** `find({}).sort({timesPurchased: -1}).limit(5)`. */
  function PopularProducts(products: seq<Product>): (r: seq<Product>)
    ensures |r| <= PopularCount
  {
    var sorted := SortByPurchases(products);
    if |sorted| <= PopularCount then sorted else sorted[..PopularCount]
  }

  /** In a non-increasing sequence, nothing after a prefix exceeds anything in it. */
  lemma PrefixDominatesRest(s: seq<Product>, n: nat)
    requires NonIncreasing(s)
    requires n <= |s|
    ensures multiset(s[..n]) <= multiset(s)
    ensures forall p, k :: p in multiset(s) - multiset(s[..n]) && 0 <= k < n ==> p.timesPurchased <= s[k].timesPurchased
  {
    assert s == s[..n] + s[n..];
    assert multiset(s) == multiset(s[..n]) + multiset(s[n..]);
    forall p, k | p in multiset(s) - multiset(s[..n]) && 0 <= k < n
      ensures p.timesPurchased <= s[k].timesPurchased
    {
      assert p in multiset(s[n..]);
      var j :| 0 <= j < |s| - n && s[n..][j] == p;
      assert s[n + j] == p;
    }
  }

  /**
    The popular list has min(5, n) products of the catalogue, in
    non-increasing `timesPurchased` order, and no product left out was
    bought more often than any product listed.
   */
  lemma PopularProductsSpec(products: seq<Product>)
    ensures var r := PopularProducts(products);
      && |r| == (if |products| < PopularCount then |products| else PopularCount)
      && NonIncreasing(r)
      && multiset(r) <= multiset(products)
      && forall p, k :: p in multiset(products) - multiset(r) && 0 <= k < |r| ==> p.timesPurchased <= r[k].timesPurchased
  {
    var sorted := SortByPurchases(products);
    var n := if |sorted| <= PopularCount then |sorted| else PopularCount;
    var r := sorted[..n];
    assert PopularProducts(products) == r;
    assert |sorted| == |multiset(products)| == |products|;
    assert NonIncreasing(r) by {
      forall i, j | 0 <= i < j < |r|
        ensures r[i].timesPurchased >= r[j].timesPurchased
      {
        assert r[i] == sorted[i] && r[j] == sorted[j];
      }
    }
    PrefixDominatesRest(sorted, n);
  }

  // ---------------------------------------------------------------------
  // /products/details

  /** The `ids` field of the request body. */
  datatype IdsField = Missing | NotArray | Ids(values: seq<string>)

  datatype Details = Found(products: seq<Product>) | Rejected(status: int, error: string)

  const IdsNotArray := "Les IDs doivent être fournis dans un tableau."
  const NoValidId := "Aucun ID de produit valide fourni."
  const NoProductFound := "Aucun produit trouvé pour les IDs fournis."

  /** `ids.filter(isValid)`. */
  function ValidIds(ids: seq<string>, isValid: string -> bool): (r: seq<string>)
    ensures forall x :: x in r <==> x in ids && isValid(x)
  {
    if ids == [] then []
    else if isValid(ids[0]) then [ids[0]] + ValidIds(ids[1..], isValid)
    else ValidIds(ids[1..], isValid)
  }

  /** `find({_id: {$in: ids}})`: the products whose id is listed, in stored order. */
  function WithIds(products: seq<Product>, ids: seq<string>): (r: seq<Product>)
    ensures forall p :: p in r <==> p in products && p.id in ids
  {
    if products == [] then []
    else if products[0].id in ids then [products[0]] + WithIds(products[1..], ids)
    else WithIds(products[1..], ids)
  }

  /**
    The `/products/details` handler; `isValid` stands for
    `mongoose.Types.ObjectId.isValid`.
   */
  function ProductDetails(products: seq<Product>, ids: IdsField, isValid: string -> bool): (r: Details)
    ensures !ids.Ids? ==> r == Rejected(400, IdsNotArray)
    ensures ids.Ids? && (forall x :: x in ids.values ==> !isValid(x)) ==> r == Rejected(400, NoValidId)
    ensures ids.Ids? && (exists x :: x in ids.values && isValid(x)) ==>
      && (r.Rejected? <==> forall p :: p in products ==> !(p.id in ids.values && isValid(p.id)))
      && (r.Rejected? ==> r == Rejected(404, NoProductFound))
    ensures r.Found? ==> |r.products| > 0
    ensures r.Found? ==> forall p :: p in r.products <==> p in products && p.id in ids.values && isValid(p.id)
  {
    match ids
    case Missing => Rejected(400, IdsNotArray)
    case NotArray => Rejected(400, IdsNotArray)
    case Ids(values) =>
      var valid := ValidIds(values, isValid);
      if |valid| == 0 then Rejected(400, NoValidId)
      else
        assert valid[0] in valid;
        var found := WithIds(products, valid);
        if |found| == 0 then Rejected(404, NoProductFound)
        else
          assert found[0] in found;
          Found(found)
  }
}
