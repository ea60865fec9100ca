/**
  The two maintenance scripts that rewrite every product document: the
  category capitalisation of normalizeCategories.js and the image-URL
  rewrite of updateImageUrls.js. Both read all products, then issue one
  `updateOne({_id}, ...)` per product.
 */
module Scripts {
  import opened Text
  import opened Categories
  import opened Catalog

  function Recategorized(products: seq<Product>): (r: seq<Product>)
    ensures |r| == |products|
  {
    seq(|products|, i requires 0 <= i < |products| => products[i].(category := Capitalize(products[i].category)))
  }

  /** `updateCategories`. */
  method UpdateCategories(table: ProductTable)
    requires table.Valid()
    modifies table
    ensures table.Valid()
    ensures table.products == Recategorized(old(table.products))
  {
    var snapshot := table.products;
    for i := 0 to |snapshot|
      invariant table.Valid()
      invariant |table.products| == |snapshot|
      invariant forall j :: 0 <= j < i ==> table.products[j] == snapshot[j].(category := Capitalize(snapshot[j].category))
      invariant forall j :: i <= j < |snapshot| ==> table.products[j] == snapshot[j]
    {
      var product := snapshot[i];
      FindStored(table.products, i);
      table.SetCategory(product.id, Capitalize(product.category));
    }
  }

  /**
    After the script every category is in capitalised form, the products,
    their order and all other fields are unchanged, and running it again
    changes nothing.
   */
  lemma RecategorizedSpec(products: seq<Product>)
    ensures forall i :: 0 <= i < |products| ==>
      && Recategorized(products)[i].category == Capitalize(products[i].category)
      && Recategorized(products)[i].(category := products[i].category) == products[i]
    ensures Recategorized(Recategorized(products)) == Recategorized(products)
  {
    forall i | 0 <= i < |products|
      ensures Recategorized(Recategorized(products))[i] == Recategorized(products)[i]
    {
      CapitalizeIdempotent(products[i].category);
    }
  }

  const LocalOrigin := "http://localhost:4000"

  /** `image.replace("http://localhost:4000", BACKEND_URL)`. */
  function RewriteImage(image: string, backendUrl: string): (r: string)
    ensures (forall j :: !OccursAt(image, LocalOrigin, j)) ==> r == image
  {
    ReplaceFirst(image, LocalOrigin, backendUrl)
  }

  /** The rewrite on URLs that start with the local origin, lack it, or hold it further in. */
  lemma RewriteImageSpec(image: string, backendUrl: string)
    ensures forall rest :: image == LocalOrigin + rest ==> RewriteImage(image, backendUrl) == backendUrl + rest
    ensures (forall j :: !OccursAt(image, LocalOrigin, j)) ==> RewriteImage(image, backendUrl) == image
    ensures forall i :: OccursAt(image, LocalOrigin, i) && (forall j :: 0 <= j < i ==> !OccursAt(image, LocalOrigin, j)) ==>
      RewriteImage(image, backendUrl) == image[..i] + backendUrl + image[i + |LocalOrigin|..]
  {
    forall rest | image == LocalOrigin + rest
      ensures RewriteImage(image, backendUrl) == backendUrl + rest
    {
      ReplaceFirstPrefix(LocalOrigin, rest, backendUrl);
    }
    forall i | OccursAt(image, LocalOrigin, i) && (forall j :: 0 <= j < i ==> !OccursAt(image, LocalOrigin, j))
      ensures RewriteImage(image, backendUrl) == image[..i] + backendUrl + image[i + |LocalOrigin|..]
    {
      ReplaceFirstAt(image, LocalOrigin, backendUrl, i);
    }
  }

  function Rehosted(products: seq<Product>, backendUrl: string): (r: seq<Product>)
    ensures |r| == |products|
  {
    seq(|products|, i requires 0 <= i < |products| => products[i].(image := RewriteImage(products[i].image, backendUrl)))
  }

  /** `updateImageUrls`; the per-product updates touch distinct documents, so their order does not matter. */
  method UpdateImageUrls(table: ProductTable, backendUrl: string)
    requires table.Valid()
    modifies table
    ensures table.Valid()
    ensures table.products == Rehosted(old(table.products), backendUrl)
  {
    var snapshot := table.products;
    for i := 0 to |snapshot|
      invariant table.Valid()
      invariant |table.products| == |snapshot|
      invariant forall j :: 0 <= j < i ==> table.products[j] == snapshot[j].(image := RewriteImage(snapshot[j].image, backendUrl))
      invariant forall j :: i <= j < |snapshot| ==> table.products[j] == snapshot[j]
    {
      var product := snapshot[i];
      FindStored(table.products, i);
      table.SetImage(product.id, RewriteImage(product.image, backendUrl));
    }
  }

  /** Only `image` changes; the products, their order and every other field stay. */
  lemma RehostedSpec(products: seq<Product>, backendUrl: string)
    ensures forall i :: 0 <= i < |products| ==>
      && Rehosted(products, backendUrl)[i].image == RewriteImage(products[i].image, backendUrl)
      && Rehosted(products, backendUrl)[i].(image := products[i].image) == products[i]
  {
  }
}
