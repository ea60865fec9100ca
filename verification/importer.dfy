/**
  The product import script (importProducts.mjs, kept in the repository
  as commented-out text). A module-level set of processed identifiers is
  shared by every `importProducts` call; each product's identifier is
  recorded before its image upload, and the product is saved only when the
  upload returns a URL. The upload is a parameter.
 */
module Import {
  import opened Common
  import opened Categories

  /** An entry of the bundled product data files. */
  datatype SourceProduct = SourceProduct(name: string, image: string, category: string, newPrice: int, oldPrice: int)

  /** The document `newProduct.save()` stores. */
  datatype SavedProduct = SavedProduct(name: string, image: string, category: string, newPrice: int, oldPrice: int)

  /** `${product.name}_${product.image}`. */
  function Identifier(p: SourceProduct): (r: string)
    ensures |r| == |p.name| + 1 + |p.image|
  {
    p.name + "_" + p.image
  }

  /**
    `uploadImage(imagePath, category)`: the hosted URL, or `None` for
    `null` (missing file or failed upload). It receives the normalised
    category, which names the upload folder.
   */
  type Uploader = (string, string) -> Option<string>

  function UploadFor(p: SourceProduct, upload: Uploader): Option<string>
  {
    upload(p.image, NormalizeCategory(p.category))
  }

  datatype ImportState = ImportState(processed: set<string>, saved: seq<SavedProduct>)

  /** One iteration of the `for` loop. An empty URL is falsy and is not saved. */
  function ImportStep(st: ImportState, p: SourceProduct, upload: Uploader): (r: ImportState)
    ensures r.processed == st.processed + {Identifier(p)}
    ensures r.saved == st.saved || (Identifier(p) !in st.processed && |r.saved| == |st.saved| + 1 && r.saved[..|st.saved|] == st.saved)
    ensures Identifier(p) !in st.processed && UploadFor(p, upload).Some? && UploadFor(p, upload).value != "" ==>
      |r.saved| == |st.saved| + 1 && SavedFrom(r.saved[|st.saved|], p, upload)
  {
    var id := Identifier(p);
    if id in st.processed then st
    else
      var url := UploadFor(p, upload);
      var processed := st.processed + {id};
      if url.Some? && url.value != "" then
        ImportState(processed, st.saved + [SavedProduct(p.name, url.value, p.category, p.newPrice, p.oldPrice)])
      else
        ImportState(processed, st.saved)
  }

  /** `importProducts(batch)` from a given processed set and saved collection. */
  function ImportAll(st: ImportState, batch: seq<SourceProduct>, upload: Uploader): (r: ImportState)
    decreases |batch|
    ensures st.processed <= r.processed
    ensures |st.saved| <= |r.saved| && r.saved[..|st.saved|] == st.saved
  {
    if batch == [] then st
    else ImportStep(ImportAll(st, batch[..|batch| - 1], upload), batch[|batch| - 1], upload)
  }

  /** Every identifier of the batch is recorded, whether or not its upload succeeded. */
  lemma {:induction false} ImportRecordsEveryIdentifier(st: ImportState, batch: seq<SourceProduct>, upload: Uploader)
    decreases |batch|
    ensures ImportAll(st, batch, upload).processed == st.processed + set k | 0 <= k < |batch| :: Identifier(batch[k])
  {
    if batch != [] {
      var prefix := batch[..|batch| - 1];
      ImportRecordsEveryIdentifier(st, prefix, upload);
      var before := set k | 0 <= k < |prefix| :: Identifier(prefix[k]);
      var after := set k | 0 <= k < |batch| :: Identifier(batch[k]);
      assert forall k :: 0 <= k < |prefix| ==> prefix[k] == batch[k];
      assert after == before + {Identifier(batch[|batch| - 1])};
    }
  }

  /** Saves never outnumber the identifiers newly recorded. */
  lemma {:induction false} ImportSavesAtMostNewIdentifiers(st: ImportState, batch: seq<SourceProduct>, upload: Uploader)
    decreases |batch|
    ensures var end := ImportAll(st, batch, upload);
      && st.processed <= end.processed
      && |end.saved| - |st.saved| <= |end.processed| - |st.processed|
      && |st.saved| <= |end.saved|
      && end.saved[..|st.saved|] == st.saved
  {
    if batch != [] {
      ImportSavesAtMostNewIdentifiers(st, batch[..|batch| - 1], upload);
      var mid := ImportAll(st, batch[..|batch| - 1], upload);
      var end := ImportAll(st, batch, upload);
      assert end.saved[..|mid.saved|] == mid.saved;
      assert end.saved[..|st.saved|] == mid.saved[..|st.saved|];
    }
  }

  /** A batch whose identifiers are all recorded changes nothing. */
  lemma {:induction false} ImportSkipsProcessed(st: ImportState, batch: seq<SourceProduct>, upload: Uploader)
    requires forall k :: 0 <= k < |batch| ==> Identifier(batch[k]) in st.processed
    decreases |batch|
    ensures ImportAll(st, batch, upload) == st
  {
    if batch != [] {
      var prefix := batch[..|batch| - 1];
      assert forall k :: 0 <= k < |prefix| ==> prefix[k] == batch[k];
      ImportSkipsProcessed(st, prefix, upload);
    }
  }

  /** Importing the same batch a second time saves nothing more: products are never retried. */
  lemma ImportTwiceSavesOnce(st: ImportState, batch: seq<SourceProduct>, upload: Uploader)
    ensures var once := ImportAll(st, batch, upload);
      ImportAll(once, batch, upload) == once
  {
    ImportRecordsEveryIdentifier(st, batch, upload);
    var once := ImportAll(st, batch, upload);
    forall k | 0 <= k < |batch|
      ensures Identifier(batch[k]) in once.processed
    {
    }
    ImportSkipsProcessed(once, batch, upload);
  }

  /** `s` is what saving `p` after an upload that returned a non-empty URL produces. */
  predicate SavedFrom(s: SavedProduct, p: SourceProduct, upload: Uploader)
  {
    && UploadFor(p, upload) == Some(s.image) && s.image != ""
    && s.name == p.name && s.category == p.category
    && s.newPrice == p.newPrice && s.oldPrice == p.oldPrice
  }

  /**
    Every newly saved product comes from a batch entry whose upload
    returned its URL, and keeps that entry's category as given.
   */
  lemma {:induction false} ImportSavesUploadedOnly(st: ImportState, batch: seq<SourceProduct>, upload: Uploader)
    decreases |batch|
    ensures var end := ImportAll(st, batch, upload);
      && |st.saved| <= |end.saved|
      && forall n :: |st.saved| <= n < |end.saved| ==> exists k :: 0 <= k < |batch| && SavedFrom(end.saved[n], batch[k], upload)
  {
    if batch != [] {
      var prefix, last := batch[..|batch| - 1], batch[|batch| - 1];
      ImportSavesUploadedOnly(st, prefix, upload);
      ImportSavesAtMostNewIdentifiers(st, prefix, upload);
      var mid := ImportAll(st, prefix, upload);
      var end := ImportAll(st, batch, upload);
      forall n | |st.saved| <= n < |end.saved|
        ensures exists k :: 0 <= k < |batch| && SavedFrom(end.saved[n], batch[k], upload)
      {
        if n < |mid.saved| {
          assert end.saved[n] == mid.saved[n];
          var k :| 0 <= k < |prefix| && SavedFrom(mid.saved[n], prefix[k], upload);
          assert batch[k] == prefix[k];
        } else {
          assert SavedFrom(end.saved[n], batch[|batch| - 1], upload);
        }
      }
    }
  }

  /**
    Conversely, every batch entry whose identifier is new (not processed
    before the call and not taken by an earlier entry) and whose upload
    returns a non-empty URL is saved, with that URL and its own category.
   */
  lemma {:induction false} ImportSavesEveryNewUpload(st: ImportState, batch: seq<SourceProduct>, upload: Uploader, k: nat)
    requires k < |batch|
    requires Identifier(batch[k]) !in st.processed
    requires forall j :: 0 <= j < k ==> Identifier(batch[j]) != Identifier(batch[k])
    requires UploadFor(batch[k], upload).Some? && UploadFor(batch[k], upload).value != ""
    decreases |batch|
    ensures var end := ImportAll(st, batch, upload);
      exists n :: |st.saved| <= n < |end.saved| && SavedFrom(end.saved[n], batch[k], upload)
  {
    var prefix, last := batch[..|batch| - 1], batch[|batch| - 1];
    var mid := ImportAll(st, prefix, upload);
    var end := ImportAll(st, batch, upload);
    assert end == ImportStep(mid, last, upload);
    if k < |batch| - 1 {
      assert prefix[k] == batch[k];
      assert forall j :: 0 <= j < k ==> prefix[j] == batch[j];
      ImportSavesEveryNewUpload(st, prefix, upload, k);
      var n :| |st.saved| <= n < |mid.saved| && SavedFrom(mid.saved[n], batch[k], upload);
      assert end.saved[..|mid.saved|] == mid.saved;
      assert |mid.saved| <= |end.saved|;
      assert end.saved[n] == mid.saved[n];
      assert SavedFrom(end.saved[n], batch[k], upload);
      assert |st.saved| <= n < |end.saved|;
      assert end == ImportAll(st, batch, upload);
    } else {
      ImportRecordsEveryIdentifier(st, prefix, upload);
      assert forall j :: 0 <= j < |prefix| ==> prefix[j] == batch[j];
      assert Identifier(last) !in mid.processed;
      assert SavedFrom(end.saved[|mid.saved|], batch[k], upload);
    }
  }

  /** The identifier is ambiguous: two different products can share it, and the second is skipped. */
  lemma IdentifierCollision()
    ensures var a := SourceProduct("a_b", "c", "Men", 1, 1);
      var b := SourceProduct("a", "b_c", "Men", 1, 1);
      a != b && Identifier(a) == Identifier(b)
  {
  }

  /** The importer's module-level state: the processed set and what it saved. */
  class Importer {
    var processed: set<string>
    var saved: seq<SavedProduct>

    ghost predicate Valid()
      reads this
    {
      |saved| <= |processed|
    }

    constructor ()
      ensures Valid() && processed == {} && saved == []
    {
      processed := {};
      saved := [];
    }

    method ImportProducts(batch: seq<SourceProduct>, upload: Uploader)
      requires Valid()
      modifies this
      ensures Valid()
      ensures ImportState(processed, saved) == ImportAll(ImportState(old(processed), old(saved)), batch, upload)
    {
      ghost var start := ImportState(processed, saved);
      for n := 0 to |batch|
        invariant ImportState(processed, saved) == ImportAll(start, batch[..n], upload)
        invariant |saved| <= |processed|
      {
        assert batch[..n + 1][..n] == batch[..n];
        var product := batch[n];
        var id := Identifier(product);
        if id in processed {
          continue;
        }
        processed := processed + {id};
        var imageUrl := UploadFor(product, upload);
        if imageUrl.Some? && imageUrl.value != "" {
          saved := saved + [SavedProduct(product.name, imageUrl.value, product.category, product.newPrice, product.oldPrice)];
        }
      }
      assert batch[..|batch|] == batch;
    }
  }
}
