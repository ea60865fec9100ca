/**
  Category canonicalisation: the lookup table of `normalizeCategory`
  (importProducts.mjs) and the first-letter capitalisation of the
  `updateCategories` script (normalizeCategories.js).
 */
module Categories {
  import opened Text

  /** The fixed table keyed by the upper-cased category. */
  const CategoryTable: map<string, string> := map["MEN" := "Men", "WOMEN" := "Women", "KID" := "Kid"]

  /**
    `mapping[category.toUpperCase()] || category`: every table value is a
    non-empty (truthy) string, so a hit returns the table value and a miss
    returns the category exactly as given.
   */
  function NormalizeCategory(category: string): (r: string)
    ensures r == category || r in CategoryTable.Values
  {
    var key := ToUpper(category);
    if key in CategoryTable then CategoryTable[key] else category
  }

  /** Any casing of MEN, WOMEN and KID maps to the canonical name. */
  lemma NormalizeKnown(category: string)
    ensures ToUpper(category) == "MEN" ==> NormalizeCategory(category) == "Men"
    ensures ToUpper(category) == "WOMEN" ==> NormalizeCategory(category) == "Women"
    ensures ToUpper(category) == "KID" ==> NormalizeCategory(category) == "Kid"
  {
  }

  /** Any other category passes through unchanged (in particular it is not upper-cased). */
  lemma NormalizeOther(category: string)
    requires ToUpper(category) != "MEN" && ToUpper(category) != "WOMEN" && ToUpper(category) != "KID"
    ensures NormalizeCategory(category) == category
  {
  }

  lemma NormalizeIdempotent(category: string)
    ensures NormalizeCategory(NormalizeCategory(category)) == NormalizeCategory(category)
  {
    var key := ToUpper(category);
    if key in CategoryTable {
      assert ToUpper("Men") == "MEN";
      assert ToUpper("Women") == "WOMEN";
      assert ToUpper("Kid") == "KID";
    }
  }

  /**
    `category.charAt(0).toUpperCase() + category.slice(1).toLowerCase()`;
    `charAt(0)` of the empty string is the empty string.
   */
  function Capitalize(category: string): (r: string)
    ensures |r| == |category|
  {
    if category == [] then [] else ToUpper(category[..1]) + ToLower(category[1..])
  }

  /** The result is the first character upper-cased followed by the rest lower-cased. */
  lemma CapitalizeShape(category: string)
    ensures |Capitalize(category)| == |category|
    ensures category == [] ==> Capitalize(category) == []
    ensures category != [] ==> Capitalize(category)[0] == UpperChar(category[0])
    ensures forall i :: 1 <= i < |category| ==> Capitalize(category)[i] == LowerChar(category[i])
  {
    if category != [] {
      var head, tail := ToUpper(category[..1]), ToLower(category[1..]);
      assert Capitalize(category) == head + tail;
      forall i | 1 <= i < |category|
        ensures Capitalize(category)[i] == LowerChar(category[i])
      {
        assert (head + tail)[i] == tail[i - 1];
      }
    }
  }

  lemma CapitalizeIdempotent(category: string)
    ensures Capitalize(Capitalize(category)) == Capitalize(category)
  {
    if category != [] {
      var c := Capitalize(category);
      assert c[..1] == ToUpper(category[..1]);
      assert c[1..] == ToLower(category[1..]);
      ToUpperIdempotent(category[..1]);
      ToLowerOfToLower(category[1..]);
    }
  }

  /** Capitalisation only depends on the upper-cased form. */
  lemma {:induction false} CapitalizeIgnoresCase(a: string, b: string)
    requires ToUpper(a) == ToUpper(b)
    ensures Capitalize(a) == Capitalize(b)
  {
    if a != [] {
      assert |a| == |b|;
      assert UpperChar(a[0]) == UpperChar(b[0]);
      assert ToUpper(a[..1]) == ToUpper(b[..1]);
      forall i | 0 <= i < |a| - 1
        ensures ToLower(a[1..])[i] == ToLower(b[1..])[i]
      {
        assert ToUpper(a)[i + 1] == ToUpper(b)[i + 1];
        SameUpperSameLower(a[i + 1], b[i + 1]);
      }
      assert ToLower(a[1..]) == ToLower(b[1..]);
    }
  }

  /** Any casing of MEN, WOMEN or KID capitalises to the canonical name. */
  lemma CapitalizeKnown(category: string)
    ensures ToUpper(category) == "MEN" ==> Capitalize(category) == "Men"
    ensures ToUpper(category) == "WOMEN" ==> Capitalize(category) == "Women"
    ensures ToUpper(category) == "KID" ==> Capitalize(category) == "Kid"
  {
    var u := ToUpper(category);
    if u == "MEN" || u == "WOMEN" || u == "KID" {
      ToUpperIdempotent(u);
      CapitalizeIgnoresCase(category, u);
      assert ToUpper(u[..1]) == u[..1];
      if u == "MEN" {
        assert ToLower(u[1..]) == "en";
      } else if u == "WOMEN" {
        assert ToLower(u[1..]) == "omen";
      } else {
        assert ToLower(u[1..]) == "id";
      }
    }
  }

  /** On these table entries the two scripts agree. */
  lemma NormalizeAgreesWithCapitalize(category: string)
    requires ToUpper(category) in CategoryTable
    ensures NormalizeCategory(category) == Capitalize(category)
  {
    CapitalizeKnown(category);
  }
}
