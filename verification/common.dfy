/** Shared vocabulary of the shop backend model. */
module Common {

  /** A value that may be absent (a JavaScript `undefined` or a database miss). */
  datatype Option<T> = None | Some(value: T) {
    /** `x ?? fallback` */
    function GetOr(fallback: T): T
    {
      if Some? then value else fallback
    }
  }

  /** Database identities are opaque strings (MongoDB ObjectIds in their hex form). */
  type UserId = string
  type ProductId = string

  /**
    A collection scan: the first position at or after `k` whose document
    has `key` under `keyOf`. Every `findOne` on one field is this search.
   */
  function FirstWithKey<T, K(==)>(docs: seq<T>, keyOf: T -> K, key: K, k: nat): (r: Option<nat>)
    requires k <= |docs|
    decreases |docs| - k
    ensures r.Some? ==> k <= r.value < |docs| && keyOf(docs[r.value]) == key
    ensures r.Some? ==> forall j :: k <= j < r.value ==> keyOf(docs[j]) != key
    ensures r.None? ==> forall j :: k <= j < |docs| ==> keyOf(docs[j]) != key
  {
    if k == |docs| then None
    else if keyOf(docs[k]) == key then Some(k)
    else FirstWithKey(docs, keyOf, key, k + 1)
  }
}
