/**
  Carts and sales (routes/sales.js). Carts are the users' 300-slot
  integer arrays, updated by read-modify-write on one user record.
  Sales are appended to a ledger; product counters are updated in the
  product table. The sequence of awaited database calls is modelled in
  order, one step at a time.
 */
module Sales {
  import opened Common
  import opened Catalog
  import opened Accounts

  // ---------------------------------------------------------------------
  // Carts

  /** `cartData[itemId] += 1`. */
  function Inc(cart: seq<int>, item: nat): (r: seq<int>)
    requires item < |cart|
    ensures |r| == |cart|
  {
    cart[item := cart[item] + 1]
  }

  /** `if (cartData[itemId] !== 0) cartData[itemId] -= 1`. */
  function Dec(cart: seq<int>, item: nat): (r: seq<int>)
    requires item < |cart|
    ensures |r| == |cart|
  {
    if cart[item] != 0 then cart[item := cart[item] - 1] else cart
  }

  predicate NonNegative(cart: seq<int>)
  {
    forall i :: 0 <= i < |cart| ==> cart[i] >= 0
  }

  predicate CartsNonNegative(users: seq<User>)
  {
    forall k :: 0 <= k < |users| ==> NonNegative(users[k].cart)
  }

  /** Adding raises one slot by exactly one and leaves every other slot alone. */
  lemma IncEffect(cart: seq<int>, item: nat)
    requires item < |cart|
    ensures |Inc(cart, item)| == |cart|
    ensures Inc(cart, item)[item] == cart[item] + 1
    ensures forall i :: 0 <= i < |cart| && i != item ==> Inc(cart, item)[i] == cart[i]
  {
  }

  /** Removing lowers a non-zero slot by one and leaves a zero slot (and every other slot) alone. */
  lemma DecEffect(cart: seq<int>, item: nat)
    requires item < |cart|
    ensures |Dec(cart, item)| == |cart|
    ensures cart[item] == 0 ==> Dec(cart, item) == cart
    ensures cart[item] != 0 ==> Dec(cart, item)[item] == cart[item] - 1
    ensures forall i :: 0 <= i < |cart| && i != item ==> Dec(cart, item)[i] == cart[i]
  {
  }

  /** Neither operation makes a non-negative cart negative. */
  lemma CartStaysNonNegative(cart: seq<int>, item: nat)
    requires item < |cart|
    requires NonNegative(cart)
    ensures NonNegative(Inc(cart, item))
    ensures NonNegative(Dec(cart, item))
  {
  }

  /** Removing after adding the same item restores the cart, unless the slot held -1. */
  lemma IncThenDec(cart: seq<int>, item: nat)
    requires item < |cart|
    requires cart[item] != -1
    ensures Dec(Inc(cart, item), item) == cart
  {
  }

  /** With a slot of -1 the round trip does not restore the cart. */
  lemma IncThenDecFromMinusOne(cart: seq<int>, item: nat)
    requires item < |cart|
    requires cart[item] == -1
    ensures Dec(Inc(cart, item), item) != cart
  {
    assert Dec(Inc(cart, item), item)[item] == 0;
  }

  /**
    The cart routes' outcomes. `UnknownUser` (`userData` is null, a
    TypeError) and `NoSuchSlot` (an item number past the cart makes the
    array hold NaN, which Mongoose refuses to cast) are rejections the
    handler does not catch: no response is sent and nothing is stored.
   */
  datatype CartResult = Added | Removed | UnknownUser | NoSuchSlot

  /** The user record with one cart replaced; everything else as it was. */
  function WithCart(users: seq<User>, k: nat, cart: seq<int>): (r: seq<User>)
    requires k < |users|
  {
    users[k := users[k].(cart := cart)]
  }

  /**
    `/addtocart`. A negative item number is a property name rather than an
    array index: the increment lands on it, the update does not store it,
    and the route still answers "Added".
   */
  method AddToCart(store: UserStore, userId: UserId, item: int) returns (r: CartResult)
    requires store.Valid()
    modifies store
    ensures store.Valid()
    ensures CartsNonNegative(old(store.users)) ==> CartsNonNegative(store.users)
    ensures var k := FindUser(old(store.users), userId);
      if k.None? then r == UnknownUser && store.users == old(store.users)
      else if item < 0 then r == Added && store.users == old(store.users)
      else if item >= CartSlots then r == NoSuchSlot && store.users == old(store.users)
      else r == Added && store.users == WithCart(old(store.users), k.value, Inc(old(store.users)[k.value].cart, item))
  {
    var k := FindUser(store.users, userId);
    if k.None? {
      return UnknownUser;
    }
    if item < 0 {
      return Added;
    }
    if item >= CartSlots {
      return NoSuchSlot;
    }
    var userData := store.users[k.value];
    var cart := Inc(userData.cart, item);
    if NonNegative(userData.cart) {
      CartStaysNonNegative(userData.cart, item);
    }
    store.users := WithCart(store.users, k.value, cart);
    r := Added;
  }

  /**
    `/removefromcart`. For a negative item number the slot is `undefined`,
    which is `!== 0`, so it becomes NaN on a property the update does not
    store; the route answers "Removed".
   */
  method RemoveFromCart(store: UserStore, userId: UserId, item: int) returns (r: CartResult)
    requires store.Valid()
    modifies store
    ensures store.Valid()
    ensures CartsNonNegative(old(store.users)) ==> CartsNonNegative(store.users)
    ensures var k := FindUser(old(store.users), userId);
      if k.None? then r == UnknownUser && store.users == old(store.users)
      else if item < 0 then r == Removed && store.users == old(store.users)
      else if item >= CartSlots then r == NoSuchSlot && store.users == old(store.users)
      else r == Removed && store.users == WithCart(old(store.users), k.value, Dec(old(store.users)[k.value].cart, item))
  {
    var k := FindUser(store.users, userId);
    if k.None? {
      return UnknownUser;
    }
    if item < 0 {
      return Removed;
    }
    if item >= CartSlots {
      return NoSuchSlot;
    }
    var userData := store.users[k.value];
    var cart := Dec(userData.cart, item);
    if NonNegative(userData.cart) {
      CartStaysNonNegative(userData.cart, item);
    }
    store.users := WithCart(store.users, k.value, cart);
    r := Removed;
  }

  /** `/getcart`: the user's cart; nothing changes. */
  method GetCart(store: UserStore, userId: UserId) returns (cart: Option<seq<int>>)
    requires store.Valid()
    ensures cart.Some? <==> exists k :: 0 <= k < |store.users| && store.users[k].id == userId
    ensures cart.Some? ==> exists k :: 0 <= k < |store.users| && store.users[k].id == userId && store.users[k].cart == cart.value
    ensures cart.Some? ==> |cart.value| == CartSlots
  {
    var k := FindUser(store.users, userId);
    if k.None? {
      return None;
    }
    cart := Some(store.users[k.value].cart);
  }

  // ---------------------------------------------------------------------
  // Sales

  /** A sale document (models/Sale.js); `isInCart` takes its schema default. */
  datatype Sale = Sale(userId: UserId, productId: ProductId, quantity: int, price: int, date: int, isInCart: bool)

  function NewSale(userId: UserId, productId: ProductId, quantity: int, price: int, now: int): Sale
  {
    Sale(userId, productId, quantity, price, now, true)
  }

  /** The sale collection, only ever appended to. */
  class Ledger {
    var sales: seq<Sale>

    constructor ()
      ensures sales == []
    {
      sales := [];
    }

    /** `newSale.save()`. */
    method Save(sale: Sale)
      modifies this
      ensures sales == old(sales) + [sale]
    {
      sales := sales + [sale];
    }
  }

  /** The product after `$inc: {timesPurchased: quantity, stock: -quantity}`. */
  function AfterSale(p: Product, quantity: int): (r: Product)
    ensures r.id == p.id
    ensures r.stock + r.timesPurchased == p.stock + p.timesPurchased
  {
    p.(timesPurchased := p.timesPurchased + quantity, stock := p.stock - quantity)
  }

  /**
    A recorded sale moves units from stock to the purchase counter: their
    sum is kept, and nothing else about the product changes.
   */
  lemma AfterSaleMovesUnits(p: Product, quantity: int)
    ensures AfterSale(p, quantity).stock + AfterSale(p, quantity).timesPurchased == p.stock + p.timesPurchased
    ensures AfterSale(p, quantity).timesPurchased == p.timesPurchased + quantity
    ensures AfterSale(p, quantity).(timesPurchased := p.timesPurchased, stock := p.stock) == p
  {
  }

  /** There is no sufficiency check: selling more than the stock leaves it negative. */
  lemma OversellGoesNegative(p: Product, quantity: int)
    requires quantity > p.stock >= 0
    ensures AfterSale(p, quantity).stock < 0
  {
  }

  /**
    `/recordSale`'s outcomes: 201, 404, or `MalformedProductId` when
    `findById` cannot cast the id, a rejection nobody catches, so no
    response is sent.
   */
  datatype SaleResult = SaleRecorded | ProductNotFound | MalformedProductId

  /**
    `/recordSale`. The route is not behind `fetchuser`, so the buyer's id
    is taken as a parameter here. `isObjectId` says whether Mongoose can
    cast a value to an ObjectId.
   */
  method RecordSale(catalog: ProductTable, ledger: Ledger, userId: UserId, productId: ProductId,
                    quantity: int, price: int, now: int, isObjectId: string -> bool) returns (r: SaleResult)
    requires catalog.Valid()
    modifies catalog, ledger
    ensures catalog.Valid()
    ensures !isObjectId(productId) ==>
      r == MalformedProductId && catalog.products == old(catalog.products) && ledger.sales == old(ledger.sales)
    ensures isObjectId(productId) && Find(old(catalog.products), productId).None? ==>
      r == ProductNotFound && catalog.products == old(catalog.products) && ledger.sales == old(ledger.sales)
    ensures isObjectId(productId) && Find(old(catalog.products), productId).Some? ==>
      var i := Find(old(catalog.products), productId).value;
      && r == SaleRecorded
      && ledger.sales == old(ledger.sales) + [NewSale(userId, productId, quantity, price, now)]
      && catalog.products == old(catalog.products)[i := AfterSale(old(catalog.products)[i], quantity)]
  {
    if !isObjectId(productId) {
      return MalformedProductId;
    }
    var found := Find(catalog.products, productId);
    if found.None? {
      return ProductNotFound;
    }
    ledger.Save(NewSale(userId, productId, quantity, price, now));
    catalog.Increment(productId, quantity, -quantity);
    r := SaleRecorded;
  }

  /** One line of a `/completepurchase` request. */
  datatype Item = Item(productId: ProductId, quantity: int, price: int)

  predicate DistinctItems(items: seq<Item>)
  {
    forall i, j :: 0 <= i < j < |items| ==> items[i].productId != items[j].productId
  }

  datatype PurchaseState = PurchaseState(products: seq<Product>, sales: seq<Sale>, allFound: bool)

  /** One item's callback: a missing product fails it; otherwise lower the stock and save a sale. */
  function PurchaseStep(s: PurchaseState, item: Item, userId: UserId, now: int): (r: PurchaseState)
    ensures |r.products| == |s.products|
    ensures |s.sales| <= |r.sales| <= |s.sales| + 1
  {
    match Find(s.products, item.productId)
    case None => s.(allFound := false)
    case Some(i) =>
      var p := s.products[i];
      PurchaseState(s.products[i := p.(stock := p.stock - item.quantity)],
                    s.sales + [NewSale(userId, item.productId, item.quantity, item.price, now)],
                    s.allFound)
  }

  /** Every item's callback, in item order. */
  function Purchase(products: seq<Product>, sales: seq<Sale>, userId: UserId, items: seq<Item>, now: int): (r: PurchaseState)
    decreases |items|
    ensures |r.products| == |products|
    ensures |sales| <= |r.sales| <= |sales| + |items|
  {
    if items == [] then PurchaseState(products, sales, true)
    else PurchaseStep(Purchase(products, sales, userId, items[..|items| - 1], now), items[|items| - 1], userId, now)
  }

  /**
    `PurchaseFailed`: some callback threw, so `Promise.all` rejects; the
    handler does not catch it and no response is sent.
   */
  datatype PurchaseResult = PurchaseCompleted | PurchaseFailed

  /**
    `/completepurchase`. `Promise.all` does not cancel the other items'
    callbacks when one throws, so every item whose product exists is
    applied and the request fails if any product is missing. Items are
    taken to name distinct products (with a repeated product the
    concurrent read-modify-write of `stock` loses updates).
   */
  method CompletePurchase(catalog: ProductTable, ledger: Ledger, userId: UserId, items: seq<Item>, now: int)
      returns (r: PurchaseResult)
    requires catalog.Valid()
    requires DistinctItems(items)
    modifies catalog, ledger
    ensures catalog.Valid()
    ensures var s := Purchase(old(catalog.products), old(ledger.sales), userId, items, now);
      catalog.products == s.products && ledger.sales == s.sales && (r == PurchaseCompleted <==> s.allFound)
  {
    var allFound := true;
    for n := 0 to |items|
      invariant catalog.Valid()
      invariant Purchase(old(catalog.products), old(ledger.sales), userId, items[..n], now)
                == PurchaseState(catalog.products, ledger.sales, allFound)
    {
      assert items[..n + 1][..n] == items[..n];
      var item := items[n];
      var found := Find(catalog.products, item.productId);
      if found.None? {
        allFound := false;
      } else {
        var product := catalog.products[found.value];
        catalog.SetStock(item.productId, product.stock - item.quantity);
        ledger.Save(NewSale(userId, item.productId, item.quantity, item.price, now));
      }
    }
    assert items[..|items|] == items;
    r := if allFound then PurchaseCompleted else PurchaseFailed;
  }

  /** The total quantity the items ask of one product. */
  function Bought(items: seq<Item>, id: ProductId): (r: int)
    decreases |items|
    ensures (forall k :: 0 <= k < |items| ==> items[k].quantity >= 0) ==> r >= 0
  {
    if items == [] then 0
    else Bought(items[..|items| - 1], id) + (if items[|items| - 1].productId == id then items[|items| - 1].quantity else 0)
  }

  /** Purchases never add, remove, reorder or re-identify products. */
  lemma {:induction false} PurchaseKeepsIds(products: seq<Product>, sales: seq<Sale>, userId: UserId, items: seq<Item>, now: int)
    decreases |items|
    ensures var s := Purchase(products, sales, userId, items, now);
      |s.products| == |products| && forall j :: 0 <= j < |products| ==> s.products[j].id == products[j].id
  {
    if items != [] {
      PurchaseKeepsIds(products, sales, userId, items[..|items| - 1], now);
    }
  }

  /** The call succeeds exactly when every item's product exists. */
  lemma {:induction false} PurchaseFailsOnMissing(products: seq<Product>, sales: seq<Sale>, userId: UserId, items: seq<Item>, now: int)
    decreases |items|
    ensures Purchase(products, sales, userId, items, now).allFound <==>
      forall k :: 0 <= k < |items| ==> Find(products, items[k].productId).Some?
  {
    if items != [] {
      var prefix := items[..|items| - 1];
      PurchaseFailsOnMissing(products, sales, userId, prefix, now);
      PurchaseKeepsIds(products, sales, userId, prefix, now);
      var s := Purchase(products, sales, userId, prefix, now);
      FindSameIds(s.products, products, items[|items| - 1].productId);
      assert forall k :: 0 <= k < |prefix| ==> prefix[k] == items[k];
    }
  }

  /**
    Each product's stock drops by the total quantity bought of it; its
    `timesPurchased` and every other field stay as they were.
   */
  lemma {:induction false} PurchaseLowersStock(products: seq<Product>, sales: seq<Sale>, userId: UserId, items: seq<Item>, now: int)
    requires DistinctIds(products)
    decreases |items|
    ensures var s := Purchase(products, sales, userId, items, now);
      |s.products| == |products| &&
      forall j :: 0 <= j < |products| ==>
        s.products[j] == products[j].(stock := products[j].stock - Bought(items, products[j].id))
  {
    if items != [] {
      var prefix, last := items[..|items| - 1], items[|items| - 1];
      PurchaseLowersStock(products, sales, userId, prefix, now);
      PurchaseKeepsIds(products, sales, userId, prefix, now);
      var s := Purchase(products, sales, userId, prefix, now);
      FindSameIds(s.products, products, last.productId);
    }
  }

  /** The sales a purchase appends: one per item whose product exists, in item order. */
  function SalesFor(products: seq<Product>, userId: UserId, items: seq<Item>, now: int): (r: seq<Sale>)
    decreases |items|
    ensures |r| <= |items|
  {
    if items == [] then []
    else
      var last := items[|items| - 1];
      SalesFor(products, userId, items[..|items| - 1], now) +
        (if Find(products, last.productId).Some? then [NewSale(userId, last.productId, last.quantity, last.price, now)] else [])
  }

  lemma {:induction false} PurchaseAppendsSales(products: seq<Product>, sales: seq<Sale>, userId: UserId, items: seq<Item>, now: int)
    decreases |items|
    ensures Purchase(products, sales, userId, items, now).sales == sales + SalesFor(products, userId, items, now)
  {
    if items != [] {
      var prefix, last := items[..|items| - 1], items[|items| - 1];
      PurchaseAppendsSales(products, sales, userId, prefix, now);
      PurchaseKeepsIds(products, sales, userId, prefix, now);
      var s := Purchase(products, sales, userId, prefix, now);
      FindSameIds(s.products, products, last.productId);
    }
  }

  /** When every product exists, the k-th new sale is the k-th item's, for this user. */
  lemma {:induction false} SalesForAllFound(products: seq<Product>, userId: UserId, items: seq<Item>, now: int)
    requires forall k :: 0 <= k < |items| ==> Find(products, items[k].productId).Some?
    decreases |items|
    ensures |SalesFor(products, userId, items, now)| == |items|
    ensures forall k :: 0 <= k < |items| ==>
      SalesFor(products, userId, items, now)[k] == NewSale(userId, items[k].productId, items[k].quantity, items[k].price, now)
  {
    if items != [] {
      var prefix := items[..|items| - 1];
      assert forall k :: 0 <= k < |prefix| ==> prefix[k] == items[k];
      SalesForAllFound(products, userId, prefix, now);
    }
  }

  /** With distinct items, the quantity bought of a product is that of its single item. */
  lemma {:induction false} BoughtDistinct(items: seq<Item>, k: nat)
    requires DistinctItems(items)
    requires k < |items|
    decreases |items|
    ensures Bought(items, items[k].productId) == items[k].quantity
  {
    var prefix := items[..|items| - 1];
    if k < |items| - 1 {
      assert prefix[k] == items[k];
      BoughtDistinct(prefix, k);
    } else {
      BoughtAbsent(prefix, items[k].productId);
    }
  }

  lemma {:induction false} BoughtAbsent(items: seq<Item>, id: ProductId)
    requires forall k :: 0 <= k < |items| ==> items[k].productId != id
    decreases |items|
    ensures Bought(items, id) == 0
  {
    if items != [] {
      BoughtAbsent(items[..|items| - 1], id);
    }
  }
}
