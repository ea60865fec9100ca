# Shop backend: carts, sales, catalogue queries and the auth gate

A Dafny model of the sequential logic under an Express/Mongoose e-commerce
backend. The database is an in-memory store with one class per collection:
`Catalog.ProductTable` for products, `Accounts.UserStore` for users and
their carts, and `Sales.Ledger` for sale records. A route that writes to
the database becomes a method that updates those objects in the order of
its awaited calls: the table's own methods (`RemoveProduct`, `Signup`,
the `updateOne` and `$inc` updates), or module-level methods that take
the stores as arguments (`Sales.AddToCart`, `Sales.RemoveFromCart`,
`Sales.RecordSale`, `Sales.CompletePurchase`, the two scripts' loops). A
read-only route changes nothing: `Accounts.UserStore.GetUser` and
`Sales.GetCart` read the user store without a `modifies` clause, and
`Queries.AllProducts`, `Queries.ProductDetails`,
`Queries.NewCollections`, `Queries.PopularProducts` and `Accounts.Login`
work on the collection's sequence of documents. Each method is tied to pure specification
functions, and the properties the routes promise are proved as lemmas
about those functions. The modules:

- `Common`: `Option`, the id synonyms (ids are opaque strings), and the
  collection scan behind every single-field `findOne`.
- `Text`: ASCII `toUpperCase`/`toLowerCase`, `length` in UTF-16 code
  units, and `String.prototype.replace` with a string pattern, which
  replaces only the first occurrence.
- `Categories`: the `normalizeCategory` table of `importProducts.mjs` and
  the first-letter capitalisation of `normalizeCategories.js`.
- `Catalog`: the product document, lookup by `_id`, and the product table
  with the updates the routes and scripts issue (`findOneAndDelete`,
  `updateOne`, `$inc`, `save`).
- `Queries`: the read-only routes of `routes/products.js`: the filtered,
  paginated listing, details by id list, new collections, popular
  products.
- `Auth`: the `fetchuser` middleware: token extraction, verification, and
  the allow/deny decision written onto the request.
- `Accounts`: signup validation, the email-uniqueness check, signup,
  login, `/getuser`.
- `Sales`: cart add/remove/read on the 300-slot cart arrays,
  `/recordSale`, `/completepurchase`.
- `Import`: the import loop with its shared set of processed identifiers.
- `Scripts`: the per-product loops of the two maintenance scripts.

Foreign code is passed in as function-typed parameters: bcrypt hash and
compare, `jwt.sign`/`jwt.verify`, Joi's email predicate,
`mongoose.Types.ObjectId.isValid`, and the image upload. Where the model
needs a property of such a function, it is a named predicate in a
`requires`: `Auth.SignVerifies` (a signed payload verifies back and a token
is never empty) and `Accounts.HashMatches` (a password matches its own
hash). Clocks (`new Date()`) and new ObjectIds are parameters (`now`,
`freshId`).

Where the schemas and the routes disagree, the model follows the routes:

- Carts are 300-slot integer arrays (users.js:49, sales.js:59,69-70), not
  the `{productId, quantity}` list declared in models/User.js.
- Products have a `stock` field (sales.js:25,48), which models/Product.js
  does not declare.

The code omits several safeguards a checkout design would call for. The
model follows the code:

- Checkout has no stock-sufficiency check and no transaction.
- `/recordSale` raises `timesPurchased`, but `/completepurchase` only lowers
  `stock`.
- The cart slot is decremented only when it is non-zero.
- `/popularproducts` ignores any `limit` and returns at most 5 products
  (all of them when there are fewer).

Three things in the code cannot run as written. The model assumes what
was evidently meant:

- `routes/products.js:22` calls an undefined `normalizeCategory`. The model
  uses the one defined in `importProducts.mjs:28-35`.
- `routes/products.js:113` uses `mongoose` without requiring it. The model
  assumes the validity predicate is available.
- `/recordSale` is not behind `fetchuser`, so `req.user` is unset there.
  The buyer's id is a parameter.

`Promise.all` in `/completepurchase` does not cancel the other callbacks
when one item's product is missing. So the model applies every item whose
product exists. The rejected `Promise.all` then escapes the async handler,
so the route sends no response at all; the model's `PurchaseFailed`
stands for that.

Several routes have no `try`/`catch`, so a rejected database call sends no
response. The model gives each such case its own outcome and leaves the
store unchanged:

- An `_id` that Mongoose cannot cast to an ObjectId: `MalformedId` in
  `/removeproduct`, `MalformedProductId` in `/recordSale`. Whether a
  value casts is the parameter `isObjectId`.
- An unknown user in `/addtocart` and `/removefromcart` (`userData` is
  null): `UnknownUser`. In `/getcart` the same case is `Sales.GetCart`
  returning `None`.
- A cart item number of 300 or more: `NoSuchSlot`. The slot past the
  array becomes NaN, which Mongoose refuses to store.

A negative cart item number is different. `cartData[-1]` is a plain
property, not an array element, so the update does not store it. The
route answers "Added" or "Removed" with the cart unchanged, and so does
the model.
`Import.IdentifierCollision` shows that the import identifier
`name_image` is ambiguous: ("a_b", "c") and ("a", "b_c") collide, so the
second product would be skipped.

## Model

| member | source | states |
|---|---|---|
| `Text.IndexOf` | middlewares/fetchuser.js:6 | the result is the first index where the pattern occurs; `None` only when it occurs nowhere |
| `Text.Utf16Length` | routes/users.js:30 | `length` counts UTF-16 code units: the number of characters plus the number of characters above U+FFFF, so between the character count and twice it |
| `Text.ReplaceFirst` | middlewares/fetchuser.js:6 | `replace` with a string pattern; a string without the pattern is returned as is, otherwise the length grows by the replacement's length minus the pattern's; `ReplaceFirstAt` gives its meaning |
| `Text.ReplaceFirstAt` | middlewares/fetchuser.js:6 | `replace` with a string pattern substitutes only the first occurrence and keeps the text before and after it |
| `Text.ReplaceFirstAbsent` | updateImageUrls.js:20-23 | a string without the pattern is returned unchanged |
| `Text.ReplaceFirstPrefix` | updateImageUrls.js:20-23 | a string that starts with the pattern becomes the replacement followed by the rest |
| `Categories.NormalizeCategory` | importProducts.mjs:28-35 | the table lookup on the upper-cased category, falling back to the category: the result is a table value or the category itself; `NormalizeKnown` and `NormalizeOther` say which |
| `Categories.NormalizeKnown` | importProducts.mjs:28-34 | any casing of men, women, kid maps to "Men", "Women", "Kid" |
| `Categories.NormalizeOther` | importProducts.mjs:34 | any other category is returned exactly as given, not upper-cased |
| `Categories.NormalizeIdempotent` | importProducts.mjs:28-35 | normalising twice equals normalising once |
| `Categories.Capitalize` | normalizeCategories.js:21-23 | first character upper-cased, the rest lower-cased; keeps the length; `CapitalizeShape` gives its meaning |
| `Categories.CapitalizeShape` | normalizeCategories.js:21-23 | the result has the input's length, is "" for "", starts with the upper-cased first character and continues with the lower-cased rest |
| `Categories.CapitalizeIdempotent` | normalizeCategories.js:21-23 | capitalising twice equals capitalising once |
| `Categories.CapitalizeIgnoresCase` | normalizeCategories.js:21-23 | two categories that agree up to case capitalise identically |
| `Categories.CapitalizeKnown` | normalizeCategories.js:21-23 | any casing of MEN, WOMEN, KID capitalises to "Men", "Women", "Kid" |
| `Categories.NormalizeAgreesWithCapitalize` | importProducts.mjs:28-35 | on the three table categories, the lookup and the capitalisation give the same result |
| `Catalog.Find` | routes/sales.js:12 | `findById` returns the first document with the id, or `None` when no document has it |
| `Catalog.FindStored` | routes/sales.js:12 | with unique ids, looking up a stored product's id finds exactly that product |
| `Catalog.RemoveAt` | routes/products.js:151 | the table without its i-th document: one shorter, the earlier documents in place, the later ones shifted down by one |
| `Catalog.RemoveAtKeepsOthers` | routes/products.js:151 | deleting one document keeps ids unique, removes that id, and keeps every other document |
| `Catalog.ProductTable.RemoveProduct` | routes/products.js:150-157 | an id that does not cast to an ObjectId gets no response and leaves the table unchanged; an unknown id gives 404 and leaves it unchanged; otherwise exactly that product is removed, the others keep their order, and its name is returned |
| `Catalog.ProductTable.SetCategory` | normalizeCategories.js:25-28 | `updateOne` sets the category of the product with that id and nothing else |
| `Catalog.ProductTable.SetImage` | updateImageUrls.js:24-27 | `updateOne` sets the image of the product with that id and nothing else |
| `Catalog.ProductTable.SetStock` | routes/sales.js:48-49 | `save` writes the new stock of that product and nothing else |
| `Catalog.ProductTable.Increment` | routes/sales.js:24-26 | `$inc` adds to that product's `timesPurchased` and `stock` and changes nothing else |
| `Queries.BuildQuery` | routes/products.js:18-34 | the query object matches a product exactly when it has the normalised category (if one is given and non-empty), `new_price >= minPrice` (if given) and `new_price <= maxPrice` (if given), with both bounds applying together |
| `Queries.Matching` | routes/products.js:37 | a product is in the result exactly when it is in the catalogue and satisfies the filters |
| `Queries.Select` | routes/products.js:37 | `find(query)` keeps stored documents that satisfy the query object, no more than there are; `SelectIsMatching` shows it is exactly the filtered catalogue |
| `Queries.SelectIsMatching` | routes/products.js:37-39 | running the built query returns exactly the matching products in stored order |
| `Queries.Window` | routes/products.js:38-39 | `.skip(skip).limit(limit)` returns at most `limit` documents; `WindowContents` says which |
| `Queries.WindowContents` | routes/products.js:38-39 | the page is the matches with the first `skip` dropped, at most `limit` of them, in order |
| `Queries.CeilDiv` | routes/products.js:46 | `totalPages * limit >= total` and `(totalPages - 1) * limit < total`, i.e. `Math.ceil(total / limit)` |
| `Queries.AllProducts` | routes/products.js:8-49 | `page` and `limit` default to 1 and 10; every listed product satisfies the filters; the page is the window at `(page-1)*limit`; `totalProducts` counts all matches; `totalPages` is the ceiling |
| `Queries.ListingExample` | routes/products.js:37-47 | 25 matches with limit 10 give 3 pages, and page 2 holds items 11 to 20 |
| `Queries.NewCollections` | routes/products.js:138-141 | `slice(-8)` returns the last min(8, n) products in stored order |
| `Queries.InsertByPurchases` | routes/products.js:144-146 | inserting into a non-increasing list keeps it non-increasing and adds exactly the new product |
| `Queries.SortByPurchases` | routes/products.js:144-145 | the sort is a permutation in non-increasing `timesPurchased` order |
| `Queries.PopularProducts` | routes/products.js:144-146 | `sort({timesPurchased: -1}).limit(5)` returns at most 5 products; `PopularProductsSpec` gives its meaning |
| `Queries.PrefixDominatesRest` | routes/products.js:144-146 | in a non-increasing list, nothing after a prefix outranks anything in it |
| `Queries.PopularProductsSpec` | routes/products.js:143-148 | `/popularproducts` returns min(5, n) catalogue products, non-increasing, and no omitted product has a larger `timesPurchased` than any listed one |
| `Queries.ValidIds` | routes/products.js:113 | an id is kept exactly when it is listed and passes the validity predicate |
| `Queries.WithIds` | routes/products.js:121 | `$in` returns exactly the stored products whose id is listed |
| `Queries.ProductDetails` | routes/products.js:102-128 | a missing or non-array `ids` gives 400; no valid id gives 400; no match gives 404, and only then; otherwise a non-empty list of exactly the products with a valid listed id |
| `Auth.ExtractToken` | middlewares/fetchuser.js:6 | no header gives ""; otherwise the first "Bearer " is deleted, so the token is never longer than the header; `ExtractDeletesFirstBearer` and `BearerTokenExtracted` give its meaning |
| `Auth.Authenticate` | middlewares/fetchuser.js:6-17 | an empty extracted token means missing-token, and only then; a failed verification means invalid-token; success carries the payload's `user` |
| `Auth.MissingHeader` | middlewares/fetchuser.js:6-9 | a missing Authorization header gives token "" and the missing-token answer |
| `Auth.BareBearer` | middlewares/fetchuser.js:6-9 | a header of exactly "Bearer " also gives token "" and the missing-token answer |
| `Auth.ExtractDeletesFirstBearer` | middlewares/fetchuser.js:6 | extraction deletes only the first "Bearer ", wherever it is, and keeps the rest of the header |
| `Auth.HeaderWithoutBearer` | middlewares/fetchuser.js:6-13 | a non-empty header without "Bearer " is verified verbatim |
| `Auth.BearerTokenExtracted` | middlewares/fetchuser.js:6 | "Bearer " followed by a token yields that token, whatever it contains |
| `Auth.FetchUser` | middlewares/fetchuser.js:5-19 | on either failure the response is the matching 401, `req.user` is untouched and `next` is not called; on success `req.user` is the payload's `user` and `next` is called exactly once |
| `Accounts.FindUser` | routes/users.js:64 | `findOne({_id})` finds a user with that id, or `None` when there is none |
| `Accounts.FindByEmail` | routes/users.js:11 | `findOne({email})` finds a user with that email, or `None` when there is none |
| `Accounts.Validate` | routes/users.js:27-33 | validation fails on the first bad field in schema order: username (alphanumeric, 3 to 30), then email (non-empty, passes the email predicate), then password (at least 6 UTF-16 code units) |
| `Accounts.AstralPasswordAccepted` | routes/users.js:30 | three characters above U+FFFF are six UTF-16 units, so they meet `min(6)` |
| `Accounts.NewUser` | routes/users.js:41-50 | the new user stores the hash of the password, not the password, and a cart of 300 zeros |
| `Accounts.AppendKeepsUniqueEmails` | routes/users.js:35-51 | appending a user whose email is not yet stored keeps emails unique |
| `Accounts.TokenPayload` | routes/users.js:16 | the payload `{user: {id}}` that login and signup sign; `LoginTokenPassesGate` shows the gate recovers exactly that id |
| `Accounts.Login` | routes/users.js:10-16 | a token is issued exactly when the email is known and the password matches its hash; the token signs that user's id |
| `Accounts.WrongPasswordNoToken` | routes/users.js:11-14 | when no stored user with that email matches the password, the result is "Invalid Credentials" and no token |
| `Accounts.SignupThenLogin` | routes/users.js:11-53 | after a successful signup the same email and password log in, with a token for the new user's id |
| `Accounts.LoginTokenPassesGate` | routes/users.js:16 | the login token, sent as "Bearer <token>", passes `fetchuser` with exactly the logged-in user's id |
| `Accounts.UserStore.Signup` | routes/users.js:26-61 | a validation failure or a known email leaves the store unchanged; otherwise exactly one user is appended and the token encodes its id; unique ids and emails and the 300-slot carts are preserved |
| `Accounts.UserStore.GetUser` | routes/users.js:63-66 | returns the user with the request's id, `None` when there is none, and changes nothing |
| `Sales.Inc` | routes/sales.js:59 | `cartData[itemId] += 1` keeps the cart length; `IncEffect` gives its meaning |
| `Sales.Dec` | routes/sales.js:69-70 | the guarded decrement keeps the cart length; `DecEffect` gives its meaning |
| `Sales.IncEffect` | routes/sales.js:59 | `addtocart` raises the item's slot by exactly 1 and leaves every other slot unchanged |
| `Sales.DecEffect` | routes/sales.js:69-70 | `removefromcart` lowers a non-zero slot by 1, leaves a zero slot unchanged, and leaves every other slot unchanged |
| `Sales.CartStaysNonNegative` | routes/sales.js:59-70 | if every slot is non-negative, adding and removing keep it so |
| `Sales.IncThenDec` | routes/sales.js:59-70 | adding then removing the same item restores the cart when the slot was not -1 |
| `Sales.IncThenDecFromMinusOne` | routes/sales.js:69-70 | a slot of -1 is the one case the add/remove round trip does not restore |
| `Sales.AddToCart` | routes/sales.js:57-65 | for item numbers 0..299 only the requesting user's slot changes, by +1; a negative item answers "Added" with nothing changed; an unknown user or an item of 300 or more gets no response and changes nothing; non-negative carts stay non-negative |
| `Sales.RemoveFromCart` | routes/sales.js:67-76 | for item numbers 0..299 only the requesting user's slot changes, by -1 unless it is 0; a negative item answers "Removed" with nothing changed; an unknown user or an item of 300 or more gets no response and changes nothing; non-negative carts stay non-negative |
| `Sales.GetCart` | routes/sales.js:78-81 | returns the requesting user's 300-slot cart and changes nothing |
| `Sales.Ledger.Save` | routes/sales.js:22 | a sale is appended to the ledger and nothing else changes |
| `Sales.AfterSale` | routes/sales.js:24-26 | the `$inc` keeps the product's id and the sum of `stock` and `timesPurchased`; `AfterSaleMovesUnits` gives its meaning |
| `Sales.AfterSaleMovesUnits` | routes/sales.js:24-26 | a recorded sale raises `timesPurchased` by the quantity, keeps `stock + timesPurchased`, and changes no other field |
| `Sales.OversellGoesNegative` | routes/sales.js:25 | there is no sufficiency check: selling more than the stock leaves it negative |
| `Sales.RecordSale` | routes/sales.js:8-29 | an id that does not cast to an ObjectId gets no response and changes nothing; an unknown product gives not-found with no sale and no product changed; otherwise exactly one sale with the given user, product, quantity and price is appended, and only that product's counters move |
| `Sales.PurchaseStep` | routes/sales.js:36-50 | one item's callback keeps the number of products and adds at most one sale |
| `Sales.Purchase` | routes/sales.js:35-52 | every item's callback in item order keeps the number of products and adds at most one sale per item; `PurchaseLowersStock`, `PurchaseAppendsSales` and `PurchaseFailsOnMissing` give its meaning |
| `Sales.CompletePurchase` | routes/sales.js:31-55 | the new products and ledger are those of applying every item's callback; the call answers success exactly when every product exists, and otherwise sends no response |
| `Sales.PurchaseKeepsIds` | routes/sales.js:35-52 | a purchase never adds, removes, reorders or re-identifies products |
| `Sales.PurchaseFailsOnMissing` | routes/sales.js:38-39 | the purchase succeeds exactly when every item's product exists |
| `Sales.PurchaseLowersStock` | routes/sales.js:48-49 | each product's stock drops by the quantity bought of it; `timesPurchased` and all other fields are untouched |
| `Sales.Bought` | routes/sales.js:48 | the total quantity the items take of one product, non-negative for non-negative quantities; `BoughtDistinct` gives its value |
| `Sales.BoughtDistinct` | routes/sales.js:35-52 | with distinct items, the quantity bought of a product is that of its one item |
| `Sales.SalesFor` | routes/sales.js:41-50 | the sales the callbacks save, at most one per item; `SalesForAllFound` gives their contents |
| `Sales.PurchaseAppendsSales` | routes/sales.js:41-50 | the ledger gains one sale per item whose product exists, in item order, and keeps its old entries |
| `Sales.SalesForAllFound` | routes/sales.js:35-52 | when every product exists, the k-th new sale carries the buyer and the k-th item's product, quantity and price |
| `Import.Identifier` | importProducts.mjs:64 | the identifier is `name`, "_", `image` joined; `IdentifierCollision` shows it is ambiguous |
| `Import.UploadFor` | importProducts.mjs:39-40 | the upload receives the image path and the normalised category; `ImportSavesUploadedOnly` states what its result decides |
| `Import.ImportStep` | importProducts.mjs:63-85 | one loop iteration records the identifier and saves at most one product, only when the identifier was new; a new identifier whose upload returns a non-empty URL is saved with that URL and its own category |
| `Import.ImportAll` | importProducts.mjs:62-87 | the loop never forgets an identifier or an earlier save |
| `Import.ImportRecordsEveryIdentifier` | importProducts.mjs:63-72 | every identifier of the batch is recorded, whether or not its upload succeeded |
| `Import.ImportSavesAtMostNewIdentifiers` | importProducts.mjs:63-84 | saves never outnumber newly recorded identifiers, and earlier saves are kept |
| `Import.ImportSkipsProcessed` | importProducts.mjs:65-68 | a batch whose identifiers are all already processed saves and records nothing |
| `Import.ImportTwiceSavesOnce` | importProducts.mjs:37-72 | importing the same batch again, with the shared set, changes nothing; failed uploads are never retried |
| `Import.ImportSavesUploadedOnly` | importProducts.mjs:72-84 | every new save comes from a batch entry whose upload returned a non-empty URL, and stores that URL with the entry's original category |
| `Import.ImportSavesEveryNewUpload` | importProducts.mjs:63-81 | an entry whose identifier is new to the set and to the earlier entries, and whose upload returns a non-empty URL, is saved with that URL and its original category |
| `Import.IdentifierCollision` | importProducts.mjs:64 | two different products can share the `name_image` identifier |
| `Import.Importer.ImportProducts` | importProducts.mjs:62-87 | the loop leaves the processed set and the saved products as the step-by-step import specifies, and keeps saves at most the number of identifiers |
| `Scripts.Recategorized` | normalizeCategories.js:20-29 | the collection after the loop, one product per stored product; `RecategorizedSpec` gives its meaning |
| `Scripts.UpdateCategories` | normalizeCategories.js:18-29 | after the loop every product's category is the capitalised form of its old one |
| `Scripts.RecategorizedSpec` | normalizeCategories.js:20-29 | only `category` changes, the products and their order are kept, and a second run changes nothing |
| `Scripts.RewriteImage` | updateImageUrls.js:20-23 | a URL without the local origin is left as is; `RewriteImageSpec` gives the other cases |
| `Scripts.RewriteImageSpec` | updateImageUrls.js:20-23 | a URL starting with the local origin becomes the backend URL plus the rest; a URL without it is unchanged; otherwise only its first occurrence is replaced |
| `Scripts.Rehosted` | updateImageUrls.js:19-28 | the collection after the updates, one product per stored product; `RehostedSpec` gives its meaning |
| `Scripts.UpdateImageUrls` | updateImageUrls.js:17-30 | after the updates every product's image is its rewritten URL |
| `Scripts.RehostedSpec` | updateImageUrls.js:19-28 | only `image` changes; the products, their order and their other fields are kept |

## Left out

- Image upload and file handling (`/upload`, `/addproduct`, `uploadImage`): these are foreign network calls. The upload is a parameter that returns a URL or nothing, and the same arguments always give the same result. `/addproduct` is not modelled at all: its product creation is the image upload plus a save, and models/Product.js requires a `description` that the route never supplies.
- bcrypt, jwt, Joi's `email()` and `ObjectId.isValid`: these are foreign libraries, so they are parameters. Token expiry is whatever `verify` decides.
- Joi also refuses unknown body keys. The signup body has exactly three optional fields, so unknown keys are not modelled.
- Concurrency. The `Promise.all` callbacks in `/completepurchase` and `updateImageUrls` run one after another here, so lost updates and the order of ledger entries are not captured.
- Sales.CompletePurchase: requires the items to name distinct products. With a repeated product, the concurrent read-modify-write of `stock` in the source loses updates, and the sequential model would not.
- All request handlers are modelled one request at a time. The lost-update race between two cart requests of the same user is not modelled.
- Number parsing (`parseInt`, `parseFloat`, NaN) and float prices: the model takes integers that are already parsed.
- Queries.AllProducts: a page below 1 or a limit below 1 is reported as `None`. The model does not say what the database does then: a negative skip is a server error, limit 0 means no limit with `Infinity` pages, and a negative limit is a single batch.
- Sales.AddToCart: an unknown user or an item number of 300 or more is the outcome `UnknownUser` or `NoSuchSlot`, with the store unchanged. The source throws there (a TypeError on the null user, a cast failure on NaN), and the request gets no response. The model does not follow the exception itself. Item numbers that are not integers are not modelled.
- Sales.RemoveFromCart: the same as for `Sales.AddToCart`. An unknown user or an item number of 300 or more is `UnknownUser` or `NoSuchSlot`, with the store unchanged, where the source throws and sends no response.
- Sales.GetCart: an unknown user gives `None`. The source throws a TypeError on the null user and sends no response.
- Catalog.ProductTable.RemoveProduct: whether an id casts to an ObjectId is the parameter `isObjectId`. The CastError is the outcome `MalformedId`; the exception and the missing response are not modelled further. The same holds for `Sales.RecordSale` and `MalformedProductId`.
- Missing body fields: Mongoose drops `undefined` keys from filters, so `{_id: undefined}` matches any document. The model's ids, emails and passwords are always present.
- ObjectId matching: ids are compared as exact strings. MongoDB would also treat a hex id as equal to its upper-case spelling.
- Sort ties in `/popularproducts`: MongoDB leaves their order open. The model's insertion sort fixes one order; the proved properties do not depend on it.
- Case mapping: only ASCII letters are mapped. Unicode case mapping (for example "ß" becoming "SS") is not.
- `$` replacement patterns in `String.replace`: the backend URL is taken to contain no `$`. An undefined `BACKEND_URL`, which JavaScript would insert as the text "undefined", is not modelled.
- The save in `importProducts` is taken to succeed, even though the current product schema would reject it for the missing `description`.
- Clocks: every `new Date()` in one call gets the same `now`.
- New ObjectIds: `freshId` is required to be unused, which is what ObjectId generation guarantees.
- index.js (routing, CORS, rate limiter), db.js, config.js and cloudinaryConfig.js are wiring and configuration. mailgunService.js sends email over the network. The cookie set by login and signup is a transport detail. None of these are modelled.
- migration.js: its only effect is a single `$toUpper` `updateMany` that runs inside MongoDB.
- Related products and cart quantity updates do not exist in these files.
