# Clothing store: carts, checkout, order queries and the page strip, in Dafny

This project models the logic behind the clothing store's REST backend and one
frontend component:

- **The cart store** (`clothing-store-backend/routes/cartRouter.js`). It holds
  one cart per identity: a logged-in user, or a guest identified by the
  `x-session-id` header. Each cart is an ordered list of lines (line id,
  product, size, quantity). `CartStore` is a class with a mutable map from
  identity to cart. Every route handler is a method that returns the HTTP
  status it answers with and updates the map: get cart, add item, update
  quantity, remove line and clear. The `getOrCreateCart` helper they share is
  the method `GetOrCreate`.
- **Checkout and the order queries** (`clothing-store-backend/routes/ordersRouter.js`).
  Checkout freezes a user's cart into order lines and sums
  `price × quantity`. It writes the order, then deletes the cart, then tries
  the confirmation email and swallows a failure of that call. The list query
  filters to the caller's orders, sorts them newest first, and applies the
  `skip`/`limit` window and the `pages` count. The single-order query tells
  404 (no such order) apart from 403 (someone else's order).
- **The pagination strip** (`frontend/src/components/Pagination.jsx`). It
  computes the window of page numbers, the page-1 and last-page shortcuts, the
  ellipses, and the disabled Previous/Next buttons.
- **The product schema** (`clothing-store-backend/models/product.js`). It
  defines the `Category` and `Size` enumerations, the non-negative price, the
  required fields, the trimmed name and the `createdAt` default. It is modelled
  as a validation function from a submitted document to a stored product.

Prices are integer cents, so the checkout sum is exact. Store and mail
failures during checkout, the clock, the guest UUID and the email address are
parameters.

In three places the code is looser than a reader might expect. The model
follows the code:

- Add-item never checks that the quantity is positive.
- Removing a line id the cart does not hold succeeds with 200; it is not a 404.
- The order list does not replace a non-positive `page` or `limit` by a default.
  A default applies only when the parameter is absent. A negative skip then
  becomes a server error (500), and a zero limit means "no limit".

Files: `common.dfy` (Option, id types, JavaScript string truthiness),
`product.dfy`, `cart.dfy`, `orders.dfy`, `pagination.dfy`.

## Model

Several functions that compute what the routes compute are stated through the lemmas about
them rather than through rows of their own: `Cart.Resolve` (the user-or-session branching at
`cartRouter.js:12-16`, repeated at 152-156, 204-208 and 247-251) through
`Cart.ResolvePrefersUser` and `Cart.NewCart`; `Cart.AddLine` (`cartRouter.js:98-112`) through
the `Cart.AddLine…` lemmas; `Cart.Offers` (`cartRouter.js:87`) through `Cart.OffersIsIncludes`;
`Orders.Total` (`ordersRouter.js:35-37`) through the `Orders.Total…` lemmas; and
`Pagination.StartPage`/`Pagination.EndPage` (`Pagination.jsx:8-17`) through
`Pagination.PageWindow`, `Pagination.WindowBounds` and `Pagination.StripShape`.

| member | source | states |
|---|---|---|
| `Common.FirstIndex` | clothing-store-backend/routes/cartRouter.js:98-100 | the first position whose element satisfies the test, none iff no element does; `FindLine`, `IndexOfId` and `FindOrder` are this search with their own tests |
| `Product.ParseCategory` | clothing-store-backend/models/product.js:22-26 | the category enum accepts exactly the spellings Men, Women, Kids; a rejected string names no category |
| `Product.ParseSize` | clothing-store-backend/models/product.js:27-30 | the size enum accepts exactly S, M, L, XL; a rejected string names no size |
| `Product.Trim` | clothing-store-backend/models/product.js:7 | the trimmed name is the infix left after removing white space at both ends; it neither starts nor ends with white space |
| `Product.TrimIdempotent` | clothing-store-backend/models/product.js:7 | trimming a trimmed name changes nothing |
| `Product.TrimEmptyIffBlank` | clothing-store-backend/models/product.js:4-8 | a name trims to empty, and so fails `required`, exactly when it is all white space |
| `Product.Errors` | clothing-store-backend/models/product.js:3-35 | each field's path is reported exactly when that field's `required`/`min`/`enum` rule fails; each bad `sizes` entry is reported on its own path; no error at all iff the document is acceptable |
| `Product.Validate` | clothing-store-backend/models/product.js:3-35 | accepted iff name (after trim), description, imageUrl are non-empty, price is present and ≥ 0, category is in the enum and every size is in the enum (an empty size list is fine); the stored product has the trimmed name, the same price, category and sizes, `createdAt` defaulting to now, and is well-formed; a rejection lists exactly the failing paths |
| `Product.ValidateToDoc` | clothing-store-backend/models/product.js:3-35 | round trip: every well-formed product, written back as a document, is accepted unchanged |
| `Cart.ResolvePrefersUser` | clothing-store-backend/routes/cartRouter.js:12-16 | a logged-in request acts for its user whatever session it carries; a guest request acts for its session only when the header is non-empty |
| `Cart.NewCart` | clothing-store-backend/routes/cartRouter.js:18-24 | a new cart is empty and has exactly one identity field set: the user when logged in, else the session; its owner is the resolved identity |
| `Cart.OffersIsIncludes` | clothing-store-backend/routes/cartRouter.js:87 | the size check holds iff some entry of the product's `sizes` is spelled as the requested size |
| `Cart.FindLine` | clothing-store-backend/routes/cartRouter.js:98-100 | the index found is the first line with the same product and size; none iff no line matches |
| `Cart.IndexOfId` | clothing-store-backend/routes/cartRouter.js:166 | the index found is the first line with the requested id; none iff no line has it |
| `Cart.Pull` | clothing-store-backend/routes/cartRouter.js:218 | a line survives iff its id differs from the pulled id |
| `Cart.AddLineQuantity` | clothing-store-backend/routes/cartRouter.js:98-112 | adding raises the quantity held for (product, size) by exactly the requested amount and leaves every other pair's quantity unchanged |
| `Cart.AddLineMerges` | clothing-store-backend/routes/cartRouter.js:102-104 | with a matching line, the line count stays the same, that line's quantity grows by the amount, and every other line is unchanged |
| `Cart.AddLineAppends` | clothing-store-backend/routes/cartRouter.js:105-111 | without a matching line, exactly one new line is appended at the end |
| `Cart.AddLineDistinct` | clothing-store-backend/routes/cartRouter.js:98-112 | adding never creates a second line for a (product, size) pair |
| `Cart.AddLineUniqueIds` | clothing-store-backend/routes/cartRouter.js:107-111 | adding with a never-issued line id keeps line ids distinct |
| `Cart.AddTwiceAccumulates` | clothing-store-backend/routes/cartRouter.js:98-112 | adding 2 and then 3 of a new (product, size) gives one new line, with quantity 5 |
| `Cart.PullAbsent` | clothing-store-backend/routes/cartRouter.js:218 | pulling an id no line carries leaves the lines unchanged |
| `Cart.PullOne` | clothing-store-backend/routes/cartRouter.js:218 | with distinct ids, pulling line k's id removes exactly line k and keeps the order of the rest |
| `Cart.PullKeeps` | clothing-store-backend/routes/cartRouter.js:218 | pulling keeps the one-line-per-(product, size) and distinct-id invariants |
| `Cart.CartStore.constructor` | clothing-store-backend/routes/cartRouter.js:3 | the store starts with no carts over the given catalogue |
| `Cart.CartStore.GetOrCreate` | clothing-store-backend/routes/cartRouter.js:9-27 | lookup by the user when there is one, else by the session; an existing cart is returned and nothing changes; otherwise exactly one new empty cart is stored for that identity |
| `Cart.GetOrCreateTwice` | clothing-store-backend/routes/cartRouter.js:13-19 | two lookups for the same identity return the same cart, which is the cart now stored for that identity and, when one existed, the existing cart; only that identity's entry may be added, every other cart and the line-id counter stay unchanged |
| `Cart.CartStore.GetCart` | clothing-store-backend/routes/cartRouter.js:32-58 | 400 and no change iff neither user nor session; otherwise 200 with the identity's cart, created if absent |
| `Cart.CartStore.AddItem` | clothing-store-backend/routes/cartRouter.js:63-131 | 400 for a missing product id or size, 404 for an unknown product, 400 for a size the product does not offer, all with the store unchanged, and 200 whenever all three checks pass (no other status); on 200 the identity's cart (created if absent) gets the requested quantity (default 1) merged or appended, no other cart changes, and a guest gets its session id back |
| `Cart.CartStore.Merge` | clothing-store-backend/routes/cartRouter.js:98-114 | the identity's cart gets the line merged or appended under the next line id, it is saved in place of the old one, every other cart stays, and the store invariant (one line per pair, distinct ids, catalogue products) still holds |
| `Cart.CartStore.UpdateItem` | clothing-store-backend/routes/cartRouter.js:136-191 | 400 iff the quantity is missing or below 1; 404 iff there is no cart or no line with that id; otherwise 200 (no other status); on 200 exactly that line's quantity is set and nothing else changes (no size check) |
| `Cart.CartStore.RemoveItem` | clothing-store-backend/routes/cartRouter.js:196-235 | 404 iff there is no cart; otherwise 200 and the cart keeps all lines except the pulled id; an absent id is a no-op; the last line's removal leaves an empty cart in place |
| `Cart.CartStore.Clear` | clothing-store-backend/routes/cartRouter.js:240-272 | 404 iff there is no cart; otherwise the whole cart is deleted and every other cart stays |
| `Orders.Snapshot` | clothing-store-backend/routes/ordersRouter.js:26-32 | one order line per cart line, in order, copying the product id, the product's current name and price, and the line's size and quantity |
| `Orders.TotalAppend` | clothing-store-backend/routes/ordersRouter.js:35-37 | the total of two runs of lines is the sum of their totals |
| `Orders.TotalIsSum` | clothing-store-backend/routes/ordersRouter.js:35-37 | the left-fold total equals the sum of `price × quantity` over all lines |
| `Orders.TotalNonNegative` | clothing-store-backend/routes/ordersRouter.js:35-37 | with no negative quantities the total is never negative |
| `Orders.TotalExample` | clothing-store-backend/routes/ordersRouter.js:35-37 | 10.00 × 2 + 5.50 × 1 totals exactly 25.50 (2550 cents) |
| `Orders.ForUser` | clothing-store-backend/routes/ordersRouter.js:92 | the listed candidates are exactly the caller's orders, each as often as it is stored |
| `Orders.InsertSorted` | clothing-store-backend/routes/ordersRouter.js:94 | inserting into a newest-first run keeps it newest-first |
| `Orders.SortNewestFirst` | clothing-store-backend/routes/ordersRouter.js:94 | the sorted list is a permutation of the input, newest `orderDate` first |
| `Orders.Window` | clothing-store-backend/routes/ordersRouter.js:95-96 | the page is the contiguous run starting at `skip`, of length `limit` (all remaining for limit 0, the absolute value for a negative limit), clipped at the end |
| `Orders.Pages` | clothing-store-backend/routes/ordersRouter.js:105 | `pages` is the ceiling of total / limit (characterised by the two inequalities, for either sign of the limit), and not finite for a zero limit |
| `Orders.ListOrders` | clothing-store-backend/routes/ordersRouter.js:84-116 | page defaults to 1 and limit to 10 only when absent; a negative `(page-1)*limit` skip fails; otherwise only the caller's orders, newest first, the window at `skip`, `count` its length, `total` the caller's order count and `pages` the ceiling |
| `Orders.WindowOfSorted` | clothing-store-backend/routes/ordersRouter.js:92-96 | a listed page holds only orders of the caller's list and is newest first |
| `Orders.PageHolds` | clothing-store-backend/routes/ordersRouter.js:90-105 | with a positive limit, the order at position i appears on page i/limit+1, at offset i mod limit, and that page is within `pages` |
| `Orders.PageBeyond` | clothing-store-backend/routes/ordersRouter.js:90-105 | with a positive limit, a page number past `pages` lists nothing |
| `Orders.FindOrder` | clothing-store-backend/routes/ordersRouter.js:123 | the found position is the first order with that id; none iff no order has it |
| `Orders.GetOrder` | clothing-store-backend/routes/ordersRouter.js:121-160 | 404 iff the id is malformed or matches no order; 403 iff the order exists and belongs to someone else; 200 with the caller's own order otherwise |
| `Orders.OwnerOnly` | clothing-store-backend/routes/ordersRouter.js:133-143 | with distinct ids, the owner of an order gets 200 and anyone else 403 |
| `Orders.OrderBook.constructor` | clothing-store-backend/routes/ordersRouter.js:3 | the order collection starts empty |
| `Orders.OrderBook.Create` | clothing-store-backend/routes/ordersRouter.js:40-45 | a created order gets the next id (the counter moves up by one), the user, lines, total and date given, and is appended; every stored total equals the sum over its own lines |
| `Orders.Checkout` | clothing-store-backend/routes/ordersRouter.js:13-79 | 400 with no order and no change for an absent or empty cart; 500 with the cart kept if creating the order fails; otherwise the frozen order with the exact total is stored first; if deleting the cart then fails, 500 and the cart remains; else the cart is deleted, the email is attempted, and 201 returns the order whether or not the email went out |
| `Pagination.PageWindow` | frontend/src/components/Pagination.jsx:8-21 | the window starts at max(1, cur-2), moved back to max(1, total-4) when cur ≥ total-2; it ends at min(total, cur+2), widened to min(5, total) when cur ≤ 3; `pages` is the ascending run start..end, empty if start > end |
| `Pagination.Render` | frontend/src/components/Pagination.jsx:23-75 | nothing is rendered iff total ≤ 1; Previous is disabled iff cur = 1 and Next iff cur = total; the page-1 shortcut shows iff start > 1, the leading dots iff start > 2; the last-page shortcut shows iff end < total, the trailing dots iff end < total-1 |
| `Pagination.WindowBounds` | frontend/src/components/Pagination.jsx:8-21 | for 1 ≤ cur ≤ total the window lies in [1, total], contains cur, and has min(5, total) pages |
| `Pagination.StripShape` | frontend/src/components/Pagination.jsx:8-69 | for 1 ≤ cur ≤ total and at least two pages, the numbered buttons run from page 1 to the last page in strictly ascending order (no page twice), number at most seven, include the current page, and skip pages exactly where an ellipsis is drawn (after page 1 with the leading dots, before the last page with the trailing dots) |
| `Pagination.RenderedCurrent` | frontend/src/components/Pagination.jsx:49-57 | for 1 ≤ cur ≤ total and at least two pages, the window buttons ascend strictly and one of them is the current page |

## Left out

- Express routing, the `protect`/`optionalAuth` middleware and the JSON response bodies are not modelled. Only the status codes and the returned cart or order are.
- Mongoose persistence is replaced by in-memory collections: `save`, `populate` and `findOneAndDelete`. The only modelled effect of `populate` is reading a product's current name and price at checkout.
- Store failures are modelled only in checkout: creating the order, and deleting the cart. In the cart routes, a store failure (a 500 answer) is not modelled.
- Cart.AddLineDistinct: product ids are compared as exact strings, so the model assumes a request sends a product id in the canonical lower-case hex form. In the source the catalogue lookup (`cartRouter.js:78`) casts the id and accepts upper-case hex, while the merge test (`cartRouter.js:99`) compares the stored id's lower-case string with the raw request string. An upper-case id for a product already in the cart therefore pushes a second line for the same (product, size), and the source does not keep one line per pair in that case.
- Cart.CartLine: quantities are integers. The routes accept any JSON number, so a fractional quantity such as 1.5 passes the update check at `cartRouter.js:143` and the add path at `cartRouter.js:104`, and the checkout total then is not a whole number of cents; this is not modelled.
- Cart.CartStore.AddItem: the quantity is an integer; fractional JSON quantities, which the source adds unchecked, are not modelled.
- Cart.CartStore.UpdateItem: the quantity is an integer; a fractional quantity of at least 1, which the source stores, is not modelled.
- ObjectId casting is not modelled. An add-item product id missing from the catalogue answers 404. The source answers 500 when the id is not a valid ObjectId. Line ids are natural numbers, so a malformed line id cannot occur. An order id is either well-formed or `Malformed`; a malformed one answers 404, as in the source.
- Line and order ids are issued by counters. They stand for generated ObjectIds.
- The product catalogue is fixed for the life of a `CartStore`. Product edits and deletions are outside this core. Because of this, no cart line ever refers to a missing product.
- `models/cart.js` and `models/order.js` are not part of this model. Any constraint their schemas put on quantities is absent, and so is the order `status` field.
- `getOrCreateCart` called with neither a user nor a session is not modelled. Both of its callers rule that case out first, so `GetOrCreate` requires a resolvable identity.
- `uuidv4()` is the `freshSession` parameter of `AddItem`. `frontend/src/utils/sessionId.js` is not part of this model.
- `config/email.js` and `utils/emailTemplates.js` are not part of this model. The email is an effect carrying the recipient, the order id and whether the call succeeded.
- The `populate` of the created order before the response (`ordersRouter.js:48`) is not modelled, and neither is a failure in it.
- Prices are integer cents rather than JavaScript numbers, so `toFixed` display formatting and floating-point rounding are not modelled.
- Query strings that `parseInt` turns into `NaN` are not modelled: `page` and `limit` are integers. MongoDB's batch-size cap on a negative limit is ignored.
- Orders with equal `orderDate` are listed in an order MongoDB does not fix. The model lists them in one particular order.
- The text index on name and description (`product.js:38`) is not modelled; product search is outside this core.
- Request fields of the wrong JSON type are not modelled (for example, a quantity sent as a string, which `+=` would concatenate).
- Concurrent updates to one cart, and the lost updates they can cause, are not modelled.
- `Pagination.Render`: does not model the `active` class on the current page's button or the `onPageChange` callbacks. `RenderedCurrent` states that the current page is among the buttons.
