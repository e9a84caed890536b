# homya storefront — a Dafny model

homya is a small shop. A Node/Express server keeps consumers, products,
orders and admins in MongoDB. A single-page React client lets shoppers sign
up, fill a cart, check out and follow their orders, and lets an
administrator manage products and orders.

This project models the core of that system as pure Dafny functions over
immutable state:

- **Consumer routes** (signup, login, password reset, cart get, add, remove
  and clear). Each route is a transition of a store of accounts keyed by
  email.
- **Order schema.** Required fields, the payment enumeration and the
  defaults the database applies when an order is created.
- **Order routes** (place, list, delete, status update). Each is a
  transition of the order collection. The collection is held as a sequence
  in insertion order.
- **Admin login.**
- **Client computations:**
  - the checkout's money arithmetic;
  - the cart page's totals and the snapshot it hands to checkout;
  - the whole checkout submission;
  - the admin product table's ordering;
  - the local list edits the order pages make after a status change or a
    delete;
  - the "My Orders" fee breakdown and cancel button;
  - the signup form's guard.

Conventions:

- A request field that is missing, empty or otherwise falsy is `""`.
  Optional numbers are `Option`s.
- Money is integer cents.
- Timestamps are abstract naturals. The clock and new identifiers are
  parameters.

Modules: `Common` (results and errors), `Seqs` (generic filter, map, reverse
and a stable newest-first sort with their algebra), `Catalog`,
`ConsumerRoutes`, `OrderSchema`, `OrderRoutes`, `AdminRoutes`, `Pricing`,
`CartPage`, `CheckoutPage`, `OrderLists`, `AuthPage`, `AdminPage`.

## Model

| member | source | states |
|---|---|---|
| ConsumerRoutes.Signup | backend/routes/consumer.js:6-20 | Succeeds exactly when name, email and password are all given and the email is not registered. A missing field gives "All fields are required". Failure leaves the store alone. Success adds exactly one account with an empty cart and touches no other account. |
| ConsumerRoutes.Login | backend/routes/consumer.js:23-34 | Never changes the store. Succeeds exactly when the email is registered and the password matches, returning that account's name and email. Otherwise the error is 401 "Invalid credentials". |
| ConsumerRoutes.ForgetPassword | backend/routes/consumer.js:37-50 | Succeeds exactly when the previous password matches. It then replaces only that account's password, with no check on the new one. Failure is 401 and changes nothing. |
| ConsumerRoutes.CartGet | backend/routes/consumer.js:53-62 | An unknown email gives 404. Otherwise one entry per cart line, in order, with the quantity kept and the product resolved against the catalog (absent when the product is gone). |
| ConsumerRoutes.Resolve | backend/routes/consumer.js:56 | Each line's product reference is replaced by the catalog product, or by nothing when the product is gone, keeping order and quantities. |
| ConsumerRoutes.AddLine | backend/routes/consumer.js:70-75 | The first line holding the product gets one more. Otherwise a line of quantity 1 is appended. |
| ConsumerRoutes.CartAdd | backend/routes/consumer.js:65-81 | An unknown email gives 404 and no change. Otherwise the returned and stored cart is the find-or-append of `AddLine` on the old cart: it contains the product, grows by a line only if the product was new, and only that account's cart changes. |
| ConsumerRoutes.RemoveLines | backend/routes/consumer.js:89 | Keeps exactly the lines of other products. The product is then absent. A product not in the cart leaves the cart unchanged. |
| ConsumerRoutes.CartRemove | backend/routes/consumer.js:84-95 | An unknown email gives 404. Otherwise the returned and stored cart is `RemoveLines` of the old cart, so every other line survives in order. It succeeds even when the product was absent, and the product is no longer in the cart. |
| ConsumerRoutes.CartClear | backend/routes/consumer.js:98-110 | A missing email gives 400 "Email is required" and an unknown one 404. Otherwise only that account's cart becomes empty. |
| ConsumerRoutes.SignupThenLogin | backend/routes/consumer.js:14-16 | A fresh signup can log in at once with the same credentials. |
| ConsumerRoutes.SignupTwiceConflicts | backend/routes/consumer.js:12-13 | A second signup with a registered email is refused with "Email already registered" and changes nothing. |
| ConsumerRoutes.ResetThenLogin | backend/routes/consumer.js:44-45 | After a reset the new password logs in, and a different previous password no longer does. |
| ConsumerRoutes.AddLineQuantity | backend/routes/consumer.js:70-75 | Cart-add raises the quantity held of the added product by exactly one and leaves every other product's quantity alone. |
| ConsumerRoutes.AddLineKeepsUnique | backend/routes/consumer.js:70-75 | Cart-add never puts a product on two lines. |
| ConsumerRoutes.AddTwiceToEmpty | backend/routes/consumer.js:70-75 | Adding one product twice to an empty cart yields one line of quantity 2. |
| ConsumerRoutes.RemoveLinesQuantity | backend/routes/consumer.js:89 | Cart-remove zeroes the removed product's quantity and keeps every other product's. |
| ConsumerRoutes.RemoveLinesConcat | backend/routes/consumer.js:89 | Cart-remove works piecewise on any split of the cart, so surviving lines keep their order. |
| ConsumerRoutes.RemoveLinesKeepsUnique | backend/routes/consumer.js:89 | Cart-remove keeps product references unique. |
| ConsumerRoutes.RoutesPreserveWellFormed | backend/routes/consumer.js:6-110 | Every mutating route keeps each account under its own non-empty email with no product on two lines. |
| OrderSchema.ParsePayment | backend/models/Order.js:22 | Accepts exactly the three labels "Cash", "Credit Card" and "Online Payment", and the accepted label round-trips through the enumeration. |
| OrderSchema.CreateLine | backend/models/Order.js:6-13 | A line is accepted exactly when it names a product. Name and price are copied. A missing quantity defaults to 1. |
| OrderSchema.CreateLines | backend/models/Order.js:6-13 | All lines are accepted exactly when every line names a product, in order and one-to-one. |
| OrderSchema.Create | backend/models/Order.js:3-26 | An order is built exactly when consumer email and name are given, the payment label is in the enumeration, a total is given and every line names a product. Fields are copied; status defaults to "Placed" and creation time to now. |
| OrderSchema.CreateToInput | backend/models/Order.js:3-26 | An order with non-empty consumer fields, written out and created again under its own id, comes back unchanged whatever the clock says. |
| OrderSchema.NewOrderDefaults | backend/models/Order.js:24-25 | A body without status or creation time gives status "Placed" created at the current time. |
| OrderSchema.AddressNotChecked | backend/models/Order.js:14-21 | Acceptance does not depend on the address at all, complete or not, and the address is stored as given. |
| OrderRoutes.Find | backend/routes/orders.js:35 | Finds an order exactly when one with that id exists, and returns a member of the collection with that id. |
| OrderRoutes.Place | backend/routes/orders.js:6-14 | Succeeds exactly when the schema accepts the body and the new id is fresh. It then appends exactly that order and keeps ids unique. Any failure is 400 "Failed to place order" and stores nothing. |
| OrderRoutes.List | backend/routes/orders.js:17-30 | Newest first. It holds exactly the stored orders with that consumer email, or all orders when no email is given, each as often as stored. |
| OrderRoutes.Delete | backend/routes/orders.js:33-41 | An unknown id gives 404 "Order not found" and no change. Otherwise exactly the orders with another id remain. |
| OrderRoutes.UpdateStatus | backend/routes/orders.js:44-58 | A missing status gives 400 and an unknown id 404, both without change. Otherwise it returns the updated order, and only that order's status changes. |
| OrderRoutes.PlaceThenListed | backend/routes/orders.js:6-30 | A placed order appears in the full listing and in its consumer's listing. |
| OrderRoutes.DeleteRemovesOne | backend/routes/orders.js:35 | With unique ids, removing the documents with an id removes exactly one when the id is present and none otherwise. |
| OrderRoutes.DeleteShrinks | backend/routes/orders.js:35 | With unique ids, deleting a present id leaves exactly one document fewer. |
| OrderRoutes.DeleteTwice | backend/routes/orders.js:35-36 | Deleting the same id a second time gives 404 and changes nothing. |
| OrderRoutes.DeletedNotListed | backend/routes/orders.js:17-41 | No listing shows a deleted order. |
| OrderRoutes.FindWithStatus | backend/routes/orders.js:48-52 | After the status update, looking the id up finds the old order with the new status. |
| OrderRoutes.UpdateThenFind | backend/routes/orders.js:44-58 | After a successful update, the stored order with that id has the new status and is what the route returned. |
| OrderRoutes.UpdateKeepsUniqueIds | backend/routes/orders.js:48-52 | A status update keeps ids unique. |
| OrderRoutes.DeleteKeepsUniqueIds | backend/routes/orders.js:35 | A delete keeps ids unique. |
| OrderRoutes.FilterKeepsUnique | backend/routes/orders.js:22 | Selecting a subset of orders keeps ids unique. |
| Seqs.Sort | backend/routes/orders.js:22-24 | The newest-first sort yields a descending arrangement that is a permutation of its input. |
| AdminRoutes.Login | backend/routes/admin.js:6-18 | Never changes the admin store. Succeeds exactly when the username exists and the password matches. Otherwise 401 "Invalid credentials". |
| AdminRoutes.FailuresIndistinguishable | backend/routes/admin.js:10-12 | An unknown username and a wrong password get the same reply. |
| Pricing.EffectiveQuantity | frontend/src/App.js:1054 | A missing (zero) quantity counts as exactly one; a given one is kept. |
| Pricing.Subtotal | frontend/src/App.js:1054 | No lines cost nothing, and one line costs its price times its effective quantity; with SubtotalConcat this fixes the sum on every list. |
| Pricing.SubtotalConcat | frontend/src/App.js:1054 | The subtotal of two lists of lines is the sum of their subtotals. |
| Pricing.SubtotalNonNegative | frontend/src/App.js:1054 | Non-negative prices and quantities give a non-negative subtotal. |
| Pricing.TaxCents | frontend/src/App.js:1056 | The tax is 10% of the subtotal rounded to the nearest cent, halves up: within half a cent of a tenth of the subtotal. |
| Pricing.TaxIsNearestCent | frontend/src/App.js:1056 | That rounding property determines the tax uniquely. |
| Pricing.Total | frontend/src/App.js:1055-1057 | Reference definition; no contract: subtotal plus the 20.00 delivery fee plus tax, checked through TotalExample and BreakdownMatchesCheckout. |
| Pricing.TotalExample | frontend/src/App.js:1054-1057 | One line at 10.00 with quantity 2 gives subtotal 20.00, tax 2.00 and total 42.00 (subtotal plus the flat 20.00 delivery plus tax). |
| CartPage.TotalItems | frontend/src/App.js:571 | An empty cart holds no items, and one row holds its effective quantity; SnapshotItemCount ties the whole sum to the snapshot. |
| CartPage.TotalPrice | frontend/src/App.js:543 | An empty cart costs nothing, and one row costs its price times its effective quantity; SnapshotSubtotal ties the whole sum to the checkout subtotal. |
| CartPage.Snapshot | frontend/src/App.js:575-581 | One checkout line per cart item, in cart order, carrying the product's id, name, price and image and the quantity with a missing one counted as one. |
| CartPage.SnapshotSubtotal | frontend/src/App.js:543 | The subtotal checkout computes from the snapshot equals the cart page's total price. |
| CartPage.SnapshotItemCount | frontend/src/App.js:571 | The item count the cart page shows equals the number of items the snapshot hands to checkout. |
| CartPage.SnapshotQuantitiesEffective | frontend/src/App.js:579 | Snapshot quantities are already defaulted, so checkout's own defaulting changes nothing. |
| CheckoutPage.AllFieldsFilled | frontend/src/App.js:1058 | Reference definition; no contract: all six address parts and the payment method are non-empty. |
| CheckoutPage.LineBody | frontend/src/App.js:1076 | A line is posted with its product, name and price, and with its quantity when one is given; a missing quantity is left out. |
| CheckoutPage.Body | frontend/src/App.js:1073-1080 | The body carries the consumer's email and name, the posted form of every line in order, the address and payment label as entered, and the computed total. It leaves status and creation time to the server. |
| CheckoutPage.Submit | frontend/src/App.js:1049-1099 | Anything short of a placed order changes no server state. An empty list ends as "No products to checkout.", an unfilled form is refused by the page's guard, and any other unplaced submission ends as "Failed to place order". A placed order needs lines, a filled form and a logged-in consumer. It is appended under the new id with the checkout total. On the cart path only this consumer's cart is emptied; every other account, and every other field of this one, is unchanged. Buying directly changes no account. |
| CheckoutPage.PlacedExactly | frontend/src/App.js:1049-1099 | An order is placed exactly when there are lines, the form is filled, a consumer with name and email is logged in, the payment label is in the enumeration and the id is fresh. |
| CheckoutPage.PlacedOrderRecordsCheckout | frontend/src/App.js:1073-1080 | The stored order copies every line's product, name, price and defaulted quantity, the address and the payment label. It is "Placed" at the current time. |
| CheckoutPage.CartClearedOnlyFromCart | frontend/src/App.js:1083-1091 | Checking out from the cart empties that consumer's cart and changes nothing else in any account. Buying a product directly leaves every account alone. |
| CheckoutPage.UnknownPaymentFails | frontend/src/App.js:1073-1095 | A payment label outside the enumeration fails at the server and changes nothing. |
| OrderLists.ApplyStatus | frontend/src/App.js:806 | The local edit gives the order with the id its new status and leaves every other entry as it was. |
| OrderLists.DropOrder | frontend/src/App.js:820 | The local edit keeps exactly the entries with another id. |
| OrderLists.DropOrderConcat | frontend/src/App.js:820 | The local drop works piecewise on any split of the list, so kept entries stay in their original order. |
| OrderLists.LocalStatusMatchesRefetch | frontend/src/App.js:806 | After a successful status update, the locally edited listing equals the listing the server now returns, for any email filter, up to the order of orders created at the same instant. |
| OrderLists.LocalDropMatchesRefetch | frontend/src/App.js:1181 | After a successful delete or cancel, the locally filtered listing equals the listing the server now returns, for the admin's list and any consumer's, up to the order of orders created at the same instant. |
| OrderLists.StoredSubtotal | frontend/src/App.js:1202 | A subtotal is available exactly when every stored line has a price. No lines give 0, and one priced line gives its price times its effective quantity. |
| OrderLists.StoredSubtotalConcat | frontend/src/App.js:1202 | The recomputed subtotal of two lists is the sum of theirs, and missing when either is; with the one-line case this fixes its value on every list. |
| OrderLists.Breakdown | frontend/src/App.js:1202-1205 | A breakdown exists exactly when the subtotal does. It shows that subtotal, the 20.00 delivery fee, the tax rounded from that subtotal, and the stored total. |
| OrderLists.StoredSubtotalOfCheckout | frontend/src/App.js:1202 | Lines stored from checkout lines give back the checkout subtotal. |
| OrderLists.BreakdownMatchesCheckout | frontend/src/App.js:1202-1205 | For an order placed from checkout, the breakdown repeats the checkout's subtotal, delivery, tax and total, and they add up. |
| OrderLists.CancelOffered | frontend/src/App.js:1256 | Reference definition; no contract: the button is offered exactly on status "Placed". |
| OrderLists.PlacedOrderOffersCancel | frontend/src/App.js:1256 | A freshly placed order is offered for cancelling. |
| OrderLists.StatusChangeWithdrawsCancel | frontend/src/App.js:1256 | Once an administrator sets any other status, cancelling is no longer offered. |
| OrderLists.ServerDeletesAnyStatus | backend/routes/orders.js:33-41 | The server deletes an order whatever its status, so the cancel rule lives only in the page. |
| AuthPage.SignupGuard | frontend/src/App.js:303-312 | The request goes out exactly when all four fields are filled and the passwords agree. Any empty field gives "All fields are required"; otherwise differing passwords give "Passwords do not match". |
| AuthPage.SubmitSignup | frontend/src/App.js:301-334 | The form signs the consumer in exactly when all fields are filled, the passwords agree and the email is new. Any message shown leaves the store alone. An empty field shows "All fields are required"; with every field filled, differing passwords show "Passwords do not match". |
| AuthPage.GuardLeavesOnlyEmailTaken | frontend/src/App.js:303-312 | Past the page's guard, the server refuses only a registered email, and the page shows "Email already registered". |
| AuthPage.SignedInCanLogIn | frontend/src/App.js:322-325 | Whoever the form signs in can log in again with the same password. |
| AdminPage.Arrange | frontend/src/App.js:607-613 | A permutation of the fetched products: newest first when the first product has a creation time, otherwise exactly the fetched order reversed. |
| AdminPage.AllTimedNewestFirst | frontend/src/App.js:609-610 | When every product has a creation time, the table lists them newest first. |
| AdminPage.ArrangeKeepsTies | frontend/src/App.js:609-610 | When the first product is timed, products created at the same instant keep the order they were fetched in, as the stable sort leaves them. |

## Left out

- Server errors are not modelled. This covers the 500 replies, database failures and Mongoose's casting of malformed ids; the model's ids are plain strings.
- Queries with a field missing altogether are not modelled. For example, `findOne({ email: undefined })`: what it matches depends on driver settings. A missing field is treated as the empty string, which matches no account.
- The product routes and the product and consumer schemas are not modelled. `backend/models/Consumer.js` is not part of this model; `Catalog` keeps only the product fields the core reads.
- `backend/server.js` mounts the consumer, product and admin routers but not the orders router. This model describes the orders routes as written and does not model the mounting.
- The server does not check that an order has at least one line or a complete address. Only the checkout page guards those, and the model follows the code. A line's image URL is posted but is not a schema field, so it is not stored.
- Placing an order under an identifier already in the collection is refused with the same 400 as any other failure. The generation of identifiers is not modelled; they are parameters.
- Pricing.TaxCents: the page computes in floating-point dollars. The model computes exactly in integer cents, so binary rounding effects are not modelled.
- Pricing.EffectiveQuantity: a quantity of 0 stands for a missing one, so an explicit 0 is not distinguished from an absent quantity.
- CartPage.Snapshot: takes items whose product is already resolved. The page fails outright on a cart line whose product has been deleted, and that failure is not modelled.
- AdminPage.Arrange: a product without a creation time sorts as -1. The page's comparator yields NaN for such a product, and JavaScript then leaves the order implementation-defined. Only the all-timed case (newest first, ties in fetched order) and the reversed case are stated exactly.
- OrderRoutes.List: ties in creation time keep insertion order (a stable sort). The database does not promise any order among ties.
- Concurrency between requests, browser storage of the logged-in consumer, rendering, alerts, navigation, the estimated delivery dates and the admin product form are not modelled.
