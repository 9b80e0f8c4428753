# Strike Edge Sports backend: orders, stock and catalogue tables

This project models the core of the Strike Edge Sports shop backend, an
Express and MongoDB service. The core is the order lifecycle and what it does
to product stock.

- **Cash-on-delivery orders.** `createOrder` checks the cart, recomputes the
  subtotal, stores the order and reserves stock.
- **Status changes.** An administrator changes an order's status; a customer
  cancels their own order. Both put stock back on cancellation.
- **Online payment.** `createCashfreeOrder` stores a pending order and reserves
  nothing. The Cashfree webhook then checks the signature, filters the event
  and, once per order, reserves the stock and marks the payment PAID.
- **Order codes.** The order schema's pre-save hook builds the
  `SE-YYMMDD-NNNNN` code.

Around that core the model covers:

- the customer's address book and its "one default address" rule;
- the phone and pincode validators;
- the saved-products toggle;
- the category and product-type registries, keyed by a unique slug (one
  deletes softly, one removes the record);
- the product handlers: the required-field check of `addProduct`, the query,
  sort and offset of `getAllProducts`, the slug rule of `updateProduct` and the
  selection of `getRelatedProducts`.

The database is two tables, products and orders. They are a `Tables` value,
held by the class `Store.Db`. Each state-changing endpoint is a method that
takes the `Db`. It is proved equal to a specification function from the old
tables to the new tables and the HTTP outcome, and the lemmas are stated
about those functions. `ProductController.UpdateProduct` is the exception: its
new table is stated directly in its postconditions. User records, categories and product types are classes of their
own: `UserAccounts.User`, `CategoryController.CategoryTable` and
`ProductTypeController.ProductTypeTable`.

Everything the handlers read from outside is an input:

- the clock is a `Moment`;
- the caller is a user id, or a `Caller`;
- `slugify`, the HMAC digest and `JSON.parse` are function parameters;
- the Cashfree reply is an `Option`.

A missing or falsy JavaScript string field is the empty string.

The model follows the code where the code does not keep its apparent
promises, and the lemmas say so:

- An administrator can cancel, reopen and cancel again. Stock is then released
  twice (`OrderController.AdminReopenReleasesTwice`).
- Cancelling an unpaid online order releases stock that order never reserved
  (`CashfreeController.UnpaidCancelAddsStock`).
- Stock is checked one line at a time. Two lines for the same product can
  together take more than is in stock. The webhook does not recheck stock at
  all. So no lemma claims that stock stays non-negative.

## Model

| member | source | states |
|---|---|---|
| Text.NatToDecimal | src/models/order.model.js:130-143 | `String(n)` for a natural number: a non-empty string of digits whose last digit is `n % 10`, starting with '0' only for zero |
| Text.DecimalRoundTrip | src/models/order.model.js:143 | reading the decimal text of `n` back gives `n` |
| Text.PadStart | src/models/order.model.js:131-143 | `padStart(width, pad)`: the length is the larger of the string's length and `width`, the string is a suffix and the rest is `pad`, so it never truncates |
| Text.PaddedDecimalValue | src/models/order.model.js:143 | a zero-padded decimal is all digits and still reads back as the number |
| Text.TakeLast | src/models/order.model.js:130 | `slice(-n)`: the last `min(n, length)` characters |
| Text.Trim | src/controllers/user.controller.js:17 | `trim()`: the result is the slice of the input after its leading whitespace, with only whitespace after it and none at either of its own ends; it is empty exactly when the input is all whitespace |
| Text.TrimmedFromUnique | src/controllers/user.controller.js:17 | only one string is the input with its surrounding whitespace cut off, so that description fixes what `trim()` returns |
| Text.TrimIdempotent | src/models/product.model.js:5-10 | trimming a trimmed string changes nothing |
| Text.NameLeTotal | src/controllers/category.controller.js:29-31 | the code-point name order used by `sort({ name: 1 })` relates any two names |
| Text.Utf16Length | src/controllers/user.controller.js:17 | `length` counts UTF-16 code units: at least one and at most two per character |
| Text.Utf16LengthIsLength | src/controllers/user.controller.js:17 | `length` equals the number of characters exactly when none lies above U+FFFF |
| Paging.Skip | src/controllers/order.controller.js:123 | `(page - 1) * limit` is never negative for page ≥ 1 and is 0 on the first page; with a positive limit it is negative exactly when page < 1 |
| Paging.TotalPages | src/controllers/order.controller.js:145 | `Math.ceil(total / limit)`: enough pages for every order, not one page more, and zero pages exactly when there are no orders |
| Paging.LastPageHoldsTheRest | src/controllers/order.controller.js:123-145 | the last page's offset lies inside the list and its window reaches the last order |
| OrderModel.ParseStatus | src/models/order.model.js:82-86 | a status is recognised only from its own stored name |
| OrderModel.ParseStatusName | src/models/order.model.js:82-86 | each of the five statuses is recognised from its name |
| OrderModel.ParseMethod | src/models/order.model.js:76-80 | a payment method is accepted exactly when it is COD or ONLINE, and maps back to that name |
| OrderModel.Instantiate | src/models/order.model.js:45-117 | the sent user, items, payment method, subtotal, total and address are stored as given, with the creation time. The schema defaults hold: status PLACED, delivery charge 0, empty cancellation reason, no canceller, PENDING payment, country India. The document is valid exactly when the draft has a user and items with quantity ≥ 1 |
| OrderModel.SequenceCode | src/models/order.model.js:143 | the sequence part has at least five digits and reads back as `count + 1` |
| OrderModel.YearCodeIsLastTwoDigits | src/models/order.model.js:130 | YY is the year modulo 100 written with two digits |
| OrderModel.YearCodeDigits | src/models/order.model.js:130 | YY is the tens digit and the units digit of the year |
| OrderModel.TwoDigitsDigits | src/models/order.model.js:131-132 | a month or day below 100 is written as its tens digit then its units digit |
| OrderModel.TwoDigitsShape | src/models/order.model.js:131-132 | MM and DD are exactly two digits |
| OrderModel.DateCodeShape | src/models/order.model.js:130-134 | YYMMDD is exactly six digits on a valid date |
| OrderModel.OrderCodeLayout | src/models/order.model.js:128-145 | the code is "SE-", six date digits, "-", then a sequence that reads back as `count + 1` |
| OrderModel.SameDayCodesOrdered | src/models/order.model.js:137-145 | on one day, different counts give different order codes, and the larger count carries the larger sequence number |
| OrderModel.PreSave | src/models/order.model.js:125-146 | after the hook the code is set. An existing code is kept. A new one is built from today's date and count. Nothing else changes |
| Inventory.AdjustAt | src/controllers/order.controller.js:74-81 | the per-line `$inc` loop moves each product by its total quantity over all lines |
| Inventory.NotOrderedUnchanged | src/controllers/order.controller.js:74-81 | a product on no line is asked for nothing |
| Inventory.ReserveEffect | src/controllers/order.controller.js:74-81 | reserving keeps the product set. Each product's stock goes down and its sold count goes up by its ordered quantity; nothing else changes, and products not ordered are untouched |
| Inventory.ReleaseEffect | src/controllers/order.controller.js:243-250 | releasing raises stock and lowers the sold count by the ordered quantity, and changes nothing else |
| Inventory.ReleaseUndoesReserve | src/controllers/order.controller.js:243-250 | releasing the lines just reserved restores the product table exactly |
| Store.NewOrder | src/models/order.model.js:125-146 | `Order.create` stores the draft with the schema defaults, the creation time and the code built from today's count |
| Store.CountSinceInsert | src/models/order.model.js:137-141 | storing one more order created today raises today's count by one |
| Store.SuccessiveOrdersIncrease | src/models/order.model.js:137-143 | two orders created one after the other on the same day get sequence numbers n+1 and n+2 |
| Store.FreshKey | src/controllers/order.controller.js:60-72 | the id handed to a new order is not yet in use |
| Store.NewOrderStored | src/controllers/order.controller.js:60-72 | a valid draft becomes a stored order with a code |
| Store.Db.Insert | src/controllers/order.controller.js:60-72 | the new order is stored under a fresh id, and the products do not change |
| Store.Db.Save | src/controllers/order.controller.js:198-199 | `order.save()` replaces that one order and nothing else |
| Store.Db.SaveProduct | src/controllers/product.controller.js:284 | `product.save()` replaces that one product and nothing else |
| Store.Db.AdjustStock | src/controllers/order.controller.js:74-81 | the loop of `findByIdAndUpdate` `$inc` updates leaves the product table equal to the `Adjust` fold. An id with no product is skipped. The orders do not change |
| OrderController.SubtotalConcat | src/controllers/order.controller.js:47-50 | the `reduce` subtotal of two carts joined is the sum of their subtotals |
| OrderController.FirstBadLine | src/controllers/order.controller.js:31-45 | finds the first line whose product is missing or short of stock, and says which. None exactly when every line passes |
| OrderController.FindBadLine | src/controllers/order.controller.js:31-45 | the validation loop stops at that same first failing line |
| OrderController.CreateCheck | src/controllers/order.controller.js:19-72 | each answer comes exactly when every earlier test passed and its own fails, in the handler's order: empty cart; missing address; missing payment method; the first bad line of `FirstBadLine`, 404 for a missing product and 400 for short stock; a client subtotal other than Σ price × quantity; then a 500 when `Order.create` throws (no delivery charge, a method outside the enum, an invalid item). Acceptance is exactly all tests passing |
| OrderController.CreateOrderSpec | src/controllers/order.controller.js:19-81 | a rejection writes nothing. A created order stores the server subtotal, total = subtotal + delivery charge, the delivery charge, the payment method and address as sent (country India by default), a PENDING COD payment, status PLACED, no cancellation reason or canceller, the creation time and the day's code. Every product's stock goes down and its sold count up by its ordered quantity, and nothing else in the products changes |
| OrderController.CreateOrder | src/controllers/order.controller.js:8-117 | the handler's effect on the tables and its outcome are those of `CreateOrderSpec` |
| OrderController.AdminStatusSpec | src/controllers/order.controller.js:158-199 | no change for an unknown status, a missing order or DELIVERED→CANCELLED. A first cancellation leaves the products equal to `Release` of the order's lines, stock back and sold count down, and records ADMIN as canceller. Any other accepted change, CANCELLED→CANCELLED included, only overwrites the status |
| OrderController.UpdateOrderStatus | src/controllers/order.controller.js:153-209 | the handler's effect and outcome are those of `AdminStatusSpec` |
| OrderController.AdminCancelTwiceIsOnce | src/controllers/order.controller.js:185-198 | cancelling twice leaves the same tables as cancelling once |
| OrderController.AdminReopenReleasesTwice | src/controllers/order.controller.js:185-198 | cancel, reopen and cancel again releases the order's stock twice |
| OrderController.UserCancelSpec | src/controllers/order.controller.js:227-256 | only the caller's order is found. DELIVERED and CANCELLED orders are refused with no change. Otherwise stock goes back and the order records CANCELLED, the reason and USER |
| OrderController.CancelOrderByUser | src/controllers/order.controller.js:222-264 | the handler's effect and outcome are those of `UserCancelSpec` |
| OrderController.CreateThenCancelRestoresStock | src/controllers/order.controller.js:236-256 | a COD order (created at lines 74-81) cancelled by its owner restores the product table exactly, and a second cancel is refused with no change |
| OrderController.GetOrderByCashfreeId | src/controllers/order.controller.js:279-320 | an empty id is a 400; no matching order is a success with a null order. A found order is shown to anonymous callers, admins and its owner. Another signed-in user gets 403 |
| OrderController.OrderListWindow | src/controllers/order.controller.js:121-145 | a page below 1 gives a negative skip and the query fails with a 500. Otherwise the window has the page, the limit and skip = (page − 1) × limit; defaults page 1 and limit 6 give offset 0, and the page count covers the total with no empty last page |
| CashfreeController.OnlineCheck | src/controllers/cashfree.controller.js:14-36 | empty cart, then the first missing or short-stocked line, then totalAmount ≠ Σ price × quantity. Passing means all hold and the temporary order is valid |
| CashfreeController.OnlineSpec | src/controllers/cashfree.controller.js:14-102 | product stock never changes. A rejection writes nothing. An accepted request stores an ONLINE order: delivery 0, total = subtotal, PLACED, a PENDING Cashfree payment. It reports the `SE-<now>` reference only when the gateway replied |
| CashfreeController.CreateCashfreeOrder | src/controllers/cashfree.controller.js:10-103 | the handler's effect and outcome are those of `OnlineSpec` |
| CashfreeController.ApplyEvent | src/controllers/cashfree.controller.js:127-180 | no change for an unparsable body, another event type, a missing tag, an unknown order or an order already PAID. Otherwise the order's stock is reserved and the payment becomes PAID with both gateway ids, status PLACED |
| CashfreeController.WebhookSpec | src/controllers/cashfree.controller.js:109-199 | a bad signature is a 400 with no change. Every other path is a 200 that applies the event |
| CashfreeController.CashfreeWebhook | src/controllers/cashfree.controller.js:105-200 | the handler's effect and outcome are those of `WebhookSpec` |
| CashfreeController.WebhookIdempotent | src/controllers/cashfree.controller.js:157-161 | delivering the same webhook twice equals delivering it once |
| CashfreeController.OnlinePaymentReservesOnce | src/controllers/cashfree.controller.js:39-180 | a pending online order confirmed by two deliveries of its success webhook reserves stock exactly once and ends PAID with the gateway's order id |
| CashfreeController.UnpaidCancelAddsStock | src/controllers/order.controller.js:243-250 | cancelling the pending online order (stored at cashfree.controller.js:39-55) is accepted and raises stock by the quantities it never took |
| SlugRegistry.FindId | src/controllers/category.controller.js:65-69 | the position of the record with that id, or none exactly when no record has it |
| SlugRegistry.FindActiveBySlug | src/controllers/product.controller.js:105-117 | `findOne({ slug, isActive: true })`: none exactly when no active record has the slug, else the id of one that does |
| SlugRegistry.CreateSpec | src/controllers/category.controller.js:8-19 | a missing name, or a slug held by any record (a soft-deleted one included), is refused with no change. Otherwise an active `{ name, slug }` is appended under the next id |
| SlugRegistry.UpdateSpec | src/controllers/category.controller.js:50-71 | a blank name, or a slug held by another record, is refused. A missing id changes nothing. Otherwise only the target's name and slug change |
| SlugRegistry.SoftDelete | src/controllers/category.controller.js:81 | each record with the id is marked inactive; every record stays |
| SlugRegistry.HardDelete | src/controllers/productType.controller.js:80 | exactly the records with other ids remain |
| SlugRegistry.SoftDeleteAt | src/controllers/category.controller.js:81 | with unique ids, soft delete flips one record's flag or changes nothing |
| SlugRegistry.HardDeleteAt | src/controllers/productType.controller.js:80 | with unique ids, hard delete removes exactly the one position |
| SlugRegistry.CreateKeepsTable | src/controllers/category.controller.js:14-19 | create keeps ids unique and below the counter, and slugs unique |
| SlugRegistry.UpdateKeepsTable | src/controllers/category.controller.js:56-69 | update keeps ids unique and slugs unique |
| SlugRegistry.SoftDeleteKeepsSlugs | src/controllers/category.controller.js:81 | soft delete keeps the invariants, and a slug stays taken exactly when it was |
| SlugRegistry.HardDeleteFreesSlug | src/controllers/productType.controller.js:80 | after hard delete the removed record's slug is free |
| SlugRegistry.InsertByNameContents | src/controllers/category.controller.js:29-31 | inserting by name adds exactly one record |
| SlugRegistry.InsertByNameSorted | src/controllers/category.controller.js:29-31 | inserting into a name-sorted list keeps it sorted |
| SlugRegistry.SortByName | src/controllers/category.controller.js:29-31 | the result is sorted by name and is a permutation of the input |
| SlugRegistry.ActiveRows | src/controllers/category.controller.js:29 | exactly the active records |
| SlugRegistry.Listing | src/controllers/category.controller.js:29-31 | `find({ isActive: true }).sort({ name: 1 })`: sorted by name, the same multiset as the active records, and a record appears exactly when it is active |
| CategoryController.CategoryTable.Create | src/controllers/category.controller.js:4-25 | the table becomes what `CreateSpec` says, the id counter moves on only on success, and the invariant holds |
| CategoryController.CategoryTable.Update | src/controllers/category.controller.js:45-75 | the table becomes what `UpdateSpec` says, and the invariant holds |
| CategoryController.CategoryTable.Delete | src/controllers/category.controller.js:77-87 | the table becomes its soft delete, and the invariant holds |
| CategoryController.CategoryTable.GetAll | src/controllers/category.controller.js:27-42 | sorted by name, the same multiset as the active records, and a record appears exactly when it is active |
| ProductTypeController.ProductTypeTable.Create | src/controllers/productType.controller.js:4-25 | the table becomes what `CreateSpec` says, and the invariant holds |
| ProductTypeController.ProductTypeTable.Update | src/controllers/productType.controller.js:44-74 | the table becomes what `UpdateSpec` says, and the invariant holds |
| ProductTypeController.ProductTypeTable.Delete | src/controllers/productType.controller.js:76-86 | the record is removed and its slug is no longer taken |
| ProductTypeController.ProductTypeTable.GetAll | src/controllers/productType.controller.js:27-42 | sorted by name, the same multiset as the active records, and a record appears exactly when it is active |
| UserAccounts.PhoneRange | src/controllers/user.controller.js:22 | `^[6-9]\d{9}$` accepts exactly the ten-digit strings worth at least 6000000000 |
| UserAccounts.PincodeOfNumber | src/controllers/user.controller.js:78 | every number below a million, zero-padded to six, is a valid pincode and reads back as itself |
| UserAccounts.AddressCheck | src/controllers/user.controller.js:65-83 | in order: a missing field, then a bad phone, then a bad pincode. Passing means all are good |
| UserAccounts.ProfileCheck | src/controllers/user.controller.js:17-28 | a name whose trimmed `length`, in UTF-16 units, is below 2 is refused, then a present phone that fails the pattern; otherwise the profile is accepted |
| UserAccounts.OneCharacterNames | src/controllers/user.controller.js:17 | a name of one non-blank character is accepted exactly when it lies above U+FFFF (such as an emoji), since its `length` is then 2 |
| UserAccounts.FindAddress | src/controllers/user.controller.js:138 | `addresses.id(addressId)`: the address's position, none exactly when absent |
| UserAccounts.FindAddressOnly | src/controllers/user.controller.js:138 | with unique address ids, which every user record keeps, the address found is the only one with that id |
| UserAccounts.ClearDefaults | src/controllers/user.controller.js:98-100 | every address loses its default flag, and nothing else changes |
| UserAccounts.AfterAdd | src/controllers/user.controller.js:93-111 | the new address is appended last and is default when asked or when the book was empty; in that case the others lose the flag, and nothing else changes |
| UserAccounts.AfterDelete | src/controllers/user.controller.js:144-151 | the address is removed and the others keep their order. If a default address was deleted, the first remaining one becomes default |
| UserAccounts.AfterSetDefault | src/controllers/user.controller.js:180-186 | exactly the chosen address is default, and nothing else changes |
| UserAccounts.AfterUpdate | src/controllers/user.controller.js:234-239 | the target's six fields are replaced; its id, its flag and every other address stay |
| UserAccounts.AddKeepsDefaultRule | src/controllers/user.controller.js:93-111 | adding keeps "at most one default" and "a non-empty book has a default" |
| UserAccounts.DeleteKeepsDefaultRule | src/controllers/user.controller.js:144-151 | deleting keeps both parts of the rule |
| UserAccounts.SetDefaultKeepsDefaultRule | src/controllers/user.controller.js:180-186 | after choosing a default the rule holds, whatever held before |
| UserAccounts.UpdateKeepsDefaultRule | src/controllers/user.controller.js:234-239 | editing fields keeps the rule |
| UserAccounts.RemoveAll | src/controllers/product.controller.js:350 | `pull` removes every copy of the id and keeps the rest |
| UserAccounts.Toggled | src/controllers/product.controller.js:347-353 | afterwards the id is saved exactly when it was not, and other ids are unaffected |
| UserAccounts.ToggleTwice | src/controllers/product.controller.js:347-358 | toggling twice restores membership, and restores the list itself when the id was absent |
| UserAccounts.RemoveAllAppended | src/controllers/product.controller.js:350-352 | pulling an id just pushed gives back the original list |
| UserAccounts.User.UpdateProfile | src/controllers/user.controller.js:13-57 | refused per `ProfileCheck` with no change; otherwise the trimmed name and the phone (or "") are stored and nothing else changes |
| UserAccounts.User.ClearAllDefaults | src/controllers/user.controller.js:97-101 | the `forEach` loop leaves the book equal to `ClearDefaults` |
| UserAccounts.User.AddAddress | src/controllers/user.controller.js:59-125 | refused per `AddressCheck` with no change; otherwise the book becomes `AfterAdd` under a new address id |
| UserAccounts.User.DeleteAddress | src/controllers/user.controller.js:127-163 | an unknown id is a 404 with no change; otherwise the book becomes `AfterDelete` |
| UserAccounts.User.SetDefaultAddress | src/controllers/user.controller.js:165-198 | an unknown id is a 404 with no change; otherwise the book becomes `AfterSetDefault` |
| UserAccounts.User.UpdateAddress | src/controllers/user.controller.js:200-251 | body checks, then lookup. Any refusal changes nothing; otherwise the book becomes `AfterUpdate` |
| UserAccounts.User.ToggleSavedProduct | src/controllers/product.controller.js:341-361 | the list becomes `Toggled`, and `saved` is true exactly when the id was not saved before |
| ProductController.TrimAttributes | src/models/product.model.js:61-72 | the list keeps its length, and each stored key and value is the sent one with its surrounding whitespace cut off |
| ProductController.TrimAttributesIdempotent | src/models/product.model.js:61-72 | trimming stored attributes again changes nothing |
| ProductController.AddProduct | src/controllers/product.controller.js:21-46 | "missing fields" exactly when title, price, category, grade or type is falsy or there are no images. A complete request is built exactly when the title and grade are not all whitespace, the slug is non-empty and the type is in the enum; otherwise the schema refuses it with a 500. A built document has the slug of the raw title and grade, trimmed text, stock defaulting to 0, sold count 0 and isActive true |
| ProductController.SortFor | src/controllers/product.controller.js:121-134 | the three named orders are chosen by their own names, and every other value means newest first |
| ProductController.SortNameRoundTrip | src/controllers/product.controller.js:121-134 | each order is selected by its own name |
| ProductController.PlanProductList | src/controllers/product.controller.js:82-140 | defaults: page 1, limit 6, latest, all types, all categories. The type is filtered only when it is not "all". An unknown category slug is a 404; a known one filters by an active category with that slug. Otherwise a negative skip fails the query with a 500, and a plan has skip = (page − 1) × limit ≥ 0 |
| ProductController.DefaultListingIsActiveCatalog | src/controllers/product.controller.js:91-103 | with no search, type or category and a positive limit, the listing is planned exactly when the page is at least 1; a planned listing lists a product exactly when it is active, and page 1 starts at 0 |
| ProductController.TypeFilterSelectsType | src/controllers/product.controller.js:101-103 | with a type other than "all", only active products of that type match |
| ProductController.UpdatedSlug | src/controllers/product.controller.js:267-271 | the slug is kept when title and grade are unchanged, and derived from them otherwise |
| ProductController.ApplyUpdate | src/controllers/product.controller.js:273-282 | the ten sent fields are stored, trimmed as the schema says; sold count, active flag and creation time stay |
| ProductController.UpdatedSlugStable | src/controllers/product.controller.js:267-271 | resending an update to the updated document computes the slug that is already stored |
| ProductController.UpdateTwiceIsOnce | src/controllers/product.controller.js:267-284 | sending the same update twice leaves the same document as sending it once |
| ProductController.UpdateProduct | src/controllers/product.controller.js:247-298 | an unknown id is a 404 and a document that fails the schema a 500, both with no change. Otherwise exactly that product becomes `ApplyUpdate` and orders stay |
| ProductController.RelatedIds | src/controllers/product.controller.js:228-235 | the candidates: active products other than the current one that share its category or its type |
| ProductController.NewestExists | src/controllers/product.controller.js:237 | a non-empty set of products has a newest member |
| ProductController.NewestFirst | src/controllers/product.controller.js:237-238 | `sort({ createdAt: -1 }).limit(n)` gives min(n, count) distinct candidates, newest first, none older than a candidate left out |
| ProductController.RelatedProducts | src/controllers/product.controller.js:218-240 | 404 exactly when the product does not exist. Otherwise at most three related products, and every related one when fewer than three are returned |

## Left out

- E-mail and its ten-second timeout race (src/controllers/order.controller.js:83-107, src/controllers/cashfree.controller.js:185-193): they are side effects with no state in the model.
- The Cashfree HTTP request (src/controllers/cashfree.controller.js:59-93): it is the network. Its reply is the `reply` input, and `None` stands for a failed call.
- HMAC-SHA256, base64 and `JSON.parse`: these are library calls. They are the `digest` and `parse` parameters, and only the equality test on the signature is modelled.
- Authentication and the middleware: the caller is an input.
- `slugify`: it is a function parameter. The schema's `lowercase: true` on the slug is left to it.
- Mongoose mechanics: `populate`, `select` projections and ObjectId casting. An ill-formed id would make the driver throw. Ids are plain values here.
- Regular-expression search (src/controllers/product.controller.js:96-99): the pattern match is the `hit` parameter of `ProductController.Matches`. The order search in `getAllOrders` is not modelled.
- The product insert itself, Cloudinary image deletion, and the other product endpoints (get one, by slug, delete, saved list): they are outside the core.
- The unique indexes and their 11000 duplicate-key errors (src/controllers/product.controller.js:50-54, 290-294; src/models/product.model.js:98): uniqueness is enforced by the database.
- ProductController.AddProduct: stops at the document `Product.create` would validate. It does not model the insert or the duplicate-key 400.
- ProductController.UpdateProduct: the schema validators are modelled as `DocumentValid`, which checks required text fields and the product-type enum. It does not capture the duplicate-key 400.
- Images are `{ url, publicId }` pairs in the schema and plain strings in the model.
- Concurrency: the model runs one request at a time. It does not capture the gap between the stock check and the `$inc` updates, or two orders counted on the same day at once.
- Prices are JavaScript numbers. The model uses integers, so float rounding in the subtotal comparison is out of scope.
- `Number()` of a non-numeric page or limit is NaN, and that case is not modelled.
- OrderController.CreateOrderSpec: the delivery charge is a number or absent. A charge sent as a string, which JavaScript would concatenate onto the subtotal, is not modelled.
- UserAccounts.User.AddAddress: the default flag is a boolean. A non-boolean JSON value such as the string "false", which JavaScript treats as true (src/controllers/user.controller.js:97, 110), is not modelled.
- CashfreeController.SignatureValid: the timestamp header is a string. A missing header, which makes the handler sign `"undefined" + rawBody` (src/controllers/cashfree.controller.js:110, 117), is not modelled.
- OrderController.OrderListWindow: requires a limit of at least 1. A limit of 0 makes `Math.ceil(total / 0)` Infinity in the handler.
- "User not found" branches in user.controller.js: the `User` object is the user that was found.
- `getMe`, `getMyOrders` and `getAllOrders` beyond its paging arithmetic: they are plain reads.
- CashfreeController.CashfreeWebhook: the order tag `userId` must be present but is never compared with the order's owner (src/controllers/cashfree.controller.js:142-150). The model keeps that.
- CashfreeController.CreateCashfreeOrder: the `SE-<now>` reference goes to the gateway but is never stored on the order. The order can be found by `getOrderByCashfreeId` only once a webhook has written the gateway's order id. The model keeps that.
- OrderController.GetOrderByCashfreeId: if several orders carry the same gateway id, the model may return any of them, where `findOne` returns the first in storage order.
- ProductController.NewestFirst: products with equal creation times may come in any order, as the database may return them.
- `updateProduct` expects every field in the body; partial bodies, where JavaScript `undefined` clears a field, are not modelled.
- category.model.js, productType.model.js and user.model.js are not part of this model. Their schema validators and defaults, beyond the active flag, are not captured.
