# Candle shop: a Dafny model of its tables, routes and storefront rules

This project models the core of a small candle shop. The backend is a set of
Express routes over PostgreSQL tables. The frontend is a set of React pages
that read those routes and build cart items.

The model keeps each piece in the form the shop's code has:

- **Tables as class fields.** Every table the routes write is a `seq` of
  rows, kept in insertion order, in a class. A SERIAL counter hands out ids.
  The route handlers that write are methods with `modifies` clauses. Their
  postconditions state the whole new table and the reply.
- **Reads as functions.** The read-only routes are functions over the
  tables. `WHERE` becomes a filter. `ORDER BY` becomes a proved insertion sort
  (sorted, and a permutation of its input).
- **Types.**
  - Money (`DECIMAL(10,2)`) is integer pence or hundredths.
  - Time is an integer, and "now" is a parameter.
  - A reply is `Ok(status, value)` or `Err(status, message)`, carrying the
    handler's status code and `error` text.

Modules:

- `Tables`: row keys, primary-key lookup, filters, sorting and the reply type.
- `Text`: upper-casing, the whitespace class `\s`, and the two whitespace
  replacements used by SKUs.
- `Products`: the `products` table and its routes.
- `Orders`: the `orders` and `order_items` tables, the order-placement
  transaction, the status update and the two reads.
- `Discounts`: the `discount_codes` table, its routes and the `validate` query.
- `Fragrances`: the `fragrances` and `fragrance_sizes` tables and their routes.
- `AdminProducts`: the fragrance admin page. This covers SKU construction,
  seeding a new fragrance with default sizes, the inline size edit, and the
  stock colour.
- `Shop`: the "From" price, the quick-add cart item and the in-stock gate.
- `ProductDetails`: the initial size selection, size clicks, add-to-cart,
  and the disabled and low-stock rules.

### How the order transaction is modelled

`Orders.OrderStore.PlaceOrder` takes a failure oracle `fails: Step -> bool`.
It says which statements the database rejects:

- the pool connect;
- `BEGIN`;
- the order `INSERT`;
- the `i`th line `INSERT`;
- the `i`th stock `UPDATE`;
- `COMMIT`.

The method snapshots the three tables at `BEGIN`. It restores them on any
failure. It returns the client to the pool (`clientsInUse`) on both paths.
The SERIAL counters are not rolled back, just as PostgreSQL sequences are not.

### Where the code and the schema disagree

- **The order tables.**
  - orders.js inserts line items with a `product_id` and decrements stock in
    a `products` table.
  - The setup script's `order_items` has a different shape and creates no
    `products` table.
  - The model follows orders.js.
- **The products table** has no DDL in the repository. The model assumes a
  SERIAL id, `is_active` defaulting to true, and timestamps taken from "now".

### Nullable columns and request bodies

This rule covers the tables with DDL in the repository (`fragrances`,
`fragrance_sizes`, `orders` and `discount_codes`).

- A nullable column is an `Option` in the row when a modelled route can
  leave it NULL:
  - fragrance description, image and `is_active`;
  - size SKU and `is_active`;
  - order customer name, phone, shipping address, payment intent and
    `notes`;
  - discount `is_active` and `expires_at`.
- Two kinds of nullable column stay plain, because no modelled route can
  leave them NULL:
  - `fragrance_sizes.fragrance_id`, which always comes from the URL id of the
    size POST;
  - every `created_at` and `updated_at`, which is always set by its
    `CURRENT_TIMESTAMP` default or by `NOW()`.
- A field a request body leaves out of a nullable column is `None` and is
  stored as NULL. This covers the order's customer name, phone, address and
  payment intent, which `RETURNING *` sends back as null.
- A NOT NULL column is plain in the row, and in the body of every route
  except POST `/api/orders` it is an `Option`. When such a field is missing,
  the statement fails, and the handler answers 500. For orders a missing
  email or total is one of the statement failures the oracle selects.
- A `code` missing from a discount request makes `toUpperCase` throw before
  any query runs, and that is also a 500.
- A failed `INSERT` still uses up its SERIAL value.

## Model

| member | source | states |
|---|---|---|
| Text.ToUpper | candle-shop-backend/routes/discounts.js:51 | `toUpperCase` on ASCII letters: same length; each character is mapped by `UpperChar` |
| Text.ToUpperIsUpper | candle-shop-backend/routes/discounts.js:51 | the result is upper case; upper-casing is idempotent and leaves upper-case text unchanged |
| Text.DashRuns | candle-shop-frontend/src/pages/admin/Products.jsx:76 | `replace(/\s+/g, '-')`: the result contains no whitespace; what it does to each run is stated by `DashRunsDropsRun` and `DashRunsAppendPlain` |
| Text.StripSpaces | candle-shop-frontend/src/pages/admin/Products.jsx:76 | `replace(/\s+/g, '')`: no whitespace, and no longer than the input; what it deletes and keeps is stated by `StripSpacesDropsRun` and `StripSpacesAppendPlain` |
| Text.NoSpaceUnchanged | candle-shop-frontend/src/pages/admin/Products.jsx:76 | text without whitespace passes through both replacements unchanged |
| Text.DashRunsAppendPlain | candle-shop-frontend/src/pages/admin/Products.jsx:76 | the dash replacement distributes over a concatenation whose left part has no whitespace |
| Text.StripSpacesAppendPlain | candle-shop-frontend/src/pages/admin/Products.jsx:76 | the same for whitespace removal |
| Text.DropSpacesRun | candle-shop-frontend/src/pages/admin/Products.jsx:76 | the greedy `\s+` match: a whitespace run is skipped up to the first non-whitespace character after it |
| Text.DashRunsDropsRun | candle-shop-frontend/src/pages/admin/Products.jsx:76 | a maximal whitespace run, of any characters `\s` matches, becomes exactly one dash and the rest is replaced in turn |
| Text.StripSpacesDropsRun | candle-shop-frontend/src/pages/admin/Products.jsx:76 | a whitespace run is deleted and the text after it is kept |
| Text.DashRunsJoinsWords | candle-shop-frontend/src/pages/admin/Products.jsx:76 | two words separated by any whitespace run become the words joined by a single dash |
| Products.List | candle-shop-backend/routes/products.js:8-11 | exactly the active rows, and each of them; newest first; a permutation of the active rows |
| Products.Get | candle-shop-backend/routes/products.js:22-31 | 200 with the row whose id matches, whatever its active flag, if and only if such a row exists; otherwise 404 "Product not found" |
| Products.SoftDeletedStaysFetchable | candle-shop-backend/routes/products.js:86-95 | after a soft delete the product is still returned by id and is no longer listed |
| Products.ProductTable.Create | candle-shop-backend/routes/products.js:43-48 | one appended row from the five given fields, with a fresh id, active, timestamps now; 201 |
| Products.ProductTable.Update | candle-shop-backend/routes/products.js:61-73 | 404 and no change for a missing id; otherwise exactly the six fields and `updated_at` of that row are overwritten, 200 with the row |
| Products.ProductTable.SoftDelete | candle-shop-backend/routes/products.js:86-95 | 404 for a missing id; otherwise only `is_active` of that row becomes false, with the success message |
| Products.Decremented | candle-shop-backend/routes/orders.js:68-71 | one stock `UPDATE`: every row with the id loses the quantity; used by `DecrementStock` and `StockAfterSpec` |
| Products.ProductTable.DecrementStock | candle-shop-backend/routes/orders.js:68-71 | every row with the product id loses the quantity; an id naming no row changes nothing |
| Orders.PaidOrder | candle-shop-backend/routes/orders.js:50-57 | the order row the INSERT creates, status `paid`, `notes` NULL, every other field, nullable ones included, from the client; used by `PlaceOrder`'s success clause |
| Orders.LineItems | candle-shop-backend/routes/orders.js:60-65 | one line per request item; its closed form is `LineItemsSpec` |
| Orders.StockAfter | candle-shop-backend/routes/orders.js:67-71 | the products table after the stock statements, in order; its closed form is `StockAfterSpec` |
| Orders.Commits | candle-shop-backend/routes/orders.js:44-74 | the transaction commits exactly when the connect and every statement succeed and `items` is an array; tied to the reply by `PlaceOrder` |
| Orders.LineItemsSpec | candle-shop-backend/routes/orders.js:60-65 | one line per request item, in order, with the new order id, consecutive ids, the item's product and quantity, and the client's price as price at purchase |
| Orders.StockAfterSpec | candle-shop-backend/routes/orders.js:67-71 | after the stock statements, each product has lost the sum of the quantities naming it, and nothing else in any row changed |
| Orders.UnnamedProductUnchanged | candle-shop-backend/routes/orders.js:67-71 | a product that no item names keeps its row exactly |
| Orders.QtyOrderedUnnamed | candle-shop-backend/routes/orders.js:67-71 | a product no item names has ordered quantity zero |
| Orders.NoStockCheck | candle-shop-backend/routes/orders.js:68-71 | ordering more than the stock drives it negative; nothing refuses the order |
| Orders.UnknownProductIgnored | candle-shop-backend/routes/orders.js:68-71 | an item whose product id matches no row changes no stock |
| Orders.EmptyItemsCommit | candle-shop-backend/routes/orders.js:60-74 | with an empty `items` array the transaction commits exactly when its other statements succeed, writing no lines and no stock change |
| Orders.Resubmission | candle-shop-backend/routes/orders.js:50-72 | nothing makes submission idempotent: the same items placed twice take their quantities off twice |
| Orders.Joined | candle-shop-backend/routes/orders.js:118-126 | every line carries an item of the order, joined with the name and image of a product that has the item's product id |
| Orders.JoinedComplete | candle-shop-backend/routes/orders.js:118-126 | every item of the order whose product exists appears in the join |
| Orders.GetOrder | candle-shop-backend/routes/orders.js:106-127 | 404 "Order not found" exactly when no order has the id; otherwise 200 with that order and its joined items |
| Orders.ListOrders | candle-shop-backend/routes/orders.js:91-94 | every order, newest first; a permutation of the table |
| Orders.OrderStore.PlaceOrder | candle-shop-backend/routes/orders.js:31-86 | it succeeds exactly when every statement succeeds and `items` is an array. On success: 201 with one new `paid` order row holding the client's total and payment intent, the line items of `LineItems`, and the stock of `StockAfter`. On failure: 500 "Failed to create order" with all three tables as before. The client is released on both paths, and the key and foreign-key invariants hold throughout |
| Orders.OrderStore.InsertOrderRow | candle-shop-backend/routes/orders.js:50-57 | the order row is appended unless its INSERT fails; its SERIAL value is drawn either way |
| Orders.OrderStore.InsertLines | candle-shop-backend/routes/orders.js:60-72 | the loop gets through exactly when no line or stock statement fails, and then has written the lines and the stock of the specification functions |
| Orders.OrderStore.Rollback | candle-shop-backend/routes/orders.js:76-78 | the three tables return to their state at BEGIN; the counters keep their values |
| Orders.OrderStore.UpdateStatus | candle-shop-backend/routes/orders.js:140-147 | 404 for a missing id; any supplied status is stored with no transition check, changing only `status` and `updated_at` of that row; a missing status is 500 |
| Discounts.Applicable | candle-shop-backend/routes/discounts.js:24-27 | the WHERE clause of `validate`: equal code, `is_active` true (NULL is not), no expiry or one after now; used by `Validate` |
| Discounts.FirstApplicable | candle-shop-backend/routes/discounts.js:23-28 | the position of a row meeting the WHERE clause of `validate`, and none exactly when no row meets it |
| Discounts.Validate | candle-shop-backend/routes/discounts.js:19-40 | 200 with a row if and only if some row has the upper-cased code, is active, and is unexpired as of now; otherwise 404 "Invalid or expired discount code"; a missing code is 500 |
| Discounts.ValidateFindsTheCode | candle-shop-backend/routes/discounts.js:23-35 | with unique codes, the answer is the row holding the upper-cased code if it is applicable, and 404 otherwise |
| Discounts.ValidateIgnoresCase | candle-shop-backend/routes/discounts.js:23-28 | an input and its upper-cased form get the same answer |
| Discounts.ValidateWelcome | candle-shop-backend/routes/discounts.js:23-28 | "welcome10" and "WELCOME10" get the same answer |
| Discounts.CreatedCodeValidates | candle-shop-backend/routes/discounts.js:47-54 | a code just created, and not yet expired, validates in any letter case |
| Discounts.DeletedCodeRejected | candle-shop-backend/routes/discounts.js:95-104 | after a delete, no input validates to the removed code |
| Discounts.ListCodes | candle-shop-backend/routes/discounts.js:8-11 | every code, including inactive ones, newest first; a permutation of the table |
| Discounts.DiscountTable.Create | candle-shop-backend/routes/discounts.js:43-62 | a missing code is 500 with no id drawn; a missing type or value is 500; an existing code is 400 "Discount code already exists" with the table unchanged; otherwise 201, appending the upper-cased code with `is_active` true and the given expiry. Codes stay unique and upper case |
| Discounts.DiscountTable.Update | candle-shop-backend/routes/discounts.js:65-88 | a missing code is 500; a missing id is 404; a missing type or value, or a code held by another row, is 500 (not 400); otherwise exactly code (upper-cased), type, value, active flag and expiry of that row are overwritten |
| Discounts.DiscountTable.Delete | candle-shop-backend/routes/discounts.js:91-109 | 404 for a missing id; otherwise the row is physically removed and no row has the id any more |
| Fragrances.SizesFor | candle-shop-backend/routes/fragrances.js:17 | exactly the active sizes of that fragrance: each such row as often as in the table, and no other row |
| Fragrances.ActiveSizes | candle-shop-backend/routes/fragrances.js:17 | exactly the fragrance's active sizes, each as often as in the table, cheapest first |
| Fragrances.NewestActive | candle-shop-backend/routes/fragrances.js:9-10 | exactly the active fragrances, newest first; a permutation of the active rows, so each appears as often as in the table |
| Fragrances.ListFragrances | candle-shop-backend/routes/fragrances.js:6-33 | only and all active fragrances, newest first, each carrying its active sizes cheapest first; one view per row of `NewestActive`, in its order, so no fragrance is repeated |
| Fragrances.GetFragrance | candle-shop-backend/routes/fragrances.js:36-64 | the fragrance whatever its active flag, with its active sizes cheapest first, if and only if the id exists; otherwise 404 "Fragrance not found" |
| Fragrances.SoftDeletedSizeHidden | candle-shop-backend/routes/fragrances.js:182-190 | a soft-deleted size appears in neither GET route |
| Fragrances.SoftDeletedFragranceStaysFetchable | candle-shop-backend/routes/fragrances.js:113-120 | a soft-deleted fragrance is still fetched by id and is no longer listed |
| Fragrances.Overwritten | candle-shop-backend/routes/fragrances.js:157-163 | the size PUT keeps the id, the fragrance link and `created_at` of the row |
| Fragrances.FragranceStore.CreateFragrance | candle-shop-backend/routes/fragrances.js:67-81 | 201 with one appended active row from the three fields; a missing name is 500 |
| Fragrances.FragranceStore.UpdateFragrance | candle-shop-backend/routes/fragrances.js:84-106 | 404 for a missing id; otherwise exactly name, description, image, active flag and `updated_at` of that row are overwritten; a missing name is 500 |
| Fragrances.FragranceStore.SoftDeleteFragrance | candle-shop-backend/routes/fragrances.js:109-127 | 404 for a missing id; otherwise only `is_active` becomes false and the sizes table is untouched |
| Fragrances.FragranceStore.Overwrite | candle-shop-backend/routes/fragrances.js:89-95 | replacing a fragrance row with one of the same id keeps the key and foreign-key invariants |
| Fragrances.FragranceStore.CreateSize | candle-shop-backend/routes/fragrances.js:132-149 | one appended active size linked to the given fragrance, 201. A missing NOT NULL field, an unknown fragrance, or a SKU in use gives 500 with the table unchanged |
| Fragrances.FragranceStore.UpdateSize | candle-shop-backend/routes/fragrances.js:152-175 | 404 for a missing id; otherwise all six size fields and `updated_at` are overwritten; a missing field or a SKU held by another size is 500 |
| Fragrances.FragranceStore.SoftDeleteSize | candle-shop-backend/routes/fragrances.js:178-196 | 404 for a missing id; otherwise only `is_active` of that size becomes false |
| Fragrances.FragranceStore.PatchStock | candle-shop-backend/routes/fragrances.js:199-218 | 404 for a missing id; otherwise only `stock_quantity` and `updated_at` of that size change; a missing quantity is 500 |
| Fragrances.FragranceStore.OverwriteSize | candle-shop-backend/routes/fragrances.js:157-163 | replacing a size row while keeping its id and fragrance, with a free SKU, keeps the key, SKU and foreign-key invariants |
| AdminProducts.Sku | candle-shop-frontend/src/pages/admin/Products.jsx:76 | the SKU of a seeded size: the upper-cased name with whitespace runs turned into dashes, a dash, and the size name with whitespace removed; its properties are `SkuHasNoSpace`, `SkuExample` and `SkusCollide` |
| AdminProducts.SkuHasNoSpace | candle-shop-frontend/src/pages/admin/Products.jsx:76 | a generated SKU contains no whitespace |
| AdminProducts.SkuExample | candle-shop-frontend/src/pages/admin/Products.jsx:76 | "Lavender Dreams" with "6 oz" gives "LAVENDER-DREAMS-6oz" |
| AdminProducts.SkusCollide | candle-shop-frontend/src/pages/admin/Products.jsx:76 | "lavender  dreams" gets the same 6 oz SKU as "Lavender Dreams" |
| AdminProducts.DefaultSizes | candle-shop-frontend/src/pages/admin/Products.jsx:19-23 | the three default sizes with their burn times, prices in pence and stock 0; stated concretely by `SeedCallsAreTheDefaults` |
| AdminProducts.SeedCall | candle-shop-frontend/src/pages/admin/Products.jsx:70-78 | the size POST for one default size: its fields and the SKU built from the saved name; stated by `SeedCallsAreTheDefaults` |
| AdminProducts.SeedCalls | candle-shop-frontend/src/pages/admin/Products.jsx:70-79 | one size POST per default size, in order |
| AdminProducts.SeedCallsAreTheDefaults | candle-shop-frontend/src/pages/admin/Products.jsx:19-23 | seeding posts exactly three sizes to the saved fragrance: 6 oz at 18.00, 9 oz at 28.00 and 12 oz at 38.00, each with stock 0 and a whitespace-free SKU |
| AdminProducts.SaveCall | candle-shop-frontend/src/pages/admin/Products.jsx:49-63 | PUT to the edited fragrance's id or POST to the collection, with the form fields, NULL description or image included, and `is_active: true` |
| AdminProducts.EditForm | candle-shop-frontend/src/pages/admin/Products.jsx:100-108 | `handleEdit`: the form holds the fragrance's name, description and image as stored, NULLs included |
| AdminProducts.FragranceAdmin.Edit | candle-shop-frontend/src/pages/admin/Products.jsx:100-108 | the fragrance becomes the one being edited, the form holds `EditForm` of it and is shown, and nothing else changes |
| AdminProducts.UnchangedEditResendsRow | candle-shop-frontend/src/pages/admin/Products.jsx:100-108 | saving an untouched edit PUTs the stored name, description and image back, NULLs as NULLs, with `is_active: true` |
| AdminProducts.SeedSizes | candle-shop-frontend/src/pages/admin/Products.jsx:70-79 | the size POSTs in order, stopping after the first one whose fetch throws; `completed` holds exactly when none threw |
| AdminProducts.FragranceAdmin.Submit | candle-shop-frontend/src/pages/admin/Products.jsx:46-98 | a rejected save posts nothing more and leaves the form. An edit issues only the PUT. A create posts the default sizes and then resets the form with the "created" notice, unless a size fetch throws, in which case the error notice shows and the form stays |
| AdminProducts.EditedBody | candle-shop-frontend/src/pages/admin/Products.jsx:139-142 | the size's own fields, with only the edited one replaced; the body has every NOT NULL column exactly when the edited value can be stored |
| AdminProducts.FindSize | candle-shop-frontend/src/pages/admin/Products.jsx:133-134 | a loaded size with that id, held by the first loaded fragrance that holds the id (`find`); none exactly when no loaded fragrance holds it |
| AdminProducts.UpdateSizeCall | candle-shop-frontend/src/pages/admin/Products.jsx:131-143 | the PUT to that size's route with the edited body of a loaded size with that id; nothing when no loaded fragrance holds the size |
| AdminProducts.EditChangesOneField | candle-shop-frontend/src/pages/admin/Products.jsx:131-153 | sent back to the size PUT, a storable edit changes only the edited field and `updated_at` of the row; an emptied number input or a fractional stock makes the PUT answer 500, which the page does not report |
| AdminProducts.StockColourOf | candle-shop-frontend/src/pages/admin/Products.jsx:407 | red exactly for 0; yellow exactly for other values up to 5, including negative ones; plain above 5 |
| Shop.CartItemOf | candle-shop-frontend/src/pages/Shop.jsx:33-42 | the variant's id as the item id, the name "<fragrance> - <size>", and price and stock copied from the variant |
| Shop.CartNameNamesTheSize | candle-shop-frontend/src/pages/Shop.jsx:36 | for one fragrance, equal item names mean equal size names |
| Shop.QuickAdd | candle-shop-frontend/src/pages/Shop.jsx:134-139 | a click adds the variant's item exactly when its stock is above 0 |
| Shop.MinPrice | candle-shop-frontend/src/pages/Shop.jsx:51-52 | at most every price, and equal to one of them |
| Shop.StartingPrice | candle-shop-frontend/src/pages/Shop.jsx:49-53 | 0 for missing or empty sizes; otherwise at most every size's price and equal to one of them |
| Shop.StartingPriceOfListedSizes | candle-shop-frontend/src/pages/Shop.jsx:49-53 | for the active sizes a fragrance GET sends, cheapest first, the "From" price is the first size's price |
| ProductDetails.FirstInStock | candle-shop-frontend/src/pages/ProductDetails.jsx:22 | the first size with stock above 0, and none exactly when there is none |
| ProductDetails.InitialSelection | candle-shop-frontend/src/pages/ProductDetails.jsx:22-23 | the first size in stock, else the first size, else nothing; only for missing or empty sizes is there nothing |
| ProductDetails.InitialSelectionInStock | candle-shop-frontend/src/pages/ProductDetails.jsx:22-23 | the initial selection is in stock exactly when some size is |
| ProductDetails.ClickSize | candle-shop-frontend/src/pages/ProductDetails.jsx:156-162 | a click changes the selection only when the clicked size is in stock |
| ProductDetails.ClicksKeepSelectionInStock | candle-shop-frontend/src/pages/ProductDetails.jsx:156-162 | once an in-stock size is selected, any clicks keep the selection in stock |
| ProductDetails.AddToCartDisabled | candle-shop-frontend/src/pages/ProductDetails.jsx:199 | the button is disabled without a selection or at stock exactly 0; see `EnabledMeansAddable` |
| ProductDetails.LowStockNotice | candle-shop-frontend/src/pages/ProductDetails.jsx:206 | the "Only n left" notice shows for stock from 1 to 5; see `EnabledMeansAddable` |
| ProductDetails.AddToCart | candle-shop-frontend/src/pages/ProductDetails.jsx:32-49 | nothing without a selection; otherwise the cart item of the selected size |
| ProductDetails.OversoldSizeCanBeAdded | candle-shop-frontend/src/pages/ProductDetails.jsx:22-23 | with no size in stock and the first oversold, that size is preselected, the button is enabled, and it can be added |
| ProductDetails.EnabledMeansAddable | candle-shop-frontend/src/pages/ProductDetails.jsx:199-206 | the button is enabled exactly for a selection whose stock is not 0, and then adds an item; the low-stock notice implies an enabled button |

## Left out

- Stripe payment-intent creation and confirmation are foreign calls. The
  amount conversion uses floating-point arithmetic.
- The connection pool, `async`/`await` and the `Promise.all` fan-out of the
  fragrance listing are not modelled. One request runs at a time, so the
  lost-update race on stock between concurrent orders is not represented.
- These failures are not modelled:
  - a failed `ROLLBACK`;
  - a failed `release`;
  - a database unreachable during a single-statement route. Those routes
    would answer 500.
- Floating-point parsing and display (`parseFloat`, `toFixed`) are not
  modelled. Prices are exact pence, and `Math.min` works on them.
- The cart's own pricing lives in a context component that is not part of
  this model.
- `toUpperCase` is modelled for ASCII letters only. Full Unicode case mapping
  is not modelled.
- These column limits are not modelled, so no model path answers 500 for them:
  - every VARCHAR length limit (for example order status 50, customer email 255,
    fragrance name 255, size name and burn time 50, SKU 100, discount code 50 and
    type 20), so `Orders.OrderStore.UpdateStatus` stores a status of any length;
  - DECIMAL(10,2) overflow;
  - a non-numeric URL id (a PostgreSQL type error);
  - the INTEGER range of `stock_quantity`, `quantity` and ids, including a URL
    id out of range. A stock value beyond the range given to the size POST,
    PUT or stock PATCH is stored by the model, where the server answers 500.
    A URL id out of range gets 404 from the model and 500 from the server.
- Products.ProductTable.Create: the products table has no DDL in the
  repository, so no NOT NULL failure is modelled for it.
- Products.ProductTable.Update: the same; absent body fields are taken to be
  present.
- Orders.OrderStore.PlaceOrder: a failing `UPDATE` or `INSERT` is given by the
  oracle, not derived from constraints. A missing customer email or total
  (NOT NULL) is one such failure. So is a stock decrement whose result
  leaves the INTEGER range.
- Orders.Joined: the join's row order is left unspecified in SQL. The model
  keeps table order, and its contract states only membership.
- AdminProducts.EditChangesOneField: a price or stock value the column
  cannot store is one abstract "unstorable" value, sent as an absent field.
  PostgreSQL rejects it while parsing, before looking up the id, so the
  model answers 404 where the server answers 500 if the size row was
  removed outside these routes (no modelled route removes a size row). The page shows nothing in either case.
- Shop.QuickAdd: the cart's `addToCart` and the notice timers are left out.
- ProductDetails.AddToCart: the same.
- AdminProducts.FragranceAdmin.Submit: the answers to the size POSTs are
  ignored, as in the page. A rejected size (for example a colliding SKU) is
  therefore not reported.
- AdminProducts.FragranceAdmin.Submit: a failure of `response.json()` is
  not modelled, and neither is reloading the list after a save.
- Presentation is left out: JSX, CSS, routing, the status colours of the
  order admin page, and notification time-outs.
