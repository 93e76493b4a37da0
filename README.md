# Veggie cart store, modelled in Dafny

This project models the cart of the Veggie grocery-ordering Android app.

**The cart store (`CartDbHelper`).** It is a local `PurchasedItem` table. Each row is one cart line or one order line. Its columns are purchase id, product id, user id, volume, accepted, completed, request date, acceptance date and total price.

Every operation of the store is a filter followed by an action:

- The filter is a `Selection`, a conjunction of column equalities. It plays the role of the source's `PurchasedItemSelection` builder.
- The action is an insert, a delete, an update, a query, or an aggregate over the query's rows (a count, a price sum, or price sums per request date).

**The product list adapter (`ProductAdapter`).** Its cart rules sit on top of the store:

- the list of products it shows;
- the browse-mode check box, which adds a product to the cart or removes it;
- the cart-mode add and subtract buttons, which move a line's volume in steps within the product's bounds.

Files:

- `purchased_items.dfy`, module `PurchasedItems`, holds the values:
  - the row record and the product record;
  - selections and what they match;
  - `Select` (a query's rows), `Delete` (the rows a delete leaves), `Update` (the table after an update) and `SumPrices`;
  - the lemmas about them: partition, order preservation, membership, commuting with updates, subtotal arithmetic, and the "at most one cart line per product" invariant.
- `cart_db_helper.dfy`, module `CartDb`, holds class `CartDbHelper`:
  - fields: the table `rows`, the id counter `nextId`, the product table `products`, the signed-in user's email `signedUser`, and the two collaborators whose bodies are not part of this model (`calculatePrice`, `getProducts`);
  - one method per public operation;
  - the lemmas behind the per-date order history.
- `product_adapter.dfy`, module `Adapter`, holds class `ProductAdapter` (the product list, over a `CartDbHelper`) and class `ViewHolder` (one list row: its product, its bound cart line and its check box). It also holds the pure step functions of the volume buttons and the lemma that a volume stays within bounds.

The row record and the column values written from it (`getValuesFromPOJO`) or read back into it (`getPOJOFromCursor`) are the same Dafny value. That mapping is the identity, with two renamings: the `purchaseId` column is the record's order id, and the `dateAccepted` column is its completion date. Query results come back in table order, which is insertion order.

Two points of the model are worth stating outright:

- A line's price is `CommonUtils.calculatePrice(price, minimumVolume, volume)`. That function is the uninterpreted field `CartDbHelper.calculatePrice`: the model assumes nothing about its arithmetic, in particular not `price * volume / minimumVolume`.
- `updateVolume` writes every unaccepted row of the product, not just one. `UpdateKeepsUnique` proves that this keeps at most one cart line per product.

## Model

| member | source | states |
|---|---|---|
| PurchasedItems.Update | core/src/main/java/com/greentopli/core/storage/helper/CartDbHelper.java:210-225 | an update keeps the table's length; each selected row gets the written columns, and every other row is unchanged |
| PurchasedItems.ProductIdsMembers | core/src/main/java/com/greentopli/core/storage/helper/CartDbHelper.java:74-78 | a product id is in a query's id list iff some row of the table matches the selection and carries that id |
| PurchasedItems.SelectMembers | core/src/main/java/com/greentopli/core/storage/helper/CartDbHelper.java:108-122 | a query returns a row iff the row is in the table and matches the selection |
| PurchasedItems.DeleteMembers | core/src/main/java/com/greentopli/core/storage/helper/CartDbHelper.java:54-59 | a delete keeps a row iff the row is in the table and does not match the selection |
| PurchasedItems.Partition | core/src/main/java/com/greentopli/core/storage/helper/CartDbHelper.java:54-59 | the deleted rows are exactly the rows the same query returns: the kept and queried rows together are a permutation of the table, and the counts add up |
| PurchasedItems.DeleteAppend | core/src/main/java/com/greentopli/core/storage/helper/CartDbHelper.java:227-237 | a delete keeps the surviving rows in their old order (it distributes over concatenation) |
| PurchasedItems.SelectAppend | core/src/main/java/com/greentopli/core/storage/helper/CartDbHelper.java:116-121 | a query returns rows in table order (it distributes over concatenation) |
| PurchasedItems.SumAppend | core/src/main/java/com/greentopli/core/storage/helper/CartDbHelper.java:149-151 | the price sum is additive over stretches of rows |
| PurchasedItems.SelectNonEmpty | core/src/main/java/com/greentopli/core/storage/helper/CartDbHelper.java:87-92 | a query returns some row iff some row of the table matches |
| PurchasedItems.SelectNone | core/src/main/java/com/greentopli/core/storage/helper/CartDbHelper.java:248-251 | a query that no row matches returns nothing |
| PurchasedItems.CartLineQueryIff | core/src/main/java/com/greentopli/core/storage/helper/CartDbHelper.java:83-93 | the cart-line query of a product is non-empty iff some row is an unaccepted line for that product |
| PurchasedItems.DeleteAcceptedIs | core/src/main/java/com/greentopli/core/storage/helper/CartDbHelper.java:197-208 | deleting the rows with `accepted = b` leaves exactly the rows with `accepted = !b`, in order |
| PurchasedItems.SelectUpdate | core/src/main/java/com/greentopli/core/storage/helper/CartDbHelper.java:210-225 | an update writes only volume and price, which no selection reads, so querying the updated table equals updating the queried rows |
| PurchasedItems.DeleteCartLine | core/src/main/java/com/greentopli/core/storage/helper/CartDbHelper.java:54-59 | after deleting product q's cart line, q has no cart line and every other product keeps its cart lines |
| PurchasedItems.UpdatedVolume | core/src/main/java/com/greentopli/core/storage/helper/CartDbHelper.java:210-225 | after a volume update, every row the update's selection finds holds the written volume |
| PurchasedItems.AddKeepsUnique | app/src/user/java/io/github/karadkar/veggie/user/adapter/ProductAdapter.java:210-217 | adding a line for a product that is not in the cart keeps every product at one cart line at most |
| PurchasedItems.DeleteKeepsUnique | core/src/main/java/com/greentopli/core/storage/helper/CartDbHelper.java:54-59 | deleting a product's cart line keeps every product at one cart line at most |
| PurchasedItems.UpdateKeepsUnique | core/src/main/java/com/greentopli/core/storage/helper/CartDbHelper.java:210-225 | an update keeps every product at one cart line at most |
| PurchasedItems.SubtotalAfterAdd | core/src/main/java/com/greentopli/core/storage/helper/CartDbHelper.java:37-52 | inserting an unaccepted line raises the cart subtotal by that line's price |
| PurchasedItems.PriceSplit | core/src/main/java/com/greentopli/core/storage/helper/CartDbHelper.java:147-167 | the table's total price is the cart subtotal plus the total over accepted rows |
| PurchasedItems.SumSplit | core/src/main/java/com/greentopli/core/storage/helper/CartDbHelper.java:147-153 | the price sum of a table is the sum over the rows a query returns plus the sum over the rows the same delete leaves |
| PurchasedItems.SelectDelete | core/src/main/java/com/greentopli/core/storage/helper/CartDbHelper.java:54-59 | querying the table a delete leaves equals deleting from the query's rows |
| PurchasedItems.SelectNarrower | core/src/main/java/com/greentopli/core/storage/helper/CartDbHelper.java:83-93 | narrowing a query's rows by a stricter selection gives the stricter query |
| PurchasedItems.SubtotalAfterRemove | core/src/main/java/com/greentopli/core/storage/helper/CartDbHelper.java:54-59 | removing a product's cart line lowers the cart subtotal by exactly the price of that product's cart lines (the cart-line query being a narrowing of the unaccepted-row query) |
| CartDb.CartDbHelper.constructor | core/src/main/java/com/greentopli/core/storage/helper/CartDbHelper.java:31-35 | the store opens the PurchasedItem table as it stands (its rows and next insert id, left by earlier sessions) with the given product table, signed-in user and collaborators |
| CartDb.CartDbHelper.Insert | core/src/main/java/com/greentopli/core/storage/helper/CartDbHelper.java:49-51 | an insert appends exactly the given row and returns a fresh id, one above the previous one |
| CartDb.CartDbHelper.DeleteWhere | core/src/main/java/com/greentopli/core/storage/helper/CartDbHelper.java:58 | a delete removes the selected rows and returns how many it removed |
| CartDb.CartDbHelper.UpdateWhere | core/src/main/java/com/greentopli/core/storage/helper/CartDbHelper.java:224 | an update writes the columns into the selected rows and returns how many it matched |
| CartDb.CartDbHelper.AddProductToCart | core/src/main/java/com/greentopli/core/storage/helper/CartDbHelper.java:37-52 | the old rows stay as they are and exactly one row is appended to them. The new row is an unaccepted line for the product, at the given volume, for the signed-in user. Its price is `calculatePrice(price, minimumVolume, volume)` when the product exists, and stays at the default otherwise. The product is in the cart afterwards, and the fresh id is returned |
| CartDb.CartDbHelper.RemoveProductFromCart | core/src/main/java/com/greentopli/core/storage/helper/CartDbHelper.java:54-59 | exactly the rows with `productId == p && !accepted` are deleted, and every other row stays in order. The number deleted is returned. The product is not in the cart afterwards |
| CartDb.CartDbHelper.IsProductAddedToCart | core/src/main/java/com/greentopli/core/storage/helper/CartDbHelper.java:83-93 | true iff some row has `productId == p && !accepted` |
| CartDb.CartDbHelper.GetProductIdsFromCartOn | core/src/main/java/com/greentopli/core/storage/helper/CartDbHelper.java:65-81 | returns the product ids, in table order, of the rows with the given acceptance flag. When the date is positive it keeps only the rows requested on that date. An id is listed iff some such row carries it |
| CartDb.CartDbHelper.GetProductIdsFromCart | core/src/main/java/com/greentopli/core/storage/helper/CartDbHelper.java:61-63 | returns the product ids of all rows with the given acceptance flag, whatever their date |
| CartDb.CartDbHelper.GetProductsFromCartOn | core/src/main/java/com/greentopli/core/storage/helper/CartDbHelper.java:99-102 | returns the product table's lookup of exactly those ids |
| CartDb.CartDbHelper.GetProductsFromCart | core/src/main/java/com/greentopli/core/storage/helper/CartDbHelper.java:95-97 | the same, with no date filter |
| CartDb.CartDbHelper.GetPurchasedItemListOn | core/src/main/java/com/greentopli/core/storage/helper/CartDbHelper.java:108-122 | returns the rows with the given acceptance flag (and the given date when it is positive), in table order. A row is in the list iff it is in the table and meets those conditions |
| CartDb.CartDbHelper.GetPurchasedItemList | core/src/main/java/com/greentopli/core/storage/helper/CartDbHelper.java:104-106 | returns the rows with the given acceptance flag, whatever their date |
| CartDb.CartDbHelper.GetCartItemOn | core/src/main/java/com/greentopli/core/storage/helper/CartDbHelper.java:128-142 | returns the last row for the product with the given flag, or a blank item if there is none. The date narrows the search only for accepted rows and a positive date. The result is blank or a row of the table for that product and flag |
| CartDb.CartDbHelper.GetCartItem | core/src/main/java/com/greentopli/core/storage/helper/CartDbHelper.java:124-126 | the same, with no date filter |
| CartDb.CartDbHelper.GetCartSubtotal | core/src/main/java/com/greentopli/core/storage/helper/CartDbHelper.java:147-153 | the sum of `totalPrice` over all unaccepted rows; 0 when no row is unaccepted |
| CartDb.CartDbHelper.GetOrderSubtotal | core/src/main/java/com/greentopli/core/storage/helper/CartDbHelper.java:158-167 | returns (count, sum of `totalPrice`) over accepted rows. When `d > 0` it covers only the accepted rows with `dateRequested == d`; when `d <= 0` it covers all accepted rows |
| CartDb.CartDbHelper.StoreOrderHistory | core/src/main/java/com/greentopli/core/storage/helper/CartDbHelper.java:197-208 | the table becomes the old unaccepted rows followed by the given items, and one id is used per item. Every accepted row afterwards is one of the given items |
| CartDb.CartDbHelper.UpdateVolume | core/src/main/java/com/greentopli/core/storage/helper/CartDbHelper.java:210-225 | only the rows with `productId == p && !accepted` change. Each of them gets volume `v`, and gets `calculatePrice(...)` as its price only when the product exists. Their other fields and all other rows are unchanged. The number of matching rows is returned |
| CartDb.CartDbHelper.ClearCartItems | core/src/main/java/com/greentopli/core/storage/helper/CartDbHelper.java:227-231 | exactly the accepted rows remain, in order, and the number of unaccepted rows removed is returned |
| CartDb.CartDbHelper.RemoveCartItem | core/src/main/java/com/greentopli/core/storage/helper/CartDbHelper.java:233-237 | exactly the unaccepted rows with the given purchase id are deleted; their number is returned |
| CartDb.CartDbHelper.GetOrderHistoryDates | core/src/main/java/com/greentopli/core/storage/helper/CartDbHelper.java:240-268 | the map has exactly one key per distinct `dateRequested` among the accepted rows of user `u`. Each key maps to the sum of `totalPrice` of those rows on that date |
| CartDb.CartItemAfterUpdate | core/src/main/java/com/greentopli/core/storage/helper/CartDbHelper.java:124-142 | after `updateVolume(p, v)` on a product in the cart, the query `getCartItem(p, false)` builds finds a line. Its last line is the old last line with volume `v`, and with the written price when one was written |
| CartDb.HistoryDates | core/src/main/java/com/greentopli/core/storage/helper/CartDbHelper.java:246-251 | the request dates of the user's order-history query are those of the user's accepted rows |
| CartDb.DateTotalsMeaning | core/src/main/java/com/greentopli/core/storage/helper/CartDbHelper.java:255-265 | the row-by-row accumulation has one key per request date of the list. Under each key is the sum of the prices of that date's rows |
| CartDb.DateSumSnoc | core/src/main/java/com/greentopli/core/storage/helper/CartDbHelper.java:259-264 | adding a row changes only its own date's sum, by the row's price |
| CartDb.NoRowsOnDate | core/src/main/java/com/greentopli/core/storage/helper/CartDbHelper.java:262-263 | a date that no row was requested on has no rows, so a new key starts from the row's own price |
| CartDb.HistoryOnDate | core/src/main/java/com/greentopli/core/storage/helper/CartDbHelper.java:246-251 | narrowing the user's order history to one date gives the query for that user's accepted rows of that date |
| Adapter.StepsStayInRange | app/src/user/java/io/github/karadkar/veggie/user/adapter/ProductAdapter.java:184-199 | a volume that starts in `[minimumVolume, maximumVolume]` stays in that range after any sequence of add and subtract presses, for a step that is not negative |
| Adapter.VolumeWrite | app/src/user/java/io/github/karadkar/veggie/user/adapter/ProductAdapter.java:187 | writing one volume into a product's cart lines leaves each line at that volume, within bounds when the volume is within bounds. It keeps every product at one cart line at most |
| Adapter.ProductAdapter.constructor | app/src/user/java/io/github/karadkar/veggie/user/adapter/ProductAdapter.java:51-62 | the adapter starts with an empty product list, its mode, its request date and the cart store |
| Adapter.ProductAdapter.GetItemCount | app/src/user/java/io/github/karadkar/veggie/user/adapter/ProductAdapter.java:124-126 | equals the length of the product list |
| Adapter.ProductAdapter.GetCartItemCount | app/src/user/java/io/github/karadkar/veggie/user/adapter/ProductAdapter.java:128-130 | equals the number of unaccepted rows in the store |
| Adapter.ProductAdapter.AddNewProducts | app/src/user/java/io/github/karadkar/veggie/user/adapter/ProductAdapter.java:132-136 | the list is replaced by exactly the given list |
| Adapter.ProductAdapter.RemoveProduct | app/src/user/java/io/github/karadkar/veggie/user/adapter/ProductAdapter.java:138-144 | the product's cart line is deleted. The list loses element `i` exactly when there was such a line (the delete returned > 0), and is unchanged otherwise. Either way the other elements keep their order |
| Adapter.ViewHolder.constructor | app/src/user/java/io/github/karadkar/veggie/user/adapter/ProductAdapter.java:164-171 | the row is bound to its adapter, product and cart line, with its check box clear |
| Adapter.ViewHolder.OnVolumeAdded | app/src/user/java/io/github/karadkar/veggie/user/adapter/ProductAdapter.java:184-190 | with `newVolume = cartItem.volume + volumeSet`, it calls `updateVolume` only when `newVolume <= maximumVolume`; otherwise the store is unchanged. After an update, every cart line of the product is at `VolumeAdded(volume)`. Volumes stay in range, and the one-line-per-product invariant is kept |
| Adapter.ViewHolder.OnVolumeSubtracted | app/src/user/java/io/github/karadkar/veggie/user/adapter/ProductAdapter.java:192-199 | with `newVolume = cartItem.volume - volumeSet`, it calls `updateVolume` only when `newVolume >= minimumVolume`; otherwise the store is unchanged. After an update, every cart line is at `VolumeSubtracted(volume)`. Volumes stay in range, and the invariant is kept |
| Adapter.ViewHolder.UpdateToCart | app/src/user/java/io/github/karadkar/veggie/user/adapter/ProductAdapter.java:201-218 | flips cart membership. If the product was in the cart, its unaccepted rows are deleted and no id is used. Otherwise exactly the row `addProductToCart(id, minimumVolume)` writes is appended, and one id is used. That row is an unaccepted line for the signed-in user at `minimumVolume`, priced by `calculatePrice` when the product exists and at the default otherwise. The check box shows the new membership, and at most one cart line per product is kept |

## Left out

- Android plumbing is not modelled: `Context`, `ContentResolver`, URIs, cursors and `ContentUris.parseId`.
  - The table is a sequence.
  - The id an insert returns is a counter, `nextId`.
  - A cursor is the query's sequence of rows, in table order. SQL gives no order without `ORDER BY`; the model fixes insertion order.
- `ProductDbHelper` and `UserDbHelper` are not part of this model.
  - The product table is a `map<string, Product>`, and a missing key plays the role of `product.isEmpty()`.
  - The signed-in user is the field `signedUser`.
  - `ProductDbHelper.getProducts` is the uninterpreted constant `getProducts`.
- `CommonUtils.calculatePrice` and `CommonUtils.getVolumeExtension` are not part of this model. `calculatePrice` is an uninterpreted function field; nothing is assumed about its arithmetic. `getVolumeExtension` is only used to format text.
- `PurchasedItem.java` is not part of this model. Its constructors are assumed to leave every field at Java's default: empty text for a `null` string, 0, false. `Blank` and `NewItem` follow that assumption.
- Java's 32-bit `int` and 64-bit `long` are not modelled. Sums of `totalPrice`, `volume + volumeSet` and the dates are unbounded integers, so wrap-around on overflow is not modelled.
- `storeOrderHistory` is not transactional in the source: it deletes, then inserts. A crash or failure part-way through is not modelled.
- Concurrent access to the table is not modelled; every operation runs alone.
- Each `new CartDbHelper(context)` in the source attaches to the same persistent table; the adapter's own helper is modelled by handing it one shared `CartDbHelper` object, opened on the table's current rows and next id.
- `UserSignUpPresenter.java` is not modelled. It is one asynchronous network call with callbacks.
- The adapter's view code is not modelled:
  - `onCreateViewHolder`, `onBindViewHolder` and their text formatting;
  - Glide image loading, ButterKnife binding and Firebase analytics;
  - `notifyDataSetChanged`, `notifyItemChanged` and `notifyItemRemoved`;
  - the `onClick` dispatch to `updateToCart`, and the mode-only adapter constructor (request date 0).
  - The `ViewHolder` constructor takes the product and cart line that binding and `setProduct`/`setCartItem` supply.
- Adapter.StepsStayInRange: proved for a non-negative step (`volumeSet >= 0`). With a negative step the two guards do not keep the range.
  - The lemma is stated over the volumes the buttons compute. It assumes the row is rebound to the stored line between presses, as the source's `notifyItemChanged` causes.
  - `OnVolumeAdded` and `OnVolumeSubtracted` state the one-press form over the store.
- Adapter.ProductAdapter.RemoveProduct: requires a position inside the list. The source's `mProducts.get` throws an exception outside it.
- CartDb.CartDbHelper.GetProductsFromCartOn: states only that the result is `getProducts` of the listed ids, because the lookup's body is not part of this model.
- CartDb.CartDbHelper.GetProductsFromCart: the same, for the undated form.
