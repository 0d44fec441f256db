# lemicare cart service — a verified model of its cart and wishlist core

The lemicare cart service keeps shopping carts and wishlists for a storefront
with many organisations.

**Carts.** A cart belongs to one organisation and is identified by a signed-in
user's `userId` or an anonymous visitor's `guestId`. It holds one line item per
product. Each line keeps the product's name and price from the moment it was
added (the price snapshot), its quantity, and its line total. The cart caches
two totals: the total item count and the subtotal.

The cart service:
- adds products to a cart, creating the cart when there is none;
- changes a line's quantity after checking stock;
- removes a line, marking the cart ABANDONED once nothing is left;
- clears a cart;
- merges a guest's cart into the user's cart when the guest signs in;
- estimates shipping for a cart. It looks up every distinct product in the
  catalog, folds the lines into one package (total weight, total volume and the
  largest extent along each axis, after unit conversion with HALF_UP rounding),
  asks the delivery service for quotes, and reports the cheapest one.

**Wishlists.** The wishlist service keeps one wishlist per (organisation,
customer). It holds a list of products with no product listed twice.

## Modules

- `text.dfy`, `Text`: the string tests the service relies on.
  - `String.isBlank`, and the `s != null && !s.isBlank()` guard.
  - `toLowerCase`, only as far as it decides comparisons with lower-case unit
    names.
- `wrappers.dfy`, `Wrappers`: `Option` and `Result`.
- `catalog.dfy`, `Catalog`: catalog products (name, MRP, optional weight and
  dimensions), and `Fetch`, the outcome of a remote call:
  - a body;
  - a null body;
  - an exception.
- `cart_model.dfy`, `CartModel`: carts and items as values.
  - The owner lookup and `findByCartId` as scans in id order.
  - The cached totals and the store invariant: every stored cart's totals are
    the sums over its items, and each cart has one line per product.
  - A cart's *basket*: a map from product to line, used to state what a merge
    produces.
- `cart_steps.dfy`, `CartSteps`: the `addItemToCart` transaction as a function
  of the store, with its lemmas.
- `cart_merge.dfy`, `CartMerge`: the `mergeGuestCart` transaction as a function
  of the store.
  - The loop over the guest lines and its invariant.
  - What the merge does to the two carts.
  - The corner case reported under Findings.
- `merge_guest.dfy`, `GuestMerge`: the whole `mergeGuestCart` transaction as one
  function of the store.
  - What each outcome leaves behind.
  - What a second run with the same arguments does.
  - A store on which that second run merges again.
- `cart_store.dfy`, `CartEngine`: class `CartStore`. It holds the two Firestore
  collections as maps and a counter that stands in for `UUID.randomUUID()`.
  - Each public operation is a method that updates the maps.
  - Each method is proved against the functions above, and keeps the store
    invariant.
- `units.dfy`, `Units`: `convertWeightToKg` and `convertDimensionToCm`, with
  HALF_UP rounding to a fixed scale, stated on the rounded integer.
- `shipping.dfy`, `Shipping`: the shipping estimate.
  - The distinct product ids and the catalog fan-out.
  - The aggregation loop, as an imperative method proved against a fold.
  - The courier request, the choice of the cheapest quote, and the whole
    pipeline with its failures in source order.
- `wishlist.dfy`, `Wishlists`: wishlist items, the add and remove operations on
  the item list, and class `WishlistStore` over the wishlist collection.

Money is kept in integer minor units, and measurements (BigDecimal in the
source) in `real`. The following are parameters of the operations:
- calls to other services: the storefront catalog, inventory stock and delivery
  quotes;
- the clock (`now`);
- the repository's filtering of carts by status (`activeOnly`, a constant of
  the store).

## Model

| member | source | states |
|---|---|---|
| CartModel.ResolveActor | src/main/java/com/lemicare/shoppingcart/service/CartService.java:94-101 | No actor exactly when neither id has text. A user id with text wins. Otherwise the guest id is used. |
| CartModel.FindCart | src/main/java/com/lemicare/shoppingcart/service/CartService.java:95-97 | The owner lookup returns a stored cart of the organisation and actor, the first in id order. It returns nothing exactly when no stored cart matches. |
| CartModel.ItemsOf | src/main/java/com/lemicare/shoppingcart/service/CartService.java:372 | `findByCartId`, defined by its body: the items of the cart under ids below the counter, scanned in id order. ItemsOfMembers and ItemsOfOrdered state its properties. |
| CartModel.ItemsOfMembers | src/main/java/com/lemicare/shoppingcart/service/CartService.java:372 | `findByCartId` returns exactly the stored items of that cart, each under its own id below the counter. |
| CartModel.ItemsOfOrdered | src/main/java/com/lemicare/shoppingcart/service/CartService.java:372 | `findByCartId` returns the items in increasing id order, each once. |
| CartModel.FirstWithProduct | src/main/java/com/lemicare/shoppingcart/service/CartService.java:409-411 | `findFirst` returns an item of the list with the product. It returns nothing only when no item has that product. |
| CartModel.FirstWithProductIsFirst | src/main/java/com/lemicare/shoppingcart/service/CartService.java:409-411 | `findFirst` returns the first item of the list with the product: no earlier item has it. |
| CartModel.FirstWithProductUnique | src/main/java/com/lemicare/shoppingcart/service/CartService.java:409-411 | In a list with one line per product, `findFirst` returns the line of that product. |
| CartModel.LineTotalIsProduct | src/main/java/com/lemicare/shoppingcart/service/CartService.java:142 | The line total used throughout is unit price × quantity. |
| Text.LowerOfLowerWord | src/main/java/com/lemicare/shoppingcart/service/CartService.java:799 | Lower-casing leaves an all-lower-case ASCII word unchanged, so the unit names compare as written. |
| CartSteps.AddToCart | src/main/java/com/lemicare/shoppingcart/service/CartService.java:94-182 | The addItemToCart transaction as a function of the store. Its own ensures says at most two ids are used: one for a new cart and one for a new line. The rest is defined by its body, and AddToCartFindsCart, AddToCartLine, AddToCartBasket and AddToCartKeepsInvariant state its properties. |
| CartSteps.AddToCartFindsCart | src/main/java/com/lemicare/shoppingcart/service/CartService.java:94-124 | addItemToCart writes the owner's existing cart, or else a new ACTIVE cart under a fresh id carrying the request's ids. Either way the owner lookup afterwards finds the written cart. |
| CartSteps.AddToCartLine | src/main/java/com/lemicare/shoppingcart/service/CartService.java:127-162 | An existing line of the product grows by the requested quantity and is re-totalled at its snapshot price. Otherwise a new line is made under a fresh id, with the current name and price. |
| CartSteps.AddToCartBasket | src/main/java/com/lemicare/shoppingcart/service/CartService.java:127-171 | The written cart's basket afterwards is its basket before, merged with one line: the requested quantity at the current price. |
| CartSteps.AddToCartKeepsInvariant | src/main/java/com/lemicare/shoppingcart/service/CartService.java:166-182 | The add keeps the store invariant. The written cart's totals equal the sums over its items afterwards. |
| CartEngine.CartStore.AddItemToCart | src/main/java/com/lemicare/shoppingcart/service/CartService.java:51-189 | A failed product call gives ServiceCommunication. A null product gives ProductNotFound. A request with neither id gives InvalidActor. None of these writes anything. Otherwise the new store is the AddToCart step, the returned view's totals agree with its items, and the owner lookup finds the cart. |
| CartEngine.CartStore.GetCartDetails | src/main/java/com/lemicare/shoppingcart/service/CartService.java:837-877 | InvalidActor exactly when no id has text. CartNotFound exactly when no stored cart belongs to the actor in the organisation. It succeeds exactly when the actor's cart is found, and then the result is that stored cart with its items, and its totals agree with them. |
| CartEngine.CartStore.GetOrCreateUserCart | src/main/java/com/lemicare/shoppingcart/service/CartService.java:466-489 | A found user cart is returned and nothing changes. Otherwise exactly one new empty ACTIVE cart is stored under the next id. Either way the lookup afterwards finds the returned cart. |
| CartEngine.CartStore.UpdateItemQuantity | src/main/java/com/lemicare/shoppingcart/service/CartService.java:215-275 | CartNotFound exactly when the item or its cart is missing or belongs to another organisation. Then a failed stock call gives ServiceCommunication, and missing or short stock gives InsufficientStock. On success only that item and its cart change. The item gets the new quantity at its snapshot price, the cart totals agree with its items, and only that product's line of the basket changes. |
| CartEngine.CartStore.RemoveItemFromCart | src/main/java/com/lemicare/shoppingcart/service/CartService.java:278-312 | The same not-found condition gives CartNotFound. Otherwise the item is deleted and, in the cart, its quantity and total are subtracted. The cart becomes ABANDONED when the count falls to 0 or below. The totals still agree with the items, and the cart is ABANDONED exactly when it has no items left (or was already ABANDONED). |
| CartEngine.CartStore.ClearCart | src/main/java/com/lemicare/shoppingcart/service/CartService.java:315-353 | InvalidActor or CartNotFound exactly as in the lookup, and then nothing changes. It succeeds exactly when the actor's cart is found, and then every item of the cart is deleted and the cart is stored CLEARED with 0 items and subtotal 0. Nothing else changes. |
| CartEngine.CartStore.DeleteItems | src/main/java/com/lemicare/shoppingcart/service/CartService.java:338-341 | Deletes exactly the listed items' documents and nothing else. |
| CartMerge.FoldGuest | src/main/java/com/lemicare/shoppingcart/service/CartService.java:408-443 | The loop over the guest lines as a fold. Its own ensures says each guest line uses at most one new id. The rest is defined by its body, and MergeFold and MergeSelf state what it does. |
| CartMerge.MergeFold | src/main/java/com/lemicare/shoppingcart/service/CartService.java:408-443 | Merging into a different user cart: the user cart's basket becomes the user basket merged with the guest basket. On a common product the quantities add and the user's price snapshot applies. The guest cart keeps no items, no other cart's items change, and one line per product is kept. |
| CartMerge.MergeSelf | src/main/java/com/lemicare/shoppingcart/service/CartService.java:408-443 | When the guest and user lookups return the same cart, the loop deletes every item of that cart and allocates no id. |
| CartEngine.CartStore.FoldGuestItems | src/main/java/com/lemicare/shoppingcart/service/CartService.java:408-443 | The in-place loop leaves the items and id counter that the FoldGuest fold gives, and the carts unchanged. |
| CartMerge.MergeCarts | src/main/java/com/lemicare/shoppingcart/service/CartService.java:382-461 | After the fold, the guest cart is stored as it was read at the start, with status MERGED_TO_USER_CART. No id is given back. |
| CartMerge.MergeCartsMerges | src/main/java/com/lemicare/shoppingcart/service/CartService.java:382-461 | For distinct carts: the returned items are the user cart's items after the fold, and their basket is the user basket merged with the guest basket. The returned cart's totals agree with those items and its guestId is cleared. The guest cart keeps no items, and no other cart's items change. |
| CartMerge.MergeCartsKeepsInvariant | src/main/java/com/lemicare/shoppingcart/service/CartService.java:446-458 | The returned cart is the one stored, and no other cart but the guest cart changes. The store invariant is kept. |
| CartEngine.CartStore.MergeGuestCart | src/main/java/com/lemicare/shoppingcart/service/CartService.java:356-463 | The new store, id counter and view are those GuestMerge.MergeGuest gives for the old store, and the store invariant is kept. The properties of MergeGuest are the GuestMerge lemmas below. |
| CartMerge.MergeCartsSelf | src/main/java/com/lemicare/shoppingcart/service/CartService.java:356-463 | As written, merging a cart into itself deletes all of its items and returns an empty view with zero totals. The cart is stored MERGED_TO_USER_CART. |
| CartMerge.SelfMergeExample | src/main/java/com/lemicare/shoppingcart/service/CartService.java:356-463 | A concrete store: one cart with userId and guestId holding one line. Both lookups find the cart, and merging it returns no items. |
| CartMerge.MergeCartsFixed | src/main/java/com/lemicare/shoppingcart/service/CartService.java:356-463 | The corrected merge: a guest cart that is the user's own cart keeps its lines and only loses its guestId. Any other cart is merged as written. |
| CartMerge.MergeCartsFixedKeepsLines | src/main/java/com/lemicare/shoppingcart/service/CartService.java:356-463 | The corrected merge returns the user cart's stored items. Their basket is the merged basket, or the user basket alone when the two lookups found one cart. The returned cart is stored, carries no guestId and agrees with its items, and the invariant holds. |
| GuestMerge.MergeGuest | src/main/java/com/lemicare/shoppingcart/service/CartService.java:356-463 | The corrected mergeGuestCart, defined by its body: the source's branches, with the self-merge done by MergeCartsFixed. MergeGuestSettles, MergeGuestWithoutItems, RetryAfterSelf, RetryAfterMerge and MergeGuestIdempotent state its properties. |
| GuestMerge.MergeGuestAsWritten | src/main/java/com/lemicare/shoppingcart/service/CartService.java:356-463 | mergeGuestCart as written, defined by its body: a guest cart with items is merged by MergeCarts even when it is the user's own cart. SecondMergeMergesAgain runs it. |
| GuestMerge.UserCartKeeps | src/main/java/com/lemicare/shoppingcart/service/CartService.java:466-489 | getOrCreateUserCart keeps every cart and item and adds at most one cart, which carries no guestId. The store invariant holds after it, the returned cart is stored with its items, and the user lookup finds it. |
| GuestMerge.MergeCartsSettles | src/main/java/com/lemicare/shoppingcart/service/CartService.java:382-461 | Merging into a different cart keeps the invariant. The user lookup finds the returned cart, which carries no guestId. The guest cart is the tombstone: the cart as read with status MERGED_TO_USER_CART, without items. Only the two carts' items change. |
| GuestMerge.MergeLeavesOther | src/main/java/com/lemicare/shoppingcart/service/CartService.java:382-461 | A merge into a different cart leaves every third cart and its items as they were. |
| GuestMerge.MergeGuestSettles | src/main/java/com/lemicare/shoppingcart/service/CartService.java:356-463 | Every outcome of the merge keeps the store invariant. The returned cart is stored with its items, and the user lookup finds it. |
| GuestMerge.MergeGuestWithoutItems | src/main/java/com/lemicare/shoppingcart/service/CartService.java:362-378 | With no guest cart, or one without items, the merge changes no item. It deletes that empty guest cart, keeps every other cart, and adds at most a user cart without a guestId. |
| GuestMerge.RetryAfterMerge | src/main/java/com/lemicare/shoppingcart/service/CartService.java:356-463 | After a merge into a different cart, a second run changes nothing when the lookups only match ACTIVE carts. Otherwise it finds the empty tombstone, deletes it, and returns the same cart. |
| GuestMerge.RetryAfterSelf | src/main/java/com/lemicare/shoppingcart/service/CartService.java:356-463 | After the corrected merge of a cart that is the user's own, a second run changes nothing. |
| GuestMerge.MergeGuestIdempotent | src/main/java/com/lemicare/shoppingcart/service/CartService.java:356-463 | When at most one cart is one the guest lookup can match, a second run returns the same cart with the same items and changes no item and no id. When the lookups only match ACTIVE carts it changes nothing. Otherwise it at most deletes an item-less MERGED_TO_USER_CART tombstone. |
| GuestMerge.SecondMergeMergesAgain | src/main/java/com/lemicare/shoppingcart/service/CartService.java:356-463 | A store with two carts filed under guestId "g": one of the guest alone, and one that addItemToCart made for user "v" with both ids. The first merge to "u" tombstones the first cart. A second run finds the second, still ACTIVE with its line, and merges it too, so the outcome differs. |
| Units.HalfUpUnits | src/main/java/com/lemicare/shoppingcart/service/CartService.java:803-805 | Rounding to an integer is within one half, and ties go away from zero (HALF_UP). |
| Units.HalfUpUnitsUnique | src/main/java/com/lemicare/shoppingcart/service/CartService.java:803-805 | HALF_UP rounding has only one possible result. |
| Units.RoundingTo3 | src/main/java/com/lemicare/shoppingcart/service/CartService.java:803-805 | Rounding to 3 places gives a whole number of thousandths, within half a thousandth of the exact value. |
| Units.RoundingTo2 | src/main/java/com/lemicare/shoppingcart/service/CartService.java:820-822 | Rounding to 2 places gives a whole number of hundredths, within half a hundredth of the exact value. |
| Units.WeightToKgCases | src/main/java/com/lemicare/shoppingcart/service/CartService.java:795-810 | A missing weight, value or unit gives 0. "kg" and unknown units pass the value through. "g" and "lb" give the exact kg (÷1000, ×0.453592) rounded HALF_UP to 3 places. |
| Units.DimensionToCmCases | src/main/java/com/lemicare/shoppingcart/service/CartService.java:812-827 | A missing value or unit gives 0. "cm" and unknown units pass the value through. "mm" and "inch" give the exact cm (÷10, ×2.54) rounded HALF_UP to 2 places. |
| Units.GramsInUpperCase | src/main/java/com/lemicare/shoppingcart/service/CartService.java:799-803 | Unit names are compared after lower-casing: 1500 "G" is 1.5 kg. |
| Units.HalfUpExamples | src/main/java/com/lemicare/shoppingcart/service/CartService.java:803-822 | 0.05 mm is 0.01 cm (the tie rounds up), and 1 lb is 0.454 kg. |
| Shipping.Distinct | src/main/java/com/lemicare/shoppingcart/service/CartService.java:638-641 | `distinct()` has no repetitions and exactly the members of its input. |
| Shipping.DistinctOfNoDuplicates | src/main/java/com/lemicare/shoppingcart/service/CartService.java:638-641 | A list without repetitions passes through `distinct()` unchanged. |
| Shipping.CartIds | src/main/java/com/lemicare/shoppingcart/service/CartService.java:638-641 | The distinct ids are exactly the products of the cart lines, each once. |
| Shipping.Details | src/main/java/com/lemicare/shoppingcart/service/CartService.java:643-669 | The fan-out map holds exactly the ids whose call returned a product, each with that product. A null body or an exception leaves the id out. |
| Shipping.SizeCheck | src/main/java/com/lemicare/shoppingcart/service/CartService.java:683 | On distinct ids the map is never larger than the id list, and has the same size exactly when every call returned a product. |
| Shipping.LookupCheck | src/main/java/com/lemicare/shoppingcart/service/CartService.java:680-705 | The size check passes exactly when every line's product was fetched. Then every line finds its product, so the in-loop null check never fires. |
| Shipping.MissingIds | src/main/java/com/lemicare/shoppingcart/service/CartService.java:684-686 | The reported ids are exactly the ids without a product, with no repetitions. |
| Shipping.Max | src/main/java/com/lemicare/shoppingcart/service/CartService.java:725-727 | `BigDecimal.max` is at least both arguments and equals one of them. |
| Shipping.Aggregate | src/main/java/com/lemicare/shoppingcart/service/CartService.java:699-735 | The aggregation loop as a fold over the lines, defined by its body. AggregateLines, AggregateNonNegative, AggregateConcat, AggregateSwap, AggregateSums and AggregateMaxima state its properties. |
| Shipping.AggregateLines | src/main/java/com/lemicare/shoppingcart/service/CartService.java:693-735 | The in-place loop over the lines ends with the accumulators of the Aggregate fold. |
| Shipping.AggregateNonNegative | src/main/java/com/lemicare/shoppingcart/service/CartService.java:693-727 | The extents start at 0 and never fall below it. |
| Shipping.AggregateConcat | src/main/java/com/lemicare/shoppingcart/service/CartService.java:699-735 | Folding two runs of lines is folding each and joining: weights and volumes add, extents take the maximum. |
| Shipping.AggregateSwap | src/main/java/com/lemicare/shoppingcart/service/CartService.java:699-735 | The package does not depend on the order of the cart lines. |
| Shipping.AggregateSums | src/main/java/com/lemicare/shoppingcart/service/CartService.java:707-730 | Total weight is Σ weight × quantity over the lines with a complete weight. Total volume is Σ height × width × length × quantity over the lines with dimensions. |
| Shipping.AggregateMaxima | src/main/java/com/lemicare/shoppingcart/service/CartService.java:724-727 | Each maximum extent bounds that extent of every line with dimensions, and is either 0 or the extent of one of those lines. |
| Shipping.SourcePincode | src/main/java/com/lemicare/shoppingcart/service/CartService.java:829-835 | Success exactly for the one configured organisation, with pincode 600029. Every other organisation gives PincodeNotConfigured. |
| Shipping.OrDefault | src/main/java/com/lemicare/shoppingcart/service/CartService.java:750-752 | An extent sent to the courier is positive: the maximum when positive, 10 cm otherwise. |
| Shipping.RequestFor | src/main/java/com/lemicare/shoppingcart/service/CartService.java:754-768 | The request carries the two pincodes, the weight floored at 0.5 kg, positive defaulted extents, prepaid (cod 0), declared value 100 and one item. |
| Shipping.CheapestIndex | src/main/java/com/lemicare/shoppingcart/service/CartService.java:777-779 | `min` by cost picks a quote no dearer than any other, and the first such quote. |
| Shipping.Choose | src/main/java/com/lemicare/shoppingcart/service/CartService.java:776-791 | No quotes gives NoDeliveryOptions. Otherwise the headline cost is the cost of the first least-cost quote, the one `min` picks. The quotes come back in order with costs and couriers kept. A quote is flagged best exactly when it was flagged already or `equals` that first least-cost quote. |
| Shipping.ShipmentOf | src/main/java/com/lemicare/shoppingcart/service/CartService.java:633-743 | An empty cart gives EmptyCart. Otherwise a product that was not fetched gives ProductNotFound, exactly when some line's product fails; the list names exactly the failed distinct ids, non-empty and without repetitions. Then a package with neither weight nor volume gives NoPhysicalData. Otherwise the result is the fold over the lines. |
| Shipping.Estimate | src/main/java/com/lemicare/shoppingcart/service/CartService.java:627-792 | estimateShipping as a function of the cart lookup and the two remote calls, defined by its body. EstimateOk and EstimateFails state its properties. |
| Shipping.EstimateOk | src/main/java/com/lemicare/shoppingcart/service/CartService.java:627-792 | A successful estimate is for the configured organisation and a non-empty cart whose products were all found. It asks about the aggregated package, which has some weight or volume, and reports the least of the quoted costs. |
| Shipping.EstimateFails | src/main/java/com/lemicare/shoppingcart/service/CartService.java:627-792 | Which failure an estimate ends in, stage by stage and in source order: the lookup's failure, EmptyCart, ProductNotFound, NoPhysicalData or PincodeNotConfigured, then DeliveryUnavailable when the quote call faults and NoDeliveryOptions when it returns no quotes. No other failure arises. |
| Shipping.EstimateCart | src/main/java/com/lemicare/shoppingcart/service/CartService.java:633-792 | The in-place pipeline over a looked-up cart returns the Estimate of that lookup. Its properties are EstimateOk, EstimateFails and the lemmas above. |
| CartEngine.CartStore.EstimateShipping | src/main/java/com/lemicare/shoppingcart/service/CartService.java:627-792 | estimateShipping returns the Estimate of getCartDetails on the current store. |
| Wishlists.Added | src/main/java/com/lemicare/shoppingcart/service/WishlistService.java:48-52 | After an add the product is listed. A listed product leaves the list unchanged; otherwise exactly one entry is appended with the given time. No product is listed twice. |
| Wishlists.AddedIdempotent | src/main/java/com/lemicare/shoppingcart/service/WishlistService.java:43-54 | Adding the same product twice is adding it once. |
| Wishlists.Removed | src/main/java/com/lemicare/shoppingcart/service/WishlistService.java:66 | `removeIf` keeps exactly the entries of other products. The list shrinks exactly when the product was listed, and stays free of repetitions. |
| Wishlists.RemovedConcat | src/main/java/com/lemicare/shoppingcart/service/WishlistService.java:66 | Removal distributes over concatenation, so the remaining entries keep their order. |
| Wishlists.RemovedAfterAdded | src/main/java/com/lemicare/shoppingcart/service/WishlistService.java:43-75 | Removing a product just added undoes the add. |
| Wishlists.WishlistProductIds | src/main/java/com/lemicare/shoppingcart/service/WishlistService.java:90-92 | The product ids of the entries, one per entry, in order. |
| Wishlists.WishlistStore.GetWishlist | src/main/java/com/lemicare/shoppingcart/service/WishlistService.java:33-37 | The stored wishlist of the pair, or a new empty one carrying the two ids. |
| Wishlists.WishlistStore.AddProductToWishlist | src/main/java/com/lemicare/shoppingcart/service/WishlistService.java:43-54 | Returns the wishlist with the product added. A new product is saved under the pair. A product already listed writes nothing. |
| Wishlists.WishlistStore.RemoveProductFromWishlist | src/main/java/com/lemicare/shoppingcart/service/WishlistService.java:61-75 | Returns the wishlist without the product. A stored wishlist that listed it is saved. Otherwise, including when no wishlist is stored, nothing is written. |
| Wishlists.WishlistStore.ClearWishlist | src/main/java/com/lemicare/shoppingcart/service/WishlistService.java:80-82 | Deletes exactly the pair's wishlist. Afterwards getWishlist gives an empty one. |
| Wishlists.WishlistStore.GetWishlistProducts | src/main/java/com/lemicare/shoppingcart/service/WishlistService.java:88-108 | An empty wishlist gives no products and makes no call. Otherwise the catalog is asked for the entries' ids in wishlist order, and its answer is returned. |

## Left out

- Firestore transactions are modelled as sequences of map updates, applied as each write is issued. A repository query later in the same transaction sees the earlier writes.
  - The re-queries at CartService.java:186, 272 and 446 therefore return the updated items.
  - Atomicity, retries, contention between concurrent transactions, and any buffering of writes until commit are not modelled.
  - If the repository queries do not see uncommitted writes, the returned views, and the totals mergeGuestCart computes at line 446, would reflect the state before the transaction. The model does not decide this, because the repository classes are not part of this model.
- Repository queries are not part of this model. `findByOrgIdAndUserId` and `findByOrgIdAndGuestId` are modelled as returning the first matching cart in id order. `findByCartId` returns the cart's items in id order. Whether the owner lookups skip carts that are no longer ACTIVE is the store constant `activeOnly`.
- `UUID.randomUUID()` is a counter `nextId`. Timestamps (`createdAt`, `lastModifiedAt`, `addedAt`) are dropped from carts. A wishlist entry's `addedAt` is the parameter `now`.
- The cart item's `sku` (always "N/A", or copied on merge) is not modelled. Logging is not modelled. `CartMapper.toDto` is modelled as pairing the cart with the item list.
- Money is held in integer minor units, while the source holds it in `double`, so floating-point rounding of subtotals is not modelled.
- CartEngine.CartStore.AddItemToCart: Java's 32-bit `int` overflow of quantities and item counts is not modelled; counts are unbounded integers. The same holds for UpdateItemQuantity and MergeGuestCart.
- Defensive re-reads that return null cannot happen in the model, because a document the query found is always in the map. These are the `CartNotFoundException` paths at CartService.java:106-109, 133-136, 368-371, 388-391 and 469-471. The NullPointerException a null user line would raise at line 416 is not modelled either.
- `ExecutionException` and `InterruptedException`, and their wrapping into `RuntimeException` at CartService.java:843-874, are not modelled.
- The stock check in addItemToCart (CartService.java:68-86) and the earlier versions of getCartDetails, estimateShipping and its helpers (CartService.java:191-212 and 491-625) are commented out in the source and are not modelled.
- Bean validation becomes preconditions. UpdateItemQuantityRequest and AddItemRequest carry `@Min(1)`, so `quantity >= 1` is required. MergeCartRequest carries `@NotBlank` on both ids, so both are required to have text. The `@NotBlank` on the product id is not required.
- Other services are parameters:
  - The product, stock and quote replies are `Fetch` values or functions to them. A `FeignException` is `Faulted`.
  - The shipping fan-out calls the catalog concurrently. Here it is one function `catalog` applied to each id, so the calls are sequential and their answers deterministic.
- The `allOf(...).join()` failure at CartService.java:674-678 is not modelled. Each task catches every exception, so that path does not arise in the model.
- The quotes' `FeignException` from the delivery service propagates out of estimateShipping. It is the failure `DeliveryUnavailable`.
- `getProductsByIds`, which getWishlistProducts calls, is not declared in the StorefrontServiceClient shown. It is the parameter `getProductsByIds`, so its exceptions and a null answer are not modelled.
- DeliveryOption.java, ShippingEstimate's builder and CourierServiceabilityRequest.java are not part of this model.
  - A quote is modelled by its `cost`, its `bestOption` flag and `courier`, which stands for all its other fields.
  - `option.equals(bestOption)` is value equality of those fields.
- BigDecimal values are `real`, so scale is not modelled. `equals` on BigDecimal also compares scale, and 1.0 and 1.00 are one value here. The scale of a BigDecimal returned unrounded (kg, cm or an unknown unit) is not modelled either.
- Wishlist.java and the wishlist repository are not part of this model.
  - `containsProduct` is taken to be "some entry has this product id".
  - `save` is taken to return the wishlist it stores.
  - `delete(organizationId, customerId)` is taken to delete the document of that pair.
  - `findByOrganizationIdAndCustomerId` gives at most one wishlist per pair.
- Shipping.ShipmentOf: it states which ids the ProductNotFound failure lists and that none repeats, but not their order. In the source that order is cart order of first occurrence, and MissingIds keeps it.
- Text.ToLower, Units.WeightToKg, Units.DimensionToCm: lower-casing is ASCII only, which is `toLowerCase()` under a root or English default locale. The source calls `toLowerCase()` with no locale argument, so under a Turkish or Azeri default locale "INCH" lower-cases to "ınch" (dotless i) and falls through to the pass-through case; that is not modelled.
- GuestMerge.MergeGuestIdempotent: idempotence is proved only for stores where at most one cart is one the guest lookup can match. That the operations keep such stores is not proved, and SecondMergeMergesAgain shows a store, built by two calls of addItemToCart, where they do not. When the lookups also match non-ACTIVE carts, the second run deletes the tombstone, so the carts are not exactly those of the first run.
- The controllers, the security configuration, the Feign configuration and the application class are outside the modelled core.

## Findings

| source | as written | input that shows it | evidently intended | confidence | as-written member | corrected member |
|---|---|---|---|---|---|---|
| src/main/java/com/lemicare/shoppingcart/service/CartService.java:356-463 | mergeGuestCart does not check whether the guest cart and the user cart are the same cart. When both lookups find one cart, every guest line finds itself as the user line, is grown, and is then deleted. The cart is stored as read at the start with status MERGED_TO_USER_CART, and an empty cart is returned. | A cart created by addItemToCart with both a userId "u" and a guestId "g" and one line, then merged with guestId "g" and userId "u". | The user's cart is returned with its lines, and only its guestId is cleared, as line 450 does for every merged user cart. | not executed | CartMerge.MergeCartsSelf, CartMerge.SelfMergeExample | CartMerge.MergeCartsFixed, CartMerge.MergeCartsFixedKeepsLines |
| src/main/java/com/lemicare/shoppingcart/service/CartService.java:356-463 | addItemToCart (lines 110-121) files a cart created for a user under the request's guestId as well. The merge takes the first cart the guest lookup finds, so with two such carts a retry with the same arguments merges again. | addItemToCart with guestId "g" alone, then with userId "v" and guestId "g"; then mergeGuestCart with guestId "g" and userId "u", twice. | Running the merge twice with the same arguments leaves the same user cart as running it once. This holds when the guest lookup can match at most one cart. | not executed | GuestMerge.SecondMergeMergesAgain | GuestMerge.MergeGuest, GuestMerge.MergeGuestIdempotent |

`CartMerge.MergeCarts` and `GuestMerge.MergeGuestAsWritten` model the merge as written. `CartEngine.CartStore.MergeGuestCart` follows the corrected `GuestMerge.MergeGuest`, which merges by `CartMerge.MergeCartsFixed`. The correction of the second row is the hypothesis of `GuestMerge.MergeGuestIdempotent`. The operations are not changed to keep it, and the Left out section says so.
