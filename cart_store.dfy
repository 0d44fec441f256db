/** CartService as an object over its two Firestore collections. Each public
    method is one transaction; its writes are applied to the maps as they are
    issued, so a query later in the same transaction sees them. */
module CartEngine {
  import opened Wrappers
  import opened Text
  import opened Catalog
  import opened CartModel
  import opened CartSteps
  import opened CartMerge
  import opened GuestMerge
  import opened Shipping

  class CartStore {
    /** The `carts` collection, by document id. */
    var carts: map<Id, Cart>
    /** The `cartItems` collection, by document id. */
    var items: map<Id, CartItem>
    /** The next fresh document id; every id in use is below it. */
    var nextId: nat
    /** Whether the owner lookups only match ACTIVE carts. */
    const activeOnly: bool

    ghost predicate Valid()
      reads this
    {
      StoreInvariant(carts, items, nextId)
    }

    constructor (activeOnly: bool)
      ensures Valid()
      ensures carts == map[] && items == map[] && nextId == 0 && this.activeOnly == activeOnly
    {
      carts := map[];
      items := map[];
      nextId := 0;
      this.activeOnly := activeOnly;
    }

    /** findByOrgIdAndUserId / findByOrgIdAndGuestId. */
    function Lookup(orgId: string, a: Actor): Option<Id>
      reads this
    {
      FindCart(carts, nextId, orgId, a, activeOnly)
    }

    /** findByCartId. */
    function ItemsIn(c: Id): seq<CartItem>
      reads this
    {
      ItemsOf(items, nextId, c)
    }

    /** getCartDetails: the actor's cart in the organisation with its items;
        no usable id is InvalidActor, no such cart is CartNotFound. */
    function GetCartDetails(orgId: string, userId: Option<string>, guestId: Option<string>): (r: Result<CartView, Failure>)
      reads this
      requires Valid()
      ensures r == Err(InvalidActor) <==> ResolveActor(userId, guestId).None?
      ensures r == Err(CartNotFound) <==>
        ResolveActor(userId, guestId).Some? &&
        forall j :: j in carts && j < nextId ==> !OwnedBy(carts[j], orgId, ResolveActor(userId, guestId).value, activeOnly)
      ensures r.Err? ==> r.error == InvalidActor || r.error == CartNotFound
      ensures r.Ok? <==> ResolveActor(userId, guestId).Some? && Lookup(orgId, ResolveActor(userId, guestId).value).Some?
      ensures r.Ok? ==> r.value.cart.cartId == Lookup(orgId, ResolveActor(userId, guestId).value).value
      ensures r.Ok? ==>
        && r.value.cart.cartId in carts && carts[r.value.cart.cartId] == r.value.cart
        && OwnedBy(r.value.cart, orgId, ResolveActor(userId, guestId).value, activeOnly)
        && r.value.items == ItemsIn(r.value.cart.cartId)
      ensures r.Ok? ==> CartConsistent(r.value.cart, r.value.items)
      ensures r.Ok? ==> forall x :: x in r.value.items ==> x.cartId == r.value.cart.cartId
    {
      match ResolveActor(userId, guestId)
      case None => Err(InvalidActor)
      case Some(a) =>
        match Lookup(orgId, a)
        case None => Err(CartNotFound)
        case Some(id) =>
          ViewInvariant(id);
          Ok(CartView(carts[id], ItemsIn(id)))
    }

    /** Under the invariant, a stored cart sits under its own id, agrees with
        its items, and the query returns only its items. */
    lemma ViewInvariant(id: Id)
      requires Valid() && id in carts
      ensures CartConsistent(carts[id], ItemsIn(id)) && carts[id].cartId == id
      ensures forall x :: x in ItemsIn(id) ==> x.cartId == id
    {
      InvariantWellKeyed(carts, items, nextId);
      ItemsOfMembers(items, nextId, id);
    }
  
    /** getOrCreateUserCart: the user's cart, or a new empty ACTIVE one that is
        stored; afterwards the owner lookup finds the returned cart. */
    method GetOrCreateUserCart(orgId: string, userId: string) returns (v: CartView)
      requires Valid()
      modifies this
      ensures Valid()
      ensures old(Lookup(orgId, User(userId))).Some? ==>
        && carts == old(carts) && items == old(items) && nextId == old(nextId)
        && v.cart.cartId == old(Lookup(orgId, User(userId))).value
      ensures old(Lookup(orgId, User(userId))).None? ==>
        && nextId == old(nextId) + 1 && items == old(items)
        && carts == old(carts)[old(nextId) := Cart(old(nextId), orgId, Some(userId), None, Active, 0, 0)]
        && v.cart.cartId == old(nextId)
      ensures v.cart.cartId in carts && carts[v.cart.cartId] == v.cart && v.items == ItemsIn(v.cart.cartId)
      ensures Lookup(orgId, User(userId)) == Some(v.cart.cartId)
      ensures CartConsistent(v.cart, v.items)
    {
      var found := Lookup(orgId, User(userId));
      if found.Some? {
        ViewInvariant(found.value);
        v := CartView(carts[found.value], ItemsIn(found.value));
      } else {
        var cart := Cart(nextId, orgId, Some(userId), None, Active, 0, 0);
        NewCartKeepsInvariant(carts, items, nextId, cart);
        FindNewCart(carts, nextId, nextId + 1, orgId, User(userId), activeOnly, cart);
        carts := carts[nextId := cart];
        nextId := nextId + 1;
        v := CartView(cart, ItemsIn(cart.cartId));
      }
    }

    /** estimateShipping. The per-product calls of the fan-out are `catalog`
        and the delivery service is `quotes`, each a function of what it is
        asked; the steps and their failures are those of Estimate, which
        EstimateCart performs on the cart the lookup returned. */
    method EstimateShipping(orgId: string, userId: Option<string>, guestId: Option<string>, destinationPincode: int,
                            catalog: string -> Fetch<Product>, quotes: CourierRequest -> Fetch<seq<DeliveryOption>>)
      returns (r: Result<ShippingEstimate, Failure>)
      requires Valid()
      ensures r == Estimate(GetCartDetails(orgId, userId, guestId), orgId, destinationPincode, catalog, quotes)
    {
      var cart := GetCartDetails(orgId, userId, guestId);
      r := EstimateCart(cart, orgId, destinationPincode, catalog, quotes);
    }

  /** The loop of mergeGuestCart over the guest lines: a guest product the
        user cart already had grows the re-read user line, any other is
        copied into the user cart under a fresh id, and the guest line is
        deleted. */
    method FoldGuestItems(orgId: string, cU: Id, userItems: seq<CartItem>, guestItems: seq<CartItem>)
      modifies this
      ensures Folded(items, nextId) == FoldGuest(Folded(old(items), old(nextId)), orgId, cU, userItems, guestItems)
      ensures carts == old(carts)
    {
      for i := 0 to |guestItems|
        invariant Folded(items, nextId) == FoldGuest(Folded(old(items), old(nextId)), orgId, cU, userItems, guestItems[..i])
        invariant carts == old(carts)
      {
        var g := guestItems[i];
        var existing := FirstWithProduct(userItems, g.productId);
        if existing.Some? {
          var id := existing.value.cartItemId;
          if id in items {
            items := items[id := Grow(items[id], g.quantity)];
          }
        } else {
          items := items[nextId := Copied(g, nextId, orgId, cU)];
          nextId := nextId + 1;
        }
        items := items - {g.cartItemId};
        assert guestItems[..i + 1][..i] == guestItems[..i];
      }
      assert guestItems[..|guestItems|] == guestItems;
    }

    /** mergeGuestCart, with the self-merge corrected. No guest cart: the
        user's cart, found or created. A guest cart without items: it is
        deleted, then the same. A guest cart that is also the user's cart: it
        is returned with its lines, its guestId cleared. Otherwise the transaction performs what
        MergeCarts computes from the collections as they were. The new state
        and the returned cart are MergeGuest of the old state; the lemmas
        beside MergeGuest, MergeCarts and MergeCartsFixed say what that is,
        and MergeGuestIdempotent what a retry does. */
    method MergeGuestCart(orgId: string, guestId: string, userId: string) returns (v: CartView)
      requires Valid() && HasText(Some(guestId)) && HasText(Some(userId))
      modifies this
      ensures Valid()
      ensures var o := MergeGuest(old(carts), old(items), old(nextId), activeOnly, orgId, guestId, userId);
        carts == o.carts && items == o.items && nextId == o.next && v == o.view
    {
      var gl := Lookup(orgId, Guest(guestId));
      if gl.None? || carts[gl.value].orgId != orgId {
        ghost var c0, i0, n0 := carts, items, nextId;
        v := GetOrCreateUserCart(orgId, userId);
        UserCartIs(c0, i0, n0, activeOnly, orgId, userId, carts, items, nextId, v);
        return;
      }
      var gid := gl.value;
      var guestCart := carts[gid];
      var guestItems := ItemsIn(gid);
      if guestItems == [] {
        DropEmptyCart(carts, items, nextId, gid);
        carts := carts - {gid};
        ghost var c0, i0, n0 := carts, items, nextId;
        v := GetOrCreateUserCart(orgId, userId);
        UserCartIs(c0, i0, n0, activeOnly, orgId, userId, carts, items, nextId, v);
        return;
      }
      var uf := Lookup(orgId, User(userId));
      if uf == Some(gid) {
        var userCart := guestCart.(guestId := None);
        ClearGuestIdKeepsInvariant(carts, items, nextId, gid);
        carts := carts[gid := userCart];
        v := CartView(userCart, guestItems);
        return;
      }
      ghost var carts0, items0, n0 := carts, items, nextId;
      var userCart: Cart;
      var userItems: seq<CartItem>;
      if uf.Some? {
        userCart := carts[uf.value];
        userItems := ItemsIn(uf.value);
      } else {
        userCart := Cart(nextId, orgId, Some(userId), None, Active, 0, 0);
        userItems := [];
        nextId := nextId + 1;
      }
      ghost var user0, n1 := userCart, nextId;
      FoldGuestItems(orgId, userCart.cartId, userItems, guestItems);
      var finalItems := ItemsIn(userCart.cartId);
      userCart := userCart.(totalItems := TotalQuantity(finalItems), subtotalAmount := TotalPrice(finalItems), guestId := None);
      carts := carts[userCart.cartId := userCart];
      carts := carts[gid := guestCart.(status := MergedToUserCart)];
      v := CartView(userCart, finalItems);
      MergeCartsUnfold(carts0, items0, n0, orgId, userId, gid, uf, user0, userItems, n1, Folded(items, nextId));
      MergeCartsKeepsInvariant(carts0, items0, n0, orgId, userId, gid, uf);
    }

    /** addItemToCart. A failed product call is ServiceCommunication, a
        missing product ProductNotFound, no usable id InvalidActor, and
        nothing changes. Otherwise the transaction writes the cart and the
        line that AddToCart computes from the collections as they were; the
        lemmas beside AddToCart say what those are. */
    method AddItemToCart(orgId: string, req: AddRequest, product: Fetch<Product>) returns (r: Result<CartView, Failure>)
      requires Valid() && req.quantity >= 1
      modifies this
      ensures Valid()
      ensures product.Faulted? ==> r == Err(ServiceCommunication) && unchanged(this)
      ensures product.NullBody? ==> r == Err(ProductNotFound([req.productId])) && unchanged(this)
      ensures product.Fetched? && ResolveActor(req.userId, req.guestId).None? ==> r == Err(InvalidActor) && unchanged(this)
      ensures product.Fetched? && ResolveActor(req.userId, req.guestId).Some? ==>
        var a := ResolveActor(req.userId, req.guestId).value;
        var o := AddToCart(old(carts), old(items), old(nextId), activeOnly, orgId, req, a,
                           product.value.productName, product.value.mrp);
        && carts == AddedCarts(old(carts), o) && items == AddedItems(old(items), o) && nextId == o.next
        && r == Ok(CartView(o.cart, ItemsIn(o.cart.cartId)))
        && TotalsAgree(r.value.cart, r.value.items)
        && Lookup(orgId, a) == Some(r.value.cart.cartId)
    {
      if product.Faulted? {
        return Err(ServiceCommunication);
      }
      if product.NullBody? {
        return Err(ProductNotFound([req.productId]));
      }
      var details := product.value;
      var actor := ResolveActor(req.userId, req.guestId);
      if actor.None? {
        return Err(InvalidActor);
      }
      // The transaction body computes the cart and the line from what it
      // reads, then issues its two writes.
      var o := AddToCart(carts, items, nextId, activeOnly, orgId, req, actor.value, details.productName, details.mrp);
      AddToCartKeepsInvariant(carts, items, nextId, activeOnly, orgId, req, actor.value, details.productName, details.mrp);
      AddToCartFindsCart(carts, items, nextId, activeOnly, orgId, req, actor.value, details.productName, details.mrp);
      carts := carts[o.cart.cartId := o.cart];
      items := items[o.item.cartItemId := o.item];
      nextId := o.next;
      r := Ok(CartView(o.cart, ItemsIn(o.cart.cartId)));
    }

    /** updateItemQuantity. An item that is missing or of another
        organisation, or whose cart is, is CartNotFound; a failed stock call
        is ServiceCommunication; unknown stock or stock below the quantity is
        InsufficientStock; and nothing changes. Otherwise the line takes the
        new quantity at its snapshot price and the cart's totals are
        recalculated. */
    method UpdateItemQuantity(orgId: string, cartItemId: Id, quantity: int, stock: Fetch<int>)
      returns (r: Result<CartView, Failure>)
      requires Valid() && quantity >= 1
      modifies this
      ensures Valid()
      ensures nextId == old(nextId)
      ensures r.Err? ==> carts == old(carts) && items == old(items)
      ensures r == Err(CartNotFound) <==>
        || cartItemId !in old(items) || old(items)[cartItemId].orgId != orgId
        || old(items)[cartItemId].cartId !in old(carts)
        || old(carts)[old(items)[cartItemId].cartId].orgId != orgId
      ensures r.Err? && r != Err(CartNotFound) ==>
        r == (if stock.Faulted? then Err(ServiceCommunication) else Err(InsufficientStock))
      ensures r.Ok? <==> r != Err(CartNotFound) && stock.Fetched? && stock.value >= quantity
      ensures r.Ok? ==>
        var x := old(items)[cartItemId];
        var y := x.(quantity := quantity, itemTotalPrice := LineTotal(x.priceAtAddToCart, quantity));
        && items == old(items)[cartItemId := y]
        && r.value.cart.cartId == x.cartId
        && r.value.cart.(totalItems := 0, subtotalAmount := 0) == old(carts)[x.cartId].(totalItems := 0, subtotalAmount := 0)
        && carts == old(carts)[x.cartId := r.value.cart]
        && r.value.items == ItemsIn(x.cartId)
        && TotalsAgree(r.value.cart, r.value.items)
        && Basket(r.value.items) == old(Basket(ItemsOf(items, nextId, x.cartId)))[x.productId := LineOf(y)]
    {
      if cartItemId !in items || items[cartItemId].orgId != orgId {
        return Err(CartNotFound);
      }
      var x := items[cartItemId];
      if x.cartId !in carts || carts[x.cartId].orgId != orgId {
        return Err(CartNotFound);
      }
      var cart := carts[x.cartId];
      match stock {
        case Faulted => return Err(ServiceCommunication);
        case NullBody => return Err(InsufficientStock);
        case Fetched(available) =>
          if available < quantity {
            return Err(InsufficientStock);
          }
      }
      var item := x.(quantity := quantity, itemTotalPrice := LineTotal(x.priceAtAddToCart, quantity));
      var forTotals := WithoutItem(ItemsIn(cart.cartId), item.cartItemId) + [item];
      cart := cart.(totalItems := TotalQuantity(forTotals), subtotalAmount := TotalPrice(forTotals));
      assert cart.cartId == x.cartId by {
        ViewInvariant(x.cartId);
      }
      SetLineQuantity(carts, items, nextId, cartItemId, item, cart);
      items := items[cartItemId := item];
      carts := carts[cart.cartId := cart];
      r := Ok(CartView(cart, ItemsIn(cart.cartId)));
    }

    /** removeItemFromCart: an item that is missing or of another organisation,
        or whose cart is, is CartNotFound and nothing changes. Otherwise the
        item is deleted, its quantity and total are taken off the cart's cached
        totals, and the cart becomes ABANDONED when its item count drops to
        zero or below. */
    method RemoveItemFromCart(orgId: string, cartItemId: Id) returns (err: Option<Failure>)
      requires Valid()
      modifies this
      ensures Valid()
      ensures err.Some? <==>
        || cartItemId !in old(items) || old(items)[cartItemId].orgId != orgId
        || old(items)[cartItemId].cartId !in old(carts)
        || old(carts)[old(items)[cartItemId].cartId].orgId != orgId
      ensures err.Some? ==> err == Some(CartNotFound) && carts == old(carts) && items == old(items)
      ensures nextId == old(nextId)
      ensures err.None? ==>
        var x := old(items)[cartItemId];
        var c := old(carts)[x.cartId];
        var c' := c.(totalItems := c.totalItems - x.quantity, subtotalAmount := c.subtotalAmount - x.itemTotalPrice);
        && items == old(items) - {cartItemId}
        && carts == old(carts)[x.cartId := if c'.totalItems <= 0 then c'.(status := Abandoned) else c']
      ensures err.None? ==>
        var cid := old(items)[cartItemId].cartId;
        && TotalsAgree(carts[cid], ItemsIn(cid))
        && (carts[cid].status == Abandoned <==> ItemsIn(cid) == [] || old(carts)[cid].status == Abandoned)
    {
      if cartItemId !in items || items[cartItemId].orgId != orgId {
        return Some(CartNotFound);
      }
      var x := items[cartItemId];
      if x.cartId !in carts || carts[x.cartId].orgId != orgId {
        return Some(CartNotFound);
      }
      var cid := x.cartId;
      var c := carts[cid];
      var c' := c.(totalItems := c.totalItems - x.quantity, subtotalAmount := c.subtotalAmount - x.itemTotalPrice);
      DeleteItemTotals(carts, items, nextId, cartItemId);
      // The cart is written once with the new totals and, if it is now
      // empty, written again as ABANDONED; only the last write is kept.
      var cart := if c'.totalItems <= 0 then c'.(status := Abandoned) else c';
      DeleteItemInvariant(carts, items, nextId, cartItemId, cart);
      items := items - {cartItemId};
      carts := carts[cid := cart];
      assert x == old(items)[cartItemId] && c == old(carts)[x.cartId];
      err := None;
    }

    /** clearCart: InvalidActor without a usable id, CartNotFound without a
        cart; otherwise every item of the cart is deleted and the cart becomes
        CLEARED with zero totals. */
    method ClearCart(orgId: string, userId: Option<string>, guestId: Option<string>) returns (err: Option<Failure>)
      requires Valid()
      modifies this
      ensures Valid()
      ensures nextId == old(nextId)
      ensures err.Some? ==> carts == old(carts) && items == old(items)
      ensures err == Some(InvalidActor) <==> ResolveActor(userId, guestId).None?
      ensures err == Some(CartNotFound) <==>
        ResolveActor(userId, guestId).Some? && old(Lookup(orgId, ResolveActor(userId, guestId).value)).None?
      ensures err.Some? ==> err == Some(InvalidActor) || err == Some(CartNotFound)
      ensures err.None? <==>
        ResolveActor(userId, guestId).Some? && old(Lookup(orgId, ResolveActor(userId, guestId).value)).Some?
      ensures err.None? ==>
        var cid := old(Lookup(orgId, ResolveActor(userId, guestId).value)).value;
        && items == WithoutCart(old(items), cid)
        && carts == old(carts)[cid := old(carts)[cid].(status := Cleared, totalItems := 0, subtotalAmount := 0)]
        && ItemsIn(cid) == []
    {
      var actor := ResolveActor(userId, guestId);
      if actor.None? {
        return Some(InvalidActor);
      }
      var found := Lookup(orgId, actor.value);
      if found.None? {
        return Some(CartNotFound);
      }
      var cid := found.value;
      var toDelete := ItemsIn(cid);
      ghost var items0 := items;
      DeleteItems(toDelete);
      DeleteQueried(carts, items0, nextId, cid);
      var cart := carts[cid].(status := Cleared, totalItems := 0, subtotalAmount := 0);
      ClearKeepsInvariant(carts, items0, nextId, cid, cart);
      carts := carts[cid := cart];
      err := None;
    }
  
    /** The transaction.delete loop: each listed item's document is deleted. */
    method DeleteItems(doomed: seq<CartItem>)
      modifies this
      ensures items == old(items) - IdsOf(doomed)
      ensures carts == old(carts) && nextId == old(nextId)
    {
      for i := 0 to |doomed|
        invariant items == old(items) - IdsOf(doomed[..i])
        invariant carts == old(carts) && nextId == old(nextId)
      {
        assert IdsOf(doomed[..i + 1]) == IdsOf(doomed[..i]) + {doomed[i].cartItemId} by {
          assert doomed[..i + 1] == doomed[..i] + [doomed[i]];
        }
        items := items - {doomed[i].cartItemId};
      }
      assert doomed[..|doomed|] == doomed;
    }
  }
}
