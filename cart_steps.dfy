/** What each single write of the cart service does to the repository queries
    and to the store invariant, stated on the collections before the write.
    The methods of CartEngine call these lemmas in place of reasoning about
    their own fields. */
module CartSteps {
  import opened Wrappers
  import opened CartModel

  /** Raising the id counter changes no query and keeps the invariant. */
  lemma InvariantBump(carts: map<Id, Cart>, items: map<Id, CartItem>, n: nat, n2: nat)
    requires StoreInvariant(carts, items, n) && n <= n2
    ensures StoreInvariant(carts, items, n2)
    ensures forall c :: ItemsOf(items, n2, c) == ItemsOf(items, n, c)
  {
    forall c ensures ItemsOf(items, n2, c) == ItemsOf(items, n, c) {
      ItemsOfBeyond(items, n, n2, c);
    }
    InvariantAfterRewrite(carts, items, n, carts, items, n2, {});
  }

  /** Taking the next id for a new cart keeps the invariant; no item
      belongs to that id. */
  lemma ReserveCartId(carts: map<Id, Cart>, items: map<Id, CartItem>, n: nat)
    requires StoreInvariant(carts, items, n)
    ensures StoreInvariant(carts, items, n + 1)
    ensures ItemsOf(items, n, n) == [] && ItemsOf(items, n + 1, n) == []
  {
    NoItemsYet(carts, items, n);
    InvariantBump(carts, items, n, n + 1);
  }

  /** The line findFirst picks out of a cart's query is the stored item of
      that cart and product. */
  lemma FoundLine(carts: map<Id, Cart>, items: map<Id, CartItem>, n: nat, cid: Id, p: string)
    requires StoreInvariant(carts, items, n)
    requires FirstWithProduct(ItemsOf(items, n, cid), p).Some?
    ensures var x := FirstWithProduct(ItemsOf(items, n, cid), p).value;
      x.cartItemId in items && items[x.cartItemId] == x && x.cartId == cid && x.productId == p
  {
    InvariantWellKeyed(carts, items, n);
    ItemsOfMembers(items, n, cid);
  }

  /** No stored item of cart cid has product p when findFirst finds none. */
  lemma NoLine(carts: map<Id, Cart>, items: map<Id, CartItem>, n: nat, cid: Id, p: string)
    requires StoreInvariant(carts, items, n)
    requires FirstWithProduct(ItemsOf(items, n, cid), p).None?
    ensures forall j :: j in items ==> !(items[j].cartId == cid && items[j].productId == p)
  {
    InvariantWellKeyed(carts, items, n);
    ItemsOfMembers(items, n, cid);
    forall j | j in items && items[j].cartId == cid ensures items[j].productId != p {
      assert items[j] in ItemsOf(items, n, cid);
    }
  }

  /** Overwriting item k of a cart changes the cart's sums by the new item's
      quantity and total in place of the old one's. */
  lemma ReplaceLineTotals(items: map<Id, CartItem>, n: nat, k: Id, y: CartItem)
    requires k in items && k < n && y.cartId == items[k].cartId
    ensures TotalQuantity(ItemsOf(items[k := y], n, y.cartId)) == TotalQuantity(ItemsOf(items - {k}, n, y.cartId)) + y.quantity
    ensures TotalPrice(ItemsOf(items[k := y], n, y.cartId)) == TotalPrice(ItemsOf(items - {k}, n, y.cartId)) + y.itemTotalPrice
  {
    assert items[k := y] - {k} == items - {k};
    TotalsAfterDelete(items[k := y], n, y.cartId, k);
  }

  /** Overwriting item k with a valid item of the same cart and product, and
      storing its cart with totals that agree with the query, keeps the
      invariant. */
  lemma ReplaceLineInvariant(carts: map<Id, Cart>, items: map<Id, CartItem>, n: nat, k: Id, y: CartItem, cart: Cart)
    requires StoreInvariant(carts, items, n) && k in items
    requires y.cartItemId == k && y.cartId == items[k].cartId && y.productId == items[k].productId
    requires y.quantity >= 1 && y.itemTotalPrice == LineTotal(y.priceAtAddToCart, y.quantity)
    requires cart.cartId == y.cartId && TotalsAgree(cart, ItemsOf(items[k := y], n, y.cartId))
    ensures StoreInvariant(carts[y.cartId := cart], items[k := y], n)
  {
    var cid := y.cartId;
    ChangedBySet(items, k, y, {cid});
    OneLineAfterSet(items, k, y);
    InvariantAfterRewrite(carts, items, n, carts[cid := cart], items[k := y], n, {cid});
  }

  /** Storing a valid new item under the next id, in a cart that has no line
      of its product, and storing the cart with the new sums keeps the
      invariant; the new item is appended to the cart's query. */
  lemma AppendLine(carts: map<Id, Cart>, items: map<Id, CartItem>, n: nat, y: CartItem, cart: Cart)
    requires StoreInvariant(carts, items, n) && y.cartId < n
    requires forall j :: j in items ==> !(items[j].cartId == y.cartId && items[j].productId == y.productId)
    requires ItemOk(n + 1, n, y)
    requires cart.cartId == y.cartId && TotalsAgree(cart, ItemsOf(items, n, y.cartId) + [y])
    ensures ItemsOf(items[n := y], n + 1, y.cartId) == ItemsOf(items, n, y.cartId) + [y]
    ensures StoreInvariant(carts[y.cartId := cart], items[n := y], n + 1)
  {
    var cid := y.cartId;
    ItemsOfFresh(items, n, cid, y);
    ChangedBySet(items, n, y, {cid});
    OneLineAfterFresh(items, n, y);
    InvariantAfterRewrite(carts, items, n, carts[cid := cart], items[n := y], n + 1, {cid});
  }

  /** Adding to a product the cart already holds: the recalculation list
      (the other lines plus the updated one) has the sums of the stored lines
      afterwards, the invariant holds, and the basket is the old one merged
      with a one-line basket of the requested quantity. */
  lemma AddToLine(carts: map<Id, Cart>, items: map<Id, CartItem>, n: nat, k: Id, x: CartItem, y: CartItem, cart: Cart, q: int, l: Line)
    requires StoreInvariant(carts, items, n) && k in items && items[k] == x
    requires y == x.(quantity := x.quantity + q, itemTotalPrice := LineTotal(x.priceAtAddToCart, x.quantity + q))
    requires l.quantity == q && q >= 1
    requires var s := WithoutProduct(ItemsOf(items, n, y.cartId), y.productId) + [y];
      cart.cartId == y.cartId && cart.totalItems == TotalQuantity(s) && cart.subtotalAmount == TotalPrice(s)
    ensures TotalsAgree(cart, ItemsOf(items[k := y], n, y.cartId))
    ensures StoreInvariant(carts[y.cartId := cart], items[k := y], n)
    ensures Basket(ItemsOf(items[k := y], n, y.cartId)) ==
      MergeBaskets(Basket(ItemsOf(items, n, y.cartId)), map[y.productId := l])
  {
    assert ItemOk(n, k, x);
    GrownLineOk(n, k, x, y, q);
    InvariantWellKeyed(carts, items, n);
    AddToLineTotals(carts, items, n, k, y);
    ReplaceLineInvariant(carts, items, n, k, y, cart);
    AddToLineBasket(items, n, k, y, l);
  }

  /** A well-formed line grown by a positive quantity and re-totalled is
      well formed, under the same id, cart and product. */
  lemma GrownLineOk(n: nat, k: Id, x: CartItem, y: CartItem, q: int)
    requires ItemOk(n, k, x) && q >= 1
    requires y == x.(quantity := x.quantity + q, itemTotalPrice := LineTotal(x.priceAtAddToCart, x.quantity + q))
    ensures && y.cartItemId == k && y.cartId == x.cartId && y.productId == x.productId
            && ItemOk(n, k, y)
  {
  }

  lemma AddToLineBasket(items: map<Id, CartItem>, n: nat, k: Id, y: CartItem, l: Line)
    requires WellKeyed(items) && OneLinePerProduct(items)
    requires forall j :: j in items ==> j < n
    requires k in items
    requires var x := items[k];
      y == x.(quantity := x.quantity + l.quantity, itemTotalPrice := LineTotal(x.priceAtAddToCart, x.quantity + l.quantity))
    ensures Basket(ItemsOf(items[k := y], n, y.cartId)) ==
      MergeBaskets(Basket(ItemsOf(items, n, y.cartId)), map[y.productId := l])
  {
    var x := items[k];
    BasketOfItemsSet(items, n, y.cartId, k, y);
    MergeOneLine(items, n, y.cartId, l, x);
    assert LineOf(y) == Combine(LineOf(x), l);
  }

  lemma AddToLineTotals(carts: map<Id, Cart>, items: map<Id, CartItem>, n: nat, k: Id, y: CartItem)
    requires StoreInvariant(carts, items, n) && k in items
    requires y.cartId == items[k].cartId && y.productId == items[k].productId
    ensures var s := WithoutProduct(ItemsOf(items, n, y.cartId), y.productId) + [y];
      && TotalQuantity(ItemsOf(items[k := y], n, y.cartId)) == TotalQuantity(s)
      && TotalPrice(ItemsOf(items[k := y], n, y.cartId)) == TotalPrice(s)
  {
    var cid, p := y.cartId, y.productId;
    DropProductOne(items, cid, p, k);
    WithoutProductOfItems(items, n, cid, p);
    TotalsOfSnoc(ItemsOf(items - {k}, n, cid), y);
    ReplaceLineTotals(items, n, k, y);
  }

  /** Merging a one-line basket for a product the cart holds in line x
      combines that line, as the merge and the add do. */
  lemma MergeOneLine(items: map<Id, CartItem>, n: nat, cid: Id, l: Line, x: CartItem)
    requires WellKeyed(items) && OneLinePerProduct(items)
    requires x.cartItemId in items && items[x.cartItemId] == x && x.cartId == cid
    requires forall k :: k in items ==> k < n
    ensures var b := Basket(ItemsOf(items, n, cid));
      x.productId in b && b[x.productId] == LineOf(x) &&
      MergeBaskets(b, map[x.productId := l]) == b[x.productId := Combine(LineOf(x), l)]
  {
    var s := ItemsOf(items, n, cid);
    ItemsOfMembers(items, n, cid);
    ItemsOfDistinctProducts(items, n, cid);
    assert x in s;
    var i :| 0 <= i < |s| && s[i] == x;
    BasketAt(s, i);
    MergeBasketsStep(Basket(s), map[], x.productId, l);
    MergeWithNothing(Basket(s));
  }

  /** Adding a product the cart does not hold: the recalculation list is the
      stored query plus the new line, and the basket gains the requested line. */
  lemma AddNewLine(carts: map<Id, Cart>, items: map<Id, CartItem>, n: nat, y: CartItem, cart: Cart)
    requires StoreInvariant(carts, items, n) && y.cartId < n
    requires forall j :: j in items ==> !(items[j].cartId == y.cartId && items[j].productId == y.productId)
    requires ItemOk(n + 1, n, y)
    requires var s := WithoutProduct(ItemsOf(items, n + 1, y.cartId), y.productId) + [y];
      cart.cartId == y.cartId && cart.totalItems == TotalQuantity(s) && cart.subtotalAmount == TotalPrice(s)
    ensures TotalsAgree(cart, ItemsOf(items[n := y], n + 1, y.cartId))
    ensures StoreInvariant(carts[y.cartId := cart], items[n := y], n + 1)
    ensures Basket(ItemsOf(items[n := y], n + 1, y.cartId)) ==
      MergeBaskets(Basket(ItemsOf(items, n, y.cartId)), map[y.productId := LineOf(y)])
  {
    var cid, p := y.cartId, y.productId;
    var s := ItemsOf(items, n, cid);
    InvariantWellKeyed(carts, items, n);
    NoLineInQuery(items, n, cid, p);
    ItemsOfBeyond(items, n, n + 1, cid);
    DropProductNone(items, cid, p);
    WithoutProductOfItems(items, n + 1, cid, p);
    AppendLine(carts, items, n, y, cart);
    BasketSnoc(s, y);
    BasketKeys(s);
    MergeBasketsStep(Basket(s), map[], p, LineOf(y));
    MergeWithNothing(Basket(s));
  }

  /** No entry of cart c's query has product p when no stored item of c has it. */
  lemma NoLineInQuery(items: map<Id, CartItem>, n: nat, c: Id, p: string)
    requires WellKeyed(items)
    requires forall j :: j in items ==> !(items[j].cartId == c && items[j].productId == p)
    ensures forall x :: x in ItemsOf(items, n, c) ==> x.productId != p
  {
    ItemsOfMembers(items, n, c);
  }

  /** Setting a line's quantity: the recalculation list (the other lines plus
      the updated one) has the sums of the stored lines afterwards, the
      invariant holds, and only that product's line of the basket changes. */
  lemma SetLineQuantity(carts: map<Id, Cart>, items: map<Id, CartItem>, n: nat, k: Id, y: CartItem, cart: Cart)
    requires StoreInvariant(carts, items, n) && k in items
    requires var x := items[k];
      y == x.(quantity := y.quantity, itemTotalPrice := LineTotal(x.priceAtAddToCart, y.quantity))
    requires y.quantity >= 1
    requires var s := WithoutItem(ItemsOf(items, n, y.cartId), k) + [y];
      cart.cartId == y.cartId && cart.totalItems == TotalQuantity(s) && cart.subtotalAmount == TotalPrice(s)
    ensures TotalsAgree(cart, ItemsOf(items[k := y], n, y.cartId))
    ensures StoreInvariant(carts[y.cartId := cart], items[k := y], n)
    ensures Basket(ItemsOf(items[k := y], n, y.cartId)) == Basket(ItemsOf(items, n, y.cartId))[y.productId := LineOf(y)]
  {
    var cid := y.cartId;
    assert ItemOk(n, k, items[k]);
    InvariantWellKeyed(carts, items, n);
    WithoutItemOfItems(items, n, cid, k);
    TotalsOfSnoc(ItemsOf(items - {k}, n, cid), y);
    ReplaceLineTotals(items, n, k, y);
    ReplaceLineInvariant(carts, items, n, k, y, cart);
    BasketOfItemsSet(items, n, cid, k, y);
  }

  // ---- addItemToCart ----

  /** What one addItemToCart transaction writes: its cart with the
      recalculated totals, the grown or new line, and the id counter after the
      fresh ids it took. */
  datatype AddOutcome = AddOutcome(cart: Cart, item: CartItem, next: nat)

  /** The transaction body of addItemToCart on the collections as they are
      when it starts, once the product (name and price) is known and the
      request resolved to actor a. The owner's cart is used, or a new ACTIVE
      cart under the next id holding the request's ids; the product's line in
      it grows by the requested quantity at its snapshot price, or a new line
      is made at the current price; the cart's totals are recomputed from the
      other lines plus this one. */
  function AddToCart(carts: map<Id, Cart>, items: map<Id, CartItem>, n: nat, activeOnly: bool,
                     orgId: string, req: AddRequest, a: Actor, name: string, mrp: int): (o: AddOutcome)
    ensures n <= o.next <= n + 2
  {
    var found := FindCart(carts, n, orgId, a, activeOnly);
    var cart := if found.Some? then carts[found.value] else Cart(n, orgId, req.userId, req.guestId, Active, 0, 0);
    var n1 := if found.Some? then n else n + 1;
    AddInCart(items, n1, cart, orgId, req, name, mrp)
  }

  /** The line half of the transaction, in the cart it settled on, with ids
      from n1 on still free: at most one fresh id is taken. */
  function AddInCart(items: map<Id, CartItem>, n1: nat, cart: Cart,
                     orgId: string, req: AddRequest, name: string, mrp: int): (o: AddOutcome)
    ensures n1 <= o.next <= n1 + 1
    ensures o.cart.cartId == cart.cartId
  {
    var cid := cart.cartId;
    var existing := FirstWithProduct(ItemsOf(items, n1, cid), req.productId);
    var item :=
      if existing.Some? then
        var x := existing.value;
        x.(quantity := x.quantity + req.quantity, itemTotalPrice := LineTotal(x.priceAtAddToCart, x.quantity + req.quantity))
      else CartItem(n1, orgId, cid, req.productId, name, mrp, req.quantity, LineTotal(mrp, req.quantity));
    var n2 := if existing.Some? then n1 else n1 + 1;
    var forTotals := WithoutProduct(ItemsOf(items, n2, cid), req.productId) + [item];
    AddOutcome(cart.(totalItems := TotalQuantity(forTotals), subtotalAmount := TotalPrice(forTotals)), item, n2)
  }

  /** The collections after the two writes of the transaction. */
  function AddedCarts(carts: map<Id, Cart>, o: AddOutcome): map<Id, Cart> {
    carts[o.cart.cartId := o.cart]
  }

  function AddedItems(items: map<Id, CartItem>, o: AddOutcome): map<Id, CartItem> {
    items[o.item.cartItemId := o.item]
  }

  /** addItemToCart keeps the store invariant, and the cart it writes has the
      totals of its items afterwards. */
  lemma AddToCartKeepsInvariant(carts: map<Id, Cart>, items: map<Id, CartItem>, n: nat, activeOnly: bool,
                                orgId: string, req: AddRequest, a: Actor, name: string, mrp: int)
    requires StoreInvariant(carts, items, n) && req.quantity >= 1
    ensures var o := AddToCart(carts, items, n, activeOnly, orgId, req, a, name, mrp);
      && StoreInvariant(AddedCarts(carts, o), AddedItems(items, o), o.next)
      && TotalsAgree(o.cart, ItemsOf(AddedItems(items, o), o.next, o.cart.cartId))
  {
    AddToCartCases(carts, items, n, activeOnly, orgId, req, a, name, mrp);
  }

  /** The basket of the cart addItemToCart writes is its basket before merged
      with a single line: the requested quantity of the product at its current
      price. */
  lemma AddToCartBasket(carts: map<Id, Cart>, items: map<Id, CartItem>, n: nat, activeOnly: bool,
                        orgId: string, req: AddRequest, a: Actor, name: string, mrp: int)
    requires StoreInvariant(carts, items, n) && req.quantity >= 1
    ensures var o := AddToCart(carts, items, n, activeOnly, orgId, req, a, name, mrp);
      Basket(ItemsOf(AddedItems(items, o), o.next, o.cart.cartId)) ==
        MergeBaskets(Basket(ItemsOf(items, n, o.cart.cartId)),
                     map[req.productId := Line(name, mrp, req.quantity, LineTotal(mrp, req.quantity))])
  {
    AddToCartCases(carts, items, n, activeOnly, orgId, req, a, name, mrp);
  }

  /** The three paths of the transaction, each by the lemma for its write. */
  lemma AddToCartCases(carts: map<Id, Cart>, items: map<Id, CartItem>, n: nat, activeOnly: bool,
                       orgId: string, req: AddRequest, a: Actor, name: string, mrp: int)
    requires StoreInvariant(carts, items, n) && req.quantity >= 1
    ensures AddWrites(carts, items, n, req, name, mrp, AddToCart(carts, items, n, activeOnly, orgId, req, a, name, mrp))
  {
    var found := FindCart(carts, n, orgId, a, activeOnly);
    if found.Some? {
      FoundCartCases(carts, items, n, activeOnly, orgId, req, a, name, mrp, found.value);
    } else {
      ReserveCartId(carts, items, n);
      NewCartOutcome(carts, items, n, activeOnly, orgId, req, a, name, mrp);
      AddCaseNewCart(carts, items, n, orgId, req, name, mrp, AddToCart(carts, items, n, activeOnly, orgId, req, a, name, mrp));
    }
  }

  /** AddToCartCases when the owner already has cart cid. */
  lemma FoundCartCases(carts: map<Id, Cart>, items: map<Id, CartItem>, n: nat, activeOnly: bool,
                       orgId: string, req: AddRequest, a: Actor, name: string, mrp: int, cid: Id)
    requires StoreInvariant(carts, items, n) && req.quantity >= 1
    requires FindCart(carts, n, orgId, a, activeOnly) == Some(cid)
    ensures AddWrites(carts, items, n, req, name, mrp, AddToCart(carts, items, n, activeOnly, orgId, req, a, name, mrp))
  {
    var o := AddToCart(carts, items, n, activeOnly, orgId, req, a, name, mrp);
    assert carts[cid].cartId == cid;
    var existing := FirstWithProduct(ItemsOf(items, n, cid), req.productId);
    if existing.Some? {
      GrowOutcome(carts, items, n, activeOnly, orgId, req, a, name, mrp, cid, existing.value);
      AddCaseGrow(carts, items, n, orgId, req, name, mrp, cid, existing.value, o);
    } else {
      NewLineOutcome(carts, items, n, activeOnly, orgId, req, a, name, mrp, cid);
      AddCaseNewLine(carts, items, n, orgId, req, name, mrp, cid, o);
    }
  }

  /** The two writes of outcome o keep the invariant, leave the written cart
      with the totals of its items, and merge the requested line into its
      basket. */
  ghost predicate AddWrites(carts: map<Id, Cart>, items: map<Id, CartItem>, n: nat,
                            req: AddRequest, name: string, mrp: int, o: AddOutcome) {
    && StoreInvariant(AddedCarts(carts, o), AddedItems(items, o), o.next)
    && TotalsAgree(o.cart, ItemsOf(AddedItems(items, o), o.next, o.cart.cartId))
    && Basket(ItemsOf(AddedItems(items, o), o.next, o.cart.cartId)) ==
         MergeBaskets(Basket(ItemsOf(items, n, o.cart.cartId)),
                      map[req.productId := Line(name, mrp, req.quantity, LineTotal(mrp, req.quantity))])
  }

  /** AddWrites of the outcome that writes cart and y and moves the counter to next. */
  lemma WritesOf(carts: map<Id, Cart>, items: map<Id, CartItem>, n: nat,
                 req: AddRequest, name: string, mrp: int, o: AddOutcome, cart: Cart, y: CartItem, next: nat)
    requires o == AddOutcome(cart, y, next) && cart.cartId == y.cartId
    requires StoreInvariant(carts[y.cartId := cart], items[y.cartItemId := y], next)
    requires TotalsAgree(cart, ItemsOf(items[y.cartItemId := y], next, y.cartId))
    requires Basket(ItemsOf(items[y.cartItemId := y], next, y.cartId)) ==
      MergeBaskets(Basket(ItemsOf(items, n, y.cartId)),
                   map[req.productId := Line(name, mrp, req.quantity, LineTotal(mrp, req.quantity))])
    ensures AddWrites(carts, items, n, req, name, mrp, o)
  {
  }

  /** The owner's cart cid holds line x of the product: it grows in place. */
  lemma AddCaseGrow(carts: map<Id, Cart>, items: map<Id, CartItem>, n: nat,
                    orgId: string, req: AddRequest, name: string, mrp: int, cid: Id, x: CartItem, o: AddOutcome)
    requires StoreInvariant(carts, items, n) && req.quantity >= 1
    requires cid in carts && carts[cid].cartId == cid
    requires FirstWithProduct(ItemsOf(items, n, cid), req.productId) == Some(x)
    requires var y := x.(quantity := x.quantity + req.quantity, itemTotalPrice := LineTotal(x.priceAtAddToCart, x.quantity + req.quantity));
      var s := WithoutProduct(ItemsOf(items, n, cid), req.productId) + [y];
      o == AddOutcome(carts[cid].(totalItems := TotalQuantity(s), subtotalAmount := TotalPrice(s)), y, n)
    ensures AddWrites(carts, items, n, req, name, mrp, o)
  {
    FoundLine(carts, items, n, cid, req.productId);
    var y := x.(quantity := x.quantity + req.quantity, itemTotalPrice := LineTotal(x.priceAtAddToCart, x.quantity + req.quantity));
    var s := WithoutProduct(ItemsOf(items, n, cid), req.productId) + [y];
    var cart := carts[cid].(totalItems := TotalQuantity(s), subtotalAmount := TotalPrice(s));
    GrowWrites(carts, items, n, req, name, mrp, cid, x, y, cart, o);
  }

  /** AddCaseGrow once the found line x is known to be the stored line. */
  lemma GrowWrites(carts: map<Id, Cart>, items: map<Id, CartItem>, n: nat, req: AddRequest, name: string, mrp: int,
                   cid: Id, x: CartItem, y: CartItem, cart: Cart, o: AddOutcome)
    requires StoreInvariant(carts, items, n) && req.quantity >= 1
    requires x.cartItemId in items && items[x.cartItemId] == x && x.cartId == cid && x.productId == req.productId
    requires y == x.(quantity := x.quantity + req.quantity, itemTotalPrice := LineTotal(x.priceAtAddToCart, x.quantity + req.quantity))
    requires var s := WithoutProduct(ItemsOf(items, n, cid), req.productId) + [y];
      cart == carts[cid].(totalItems := TotalQuantity(s), subtotalAmount := TotalPrice(s))
    requires cid in carts && carts[cid].cartId == cid && o == AddOutcome(cart, y, n)
    ensures AddWrites(carts, items, n, req, name, mrp, o)
  {
    AddToLine(carts, items, n, x.cartItemId, x, y, cart, req.quantity, Line(name, mrp, req.quantity, LineTotal(mrp, req.quantity)));
    WritesOf(carts, items, n, req, name, mrp, o, cart, y, n);
  }

  /** The outcome of the add when the owner's cart cid holds line x of the product. */
  lemma GrowOutcome(carts: map<Id, Cart>, items: map<Id, CartItem>, n: nat, activeOnly: bool,
                    orgId: string, req: AddRequest, a: Actor, name: string, mrp: int, cid: Id, x: CartItem)
    requires FindCart(carts, n, orgId, a, activeOnly) == Some(cid) && carts[cid].cartId == cid
    requires FirstWithProduct(ItemsOf(items, n, cid), req.productId) == Some(x)
    ensures var y := x.(quantity := x.quantity + req.quantity, itemTotalPrice := LineTotal(x.priceAtAddToCart, x.quantity + req.quantity));
      var s := WithoutProduct(ItemsOf(items, n, cid), req.productId) + [y];
      AddToCart(carts, items, n, activeOnly, orgId, req, a, name, mrp) ==
        AddOutcome(carts[cid].(totalItems := TotalQuantity(s), subtotalAmount := TotalPrice(s)), y, n)
  {
  }

  /** The owner's cart cid has no line of the product: one is appended under id n. */
  lemma AddCaseNewLine(carts: map<Id, Cart>, items: map<Id, CartItem>, n: nat,
                       orgId: string, req: AddRequest, name: string, mrp: int, cid: Id, o: AddOutcome)
    requires StoreInvariant(carts, items, n) && req.quantity >= 1
    requires cid < n && cid in carts && carts[cid].cartId == cid
    requires FirstWithProduct(ItemsOf(items, n, cid), req.productId).None?
    requires var y := CartItem(n, orgId, cid, req.productId, name, mrp, req.quantity, LineTotal(mrp, req.quantity));
      var s := WithoutProduct(ItemsOf(items, n + 1, cid), req.productId) + [y];
      o == AddOutcome(carts[cid].(totalItems := TotalQuantity(s), subtotalAmount := TotalPrice(s)), y, n + 1)
    ensures AddWrites(carts, items, n, req, name, mrp, o)
  {
    NoLine(carts, items, n, cid, req.productId);
    var y := CartItem(n, orgId, cid, req.productId, name, mrp, req.quantity, LineTotal(mrp, req.quantity));
    var s := WithoutProduct(ItemsOf(items, n + 1, cid), req.productId) + [y];
    var cart := carts[cid].(totalItems := TotalQuantity(s), subtotalAmount := TotalPrice(s));
    NewLineWrites(carts, items, n, orgId, req, name, mrp, cid, y, cart, o);
  }

  /** AddCaseNewLine once the cart is known to hold no line of the product. */
  lemma NewLineWrites(carts: map<Id, Cart>, items: map<Id, CartItem>, n: nat, orgId: string, req: AddRequest,
                      name: string, mrp: int, cid: Id, y: CartItem, cart: Cart, o: AddOutcome)
    requires StoreInvariant(carts, items, n) && req.quantity >= 1 && cid < n
    requires cid in carts && carts[cid].cartId == cid
    requires forall j :: j in items ==> !(items[j].cartId == cid && items[j].productId == req.productId)
    requires y == CartItem(n, orgId, cid, req.productId, name, mrp, req.quantity, LineTotal(mrp, req.quantity))
    requires var s := WithoutProduct(ItemsOf(items, n + 1, cid), req.productId) + [y];
      cart == carts[cid].(totalItems := TotalQuantity(s), subtotalAmount := TotalPrice(s))
    requires o == AddOutcome(cart, y, n + 1)
    ensures AddWrites(carts, items, n, req, name, mrp, o)
  {
    AddNewLine(carts, items, n, y, cart);
    WritesOf(carts, items, n, req, name, mrp, o, cart, y, n + 1);
  }

  /** The outcome of the add when the owner's cart cid has no line of the product. */
  lemma NewLineOutcome(carts: map<Id, Cart>, items: map<Id, CartItem>, n: nat, activeOnly: bool,
                       orgId: string, req: AddRequest, a: Actor, name: string, mrp: int, cid: Id)
    requires FindCart(carts, n, orgId, a, activeOnly) == Some(cid) && carts[cid].cartId == cid
    requires FirstWithProduct(ItemsOf(items, n, cid), req.productId).None?
    ensures var y := CartItem(n, orgId, cid, req.productId, name, mrp, req.quantity, LineTotal(mrp, req.quantity));
      var s := WithoutProduct(ItemsOf(items, n + 1, cid), req.productId) + [y];
      AddToCart(carts, items, n, activeOnly, orgId, req, a, name, mrp) ==
        AddOutcome(carts[cid].(totalItems := TotalQuantity(s), subtotalAmount := TotalPrice(s)), y, n + 1)
  {
  }

  /** The owner has no cart: a new one under id n gets a line under id n + 1. */
  lemma AddCaseNewCart(carts: map<Id, Cart>, items: map<Id, CartItem>, n: nat,
                       orgId: string, req: AddRequest, name: string, mrp: int, o: AddOutcome)
    requires StoreInvariant(carts, items, n + 1) && req.quantity >= 1
    requires ItemsOf(items, n, n) == [] && ItemsOf(items, n + 1, n) == []
    requires var y := CartItem(n + 1, orgId, n, req.productId, name, mrp, req.quantity, LineTotal(mrp, req.quantity));
      var s := WithoutProduct(ItemsOf(items, n + 2, n), req.productId) + [y];
      o == AddOutcome(Cart(n, orgId, req.userId, req.guestId, Active, TotalQuantity(s), TotalPrice(s)), y, n + 2)
    ensures AddWrites(carts, items, n, req, name, mrp, o)
  {
    var y := CartItem(n + 1, orgId, n, req.productId, name, mrp, req.quantity, LineTotal(mrp, req.quantity));
    var s := WithoutProduct(ItemsOf(items, n + 2, n), req.productId) + [y];
    var cart := Cart(n, orgId, req.userId, req.guestId, Active, TotalQuantity(s), TotalPrice(s));
    NoLine(carts, items, n + 1, n, req.productId);
    AddNewLine(carts, items, n + 1, y, cart);
    WritesOf(carts, items, n, req, name, mrp, o, cart, y, n + 2);
  }

  /** The outcome of the add when the owner has no cart: the cart takes id n
      and the line id n + 1. */
  lemma NewCartOutcome(carts: map<Id, Cart>, items: map<Id, CartItem>, n: nat, activeOnly: bool,
                       orgId: string, req: AddRequest, a: Actor, name: string, mrp: int)
    requires FindCart(carts, n, orgId, a, activeOnly).None?
    requires ItemsOf(items, n + 1, n) == []
    ensures var y := CartItem(n + 1, orgId, n, req.productId, name, mrp, req.quantity, LineTotal(mrp, req.quantity));
      var s := WithoutProduct(ItemsOf(items, n + 2, n), req.productId) + [y];
      AddToCart(carts, items, n, activeOnly, orgId, req, a, name, mrp) ==
        AddOutcome(Cart(n, orgId, req.userId, req.guestId, Active, TotalQuantity(s), TotalPrice(s)), y, n + 2)
  {
  }

  /** addItemToCart writes the owner's cart when there is one, and otherwise a
      new ACTIVE cart under the next id holding the request's ids; either way
      the owner lookup afterwards finds the written cart. */
  lemma AddToCartFindsCart(carts: map<Id, Cart>, items: map<Id, CartItem>, n: nat, activeOnly: bool,
                           orgId: string, req: AddRequest, a: Actor, name: string, mrp: int)
    requires StoreInvariant(carts, items, n) && ResolveActor(req.userId, req.guestId) == Some(a)
    ensures var o := AddToCart(carts, items, n, activeOnly, orgId, req, a, name, mrp);
      var found := FindCart(carts, n, orgId, a, activeOnly);
      && (found.Some? ==>
            && o.cart.cartId == found.value
            && o.cart.(totalItems := 0, subtotalAmount := 0) == carts[found.value].(totalItems := 0, subtotalAmount := 0))
      && (found.None? ==>
            o.cart == Cart(n, orgId, req.userId, req.guestId, Active, o.cart.totalItems, o.cart.subtotalAmount))
      && FindCart(AddedCarts(carts, o), o.next, orgId, a, activeOnly) == Some(o.cart.cartId)
  {
    var o := AddToCart(carts, items, n, activeOnly, orgId, req, a, name, mrp);
    var found := FindCart(carts, n, orgId, a, activeOnly);
    if found.Some? {
      assert carts[found.value].cartId == found.value;
      FindSameCart(carts, n, o.next, orgId, a, activeOnly, found.value, o.cart);
    } else {
      assert o.cart.cartId == n && n < o.next;
      FindNewCart(carts, n, o.next, orgId, a, activeOnly, o.cart);
    }
  }

  /** The line addItemToCart writes: the cart's stored line of the product,
      grown by the requested quantity and re-totalled at its snapshot price,
      or, when the cart has none, a new document under a fresh id with the
      current name and price. */
  lemma AddToCartLine(carts: map<Id, Cart>, items: map<Id, CartItem>, n: nat, activeOnly: bool,
                      orgId: string, req: AddRequest, a: Actor, name: string, mrp: int)
    requires StoreInvariant(carts, items, n)
    ensures LineWritten(carts, items, n, orgId, req, name, mrp, AddToCart(carts, items, n, activeOnly, orgId, req, a, name, mrp))
  {
    var found := FindCart(carts, n, orgId, a, activeOnly);
    if found.Some? {
      FoundCartLine(carts, items, n, activeOnly, orgId, req, a, name, mrp, found.value);
    } else {
      NewCartLine(carts, items, n, activeOnly, orgId, req, a, name, mrp);
    }
  }

  /** AddToCartLine when the owner has no cart yet. */
  lemma NewCartLine(carts: map<Id, Cart>, items: map<Id, CartItem>, n: nat, activeOnly: bool,
                    orgId: string, req: AddRequest, a: Actor, name: string, mrp: int)
    requires StoreInvariant(carts, items, n)
    requires FindCart(carts, n, orgId, a, activeOnly).None?
    ensures LineWritten(carts, items, n, orgId, req, name, mrp, AddToCart(carts, items, n, activeOnly, orgId, req, a, name, mrp))
  {
    ReserveCartId(carts, items, n);
    NewCartOutcome(carts, items, n, activeOnly, orgId, req, a, name, mrp);
  }

  /** The line written by outcome o: the cart's stored line of the product
      grown by the requested quantity and re-totalled at its snapshot price,
      or, when the cart has none, a new document under a fresh id with the
      current name and price. */
  ghost predicate LineWritten(carts: map<Id, Cart>, items: map<Id, CartItem>, n: nat,
                              orgId: string, req: AddRequest, name: string, mrp: int, o: AddOutcome) {
    var line := FirstWithProduct(ItemsOf(items, n, o.cart.cartId), req.productId);
    && (line.Some? ==>
          var x := line.value;
          && o.next == n && x.cartItemId in items && items[x.cartItemId] == x
          && o.item == x.(quantity := x.quantity + req.quantity,
                          itemTotalPrice := LineTotal(x.priceAtAddToCart, x.quantity + req.quantity)))
    && (line.None? ==>
          && n <= o.item.cartItemId && o.item.cartItemId !in items && o.next == o.item.cartItemId + 1
          && o.item == CartItem(o.item.cartItemId, orgId, o.cart.cartId, req.productId, name,
                                mrp, req.quantity, LineTotal(mrp, req.quantity)))
  }

  /** AddToCartLine when the owner already has cart cid. */
  lemma FoundCartLine(carts: map<Id, Cart>, items: map<Id, CartItem>, n: nat, activeOnly: bool,
                      orgId: string, req: AddRequest, a: Actor, name: string, mrp: int, cid: Id)
    requires StoreInvariant(carts, items, n)
    requires FindCart(carts, n, orgId, a, activeOnly) == Some(cid)
    ensures LineWritten(carts, items, n, orgId, req, name, mrp, AddToCart(carts, items, n, activeOnly, orgId, req, a, name, mrp))
  {
    assert carts[cid].cartId == cid;
    InCartLine(carts, items, n, orgId, req, name, mrp, cid);
  }

  /** LineWritten for the line half run in the owner's stored cart cid. */
  lemma InCartLine(carts: map<Id, Cart>, items: map<Id, CartItem>, n: nat,
                   orgId: string, req: AddRequest, name: string, mrp: int, cid: Id)
    requires StoreInvariant(carts, items, n)
    requires cid in carts && carts[cid].cartId == cid
    ensures LineWritten(carts, items, n, orgId, req, name, mrp, AddInCart(items, n, carts[cid], orgId, req, name, mrp))
  {
    if FirstWithProduct(ItemsOf(items, n, cid), req.productId).Some? {
      FoundLine(carts, items, n, cid, req.productId);
    } else {
      assert n !in items by {
        InvariantWellKeyed(carts, items, n);
      }
    }
  }
}
