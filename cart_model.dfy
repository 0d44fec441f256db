/** The cart aggregate as values: carts and their line items, the repository
    queries the service issues against the two collections, the totals a cart
    caches, and the per-product view used to describe a guest-cart merge. */
module CartModel {
  import opened Wrappers
  import opened Text

  /** Document ids. UUID.randomUUID() becomes a counter in the store, so ids
      are naturals and a fresh id is larger than every id in use. */
  type Id = nat

  datatype Status = Active | Abandoned | Cleared | MergedToUserCart

  /** A cart document. Money is held in integer minor units (the source keeps
      it in a double). */
  datatype Cart = Cart(
    cartId: Id,
    orgId: string,
    userId: Option<string>,
    guestId: Option<string>,
    status: Status,
    totalItems: int,
    subtotalAmount: int)

  /** A cart-item document; `priceAtAddToCart` is the price snapshot taken when
      the product first entered the cart. */
  datatype CartItem = CartItem(
    cartItemId: Id,
    orgId: string,
    cartId: Id,
    productId: string,
    productName: string,
    priceAtAddToCart: int,
    quantity: int,
    itemTotalPrice: int)

  /** CartDto: the cart document together with the items the repository
      returned for it. */
  datatype CartView = CartView(cart: Cart, items: seq<CartItem>)

  /** AddItemRequest: the product, a quantity of at least one, and the ids
      that say whose cart it is. */
  datatype AddRequest = AddRequest(productId: string, quantity: int, userId: Option<string>, guestId: Option<string>)

  /** Who a request is for: a signed-in user or an anonymous guest. */
  datatype Actor = User(userId: string) | Guest(guestId: string)

  /** The exceptions the service raises, one constructor per kind. */
  datatype Failure =
    | InvalidActor                             // IllegalArgumentException: neither id given
    | ProductNotFound(productIds: seq<string>) // ProductNotFoundException
    | ServiceCommunication                     // ServiceCommunicationException
    | CartNotFound                             // CartNotFoundException
    | InsufficientStock                        // InsufficientStockException
    | EmptyCart                                // IllegalArgumentException: nothing to ship
    | NoPhysicalData                           // IllegalArgumentException: no weight, no volume
    | PincodeNotConfigured                     // IllegalArgumentException: no source pincode
    | NoDeliveryOptions                        // IllegalStateException: no quote to choose
    | DeliveryUnavailable                      // FeignException from the delivery service, propagated

  /** The `userId != null && !userId.isBlank()` / guestId cascade: a usable user
      id wins, a usable guest id comes next, otherwise there is no actor. */
  function ResolveActor(userId: Option<string>, guestId: Option<string>): (a: Option<Actor>)
    ensures a.None? <==> !HasText(userId) && !HasText(guestId)
    ensures a.Some? && a.value.User? ==> HasText(userId) && a.value.userId == userId.value
    ensures a.Some? && a.value.Guest? ==>
      !HasText(userId) && HasText(guestId) && a.value.guestId == guestId.value
  {
    if HasText(userId) then Some(User(userId.value))
    else if HasText(guestId) then Some(Guest(guestId.value))
    else None
  }

  /** What findByOrgIdAndUserId / findByOrgIdAndGuestId match. Whether those
      queries skip carts that are no longer ACTIVE is not visible in the
      service, so it is the parameter `activeOnly`. */
  predicate OwnedBy(c: Cart, orgId: string, a: Actor, activeOnly: bool) {
    && c.orgId == orgId
    && (activeOnly ==> c.status == Active)
    && match a
       case User(u) => c.userId == Some(u)
       case Guest(g) => c.guestId == Some(g)
  }

  /** The owner lookup over the ids below n: the first matching cart in id order. */
  function FindCart(carts: map<Id, Cart>, n: nat, orgId: string, a: Actor, activeOnly: bool): (r: Option<Id>)
    ensures r.Some? ==>
      && r.value < n && r.value in carts && OwnedBy(carts[r.value], orgId, a, activeOnly)
      && forall j :: j in carts && j < r.value ==> !OwnedBy(carts[j], orgId, a, activeOnly)
    ensures r.None? ==> forall j :: j in carts && j < n ==> !OwnedBy(carts[j], orgId, a, activeOnly)
  {
    if n == 0 then None
    else
      match FindCart(carts, n - 1, orgId, a, activeOnly)
      case Some(i) => Some(i)
      case None =>
        if n - 1 in carts && OwnedBy(carts[n - 1], orgId, a, activeOnly) then Some(n - 1) else None
  }

  /** The item of item id k when it belongs to cart c, as a sequence of length at most one. */
  function ItemAt(items: map<Id, CartItem>, k: Id, c: Id): seq<CartItem> {
    if k in items && items[k].cartId == c then [items[k]] else []
  }

  /** findByCartId: the items of cart c among the ids below n, in id order. */
  function ItemsOf(items: map<Id, CartItem>, n: nat, c: Id): seq<CartItem>
  {
    if n == 0 then [] else ItemsOf(items, n - 1, c) + ItemAt(items, n - 1, c)
  }

  /** Every stored item sits under its own id. */
  predicate WellKeyed(items: map<Id, CartItem>) {
    forall k :: k in items ==> items[k].cartItemId == k
  }

  /** Sum of `quantity` over a list of items (mapToInt(getQuantity).sum()). */
  function TotalQuantity(s: seq<CartItem>): int {
    if s == [] then 0 else s[0].quantity + TotalQuantity(s[1..])
  }

  /** Sum of `itemTotalPrice` over a list of items (mapToDouble(getItemTotalPrice).sum()). */
  function TotalPrice(s: seq<CartItem>): int {
    if s == [] then 0 else s[0].itemTotalPrice + TotalPrice(s[1..])
  }

  /** The items of s whose product is not p, in order. */
  function WithoutProduct(s: seq<CartItem>, p: string): seq<CartItem>
  {
    if s == [] then []
    else (if s[0].productId == p then [] else [s[0]]) + WithoutProduct(s[1..], p)
  }

  /** The items of s whose item id is not k, in order. */
  function WithoutItem(s: seq<CartItem>, k: Id): seq<CartItem>
  {
    if s == [] then []
    else (if s[0].cartItemId == k then [] else [s[0]]) + WithoutItem(s[1..], k)
  }

  /** A list's totals split over a concatenation. */
  lemma {:induction false} TotalsOfConcat(a: seq<CartItem>, b: seq<CartItem>)
    ensures TotalQuantity(a + b) == TotalQuantity(a) + TotalQuantity(b)
    ensures TotalPrice(a + b) == TotalPrice(a) + TotalPrice(b)
  {
    if a != [] {
      assert (a + b)[1..] == a[1..] + b;
      TotalsOfConcat(a[1..], b);
    } else {
      assert a + b == b;
    }
  }

  /** Totals of a list with one item added at the end. */
  lemma TotalsOfSnoc(a: seq<CartItem>, x: CartItem)
    ensures TotalQuantity(a + [x]) == TotalQuantity(a) + x.quantity
    ensures TotalPrice(a + [x]) == TotalPrice(a) + x.itemTotalPrice
  {
    TotalsOfConcat(a, [x]);
  }

  lemma {:induction false} WithoutProductOfConcat(a: seq<CartItem>, b: seq<CartItem>, p: string)
    ensures WithoutProduct(a + b, p) == WithoutProduct(a, p) + WithoutProduct(b, p)
  {
    if a != [] {
      assert (a + b)[1..] == a[1..] + b;
      WithoutProductOfConcat(a[1..], b, p);
    } else {
      assert a + b == b;
    }
  }

  lemma {:induction false} WithoutItemOfConcat(a: seq<CartItem>, b: seq<CartItem>, k: Id)
    ensures WithoutItem(a + b, k) == WithoutItem(a, k) + WithoutItem(b, k)
  {
    if a != [] {
      assert (a + b)[1..] == a[1..] + b;
      WithoutItemOfConcat(a[1..], b, k);
    } else {
      assert a + b == b;
    }
  }

  /** Two item maps that agree on which ids below n are items of cart c, and on
      those items, give the same query result. */
  predicate SameItemsBelow(items: map<Id, CartItem>, items2: map<Id, CartItem>, n: nat, c: Id) {
    forall k :: 0 <= k < n ==> ItemAt(items, k, c) == ItemAt(items2, k, c)
  }

  lemma {:induction false} ItemsOfFrame(items: map<Id, CartItem>, items2: map<Id, CartItem>, n: nat, c: Id)
    requires SameItemsBelow(items, items2, n, c)
    ensures ItemsOf(items, n, c) == ItemsOf(items2, n, c)
  {
    if n > 0 {
      assert ItemAt(items, n - 1, c) == ItemAt(items2, n - 1, c);
      ItemsOfFrame(items, items2, n - 1, c);
    }
  }

  /** Raising the bound past ids that hold no item changes nothing. */
  lemma {:induction false} ItemsOfBeyond(items: map<Id, CartItem>, n: nat, m: nat, c: Id)
    requires n <= m
    requires forall k :: k in items ==> k < n
    ensures ItemsOf(items, m, c) == ItemsOf(items, n, c)
  {
    if m > n {
      assert ItemAt(items, m - 1, c) == [];
      ItemsOfBeyond(items, n, m - 1, c);
    }
  }

  /** Storing an item under the fresh id n appends it to its own cart's list
      and leaves every other cart's list alone. */
  lemma ItemsOfFresh(items: map<Id, CartItem>, n: nat, c: Id, y: CartItem)
    requires forall k :: k in items ==> k < n
    ensures ItemsOf(items[n := y], n + 1, c) == ItemsOf(items, n, c) + (if y.cartId == c then [y] else [])
  {
    ItemsOfFrame(items, items[n := y], n, c);
  }

  /** Deleting item k of cart c takes its quantity and price out of the cart's sums. */
  lemma {:induction false} TotalsAfterDelete(items: map<Id, CartItem>, n: nat, c: Id, k: Id)
    requires k in items && k < n && items[k].cartId == c
    ensures TotalQuantity(ItemsOf(items, n, c)) == TotalQuantity(ItemsOf(items - {k}, n, c)) + items[k].quantity
    ensures TotalPrice(ItemsOf(items, n, c)) == TotalPrice(ItemsOf(items - {k}, n, c)) + items[k].itemTotalPrice
  {
    var m: nat :| m + 1 == n;
    if k == m {
      TotalsAfterDeleteLast(items, n, c, k);
    } else {
      TotalsAfterDelete(items, m, c, k);
      TotalsAfterDeleteStep(items, m, n, c, k);
    }
  }

  lemma TotalsAfterDeleteStep(items: map<Id, CartItem>, m: nat, n: nat, c: Id, k: Id)
    requires n == m + 1
    requires k in items && k < m && items[k].cartId == c
    requires TotalQuantity(ItemsOf(items, m, c)) == TotalQuantity(ItemsOf(items - {k}, m, c)) + items[k].quantity
    requires TotalPrice(ItemsOf(items, m, c)) == TotalPrice(ItemsOf(items - {k}, m, c)) + items[k].itemTotalPrice
    ensures TotalQuantity(ItemsOf(items, n, c)) == TotalQuantity(ItemsOf(items - {k}, n, c)) + items[k].quantity
    ensures TotalPrice(ItemsOf(items, n, c)) == TotalPrice(ItemsOf(items - {k}, n, c)) + items[k].itemTotalPrice
  {
    var rest := items - {k};
    ItemsOfUnfold(items, m, n, c);
    ItemsOfUnfold(rest, m, n, c);
    ItemAtDeleteOther(items, m, c, k);
    TotalsOfConcat(ItemsOf(items, m, c), ItemAt(items, m, c));
    TotalsOfConcat(ItemsOf(rest, m, c), ItemAt(rest, m, c));
  }

  /** One step of the query's recursion, with the bound and its predecessor as
      separate variables. */
  lemma ItemsOfUnfold(items: map<Id, CartItem>, m: nat, n: nat, c: Id)
    requires n == m + 1
    ensures ItemsOf(items, n, c) == ItemsOf(items, m, c) + ItemAt(items, m, c)
  {
  }

  lemma TotalsAfterDeleteLast(items: map<Id, CartItem>, n: nat, c: Id, k: Id)
    requires k in items && items[k].cartId == c && n == k + 1
    ensures TotalQuantity(ItemsOf(items, n, c)) == TotalQuantity(ItemsOf(items - {k}, n, c)) + items[k].quantity
    ensures TotalPrice(ItemsOf(items, n, c)) == TotalPrice(ItemsOf(items - {k}, n, c)) + items[k].itemTotalPrice
  {
    var rest := items - {k};
    ItemsOfDeleteAbove(items, k, c, k);
    assert ItemAt(rest, k, c) == [];
    assert ItemsOf(rest, n, c) == ItemsOf(rest, k, c) + [];
    assert ItemsOf(rest, k, c) + [] == ItemsOf(rest, k, c);
    TotalsOfSnoc(ItemsOf(items, k, c), items[k]);
  }

  lemma ItemAtDeleteOther(items: map<Id, CartItem>, j: Id, c: Id, k: Id)
    requires j != k
    ensures ItemAt(items - {k}, j, c) == ItemAt(items, j, c)
  {
  }

  /** Deleting an id at or above the bound does not change the query. */
  lemma ItemsOfDeleteAbove(items: map<Id, CartItem>, n: nat, c: Id, k: Id)
    requires n <= k
    ensures ItemsOf(items - {k}, n, c) == ItemsOf(items, n, c)
  {
    forall j | 0 <= j < n ensures ItemAt(items, j, c) == ItemAt(items - {k}, j, c) {
      ItemAtDeleteOther(items, j, c, k);
    }
    ItemsOfFrame(items, items - {k}, n, c);
  }

  /** Deleting an item of another cart, or an id that holds nothing, leaves the list of c alone. */
  lemma ItemsOfDeleteOther(items: map<Id, CartItem>, n: nat, c: Id, k: Id)
    requires k !in items || items[k].cartId != c
    ensures ItemsOf(items - {k}, n, c) == ItemsOf(items, n, c)
  {
    ItemsOfFrame(items, items - {k}, n, c);
  }

  /** Overwriting an item of another cart with another item of another cart leaves c's list alone. */
  lemma ItemsOfSetOther(items: map<Id, CartItem>, n: nat, c: Id, k: Id, y: CartItem)
    requires k !in items || items[k].cartId != c
    requires y.cartId != c
    ensures ItemsOf(items[k := y], n, c) == ItemsOf(items, n, c)
  {
    ItemsOfFrame(items, items[k := y], n, c);
  }

  /** The stream filter on cartItemId, applied to a query result, is the query
      on the map without that id. */
  lemma {:induction false} WithoutItemOfItems(items: map<Id, CartItem>, n: nat, c: Id, k: Id)
    requires WellKeyed(items)
    ensures WithoutItem(ItemsOf(items, n, c), k) == ItemsOf(items - {k}, n, c)
  {
    if n > 0 {
      var m: nat :| m + 1 == n;
      WithoutItemOfItems(items, m, c, k);
      ItemsOfUnfold(items, m, n, c);
      ItemsOfUnfold(items - {k}, m, n, c);
      WithoutItemOfConcat(ItemsOf(items, m, c), ItemAt(items, m, c), k);
      ItemAtWithoutItem(items, m, c, k);
    }
  }

  lemma ItemAtWithoutItem(items: map<Id, CartItem>, j: Id, c: Id, k: Id)
    requires WellKeyed(items)
    ensures WithoutItem(ItemAt(items, j, c), k) == ItemAt(items - {k}, j, c)
  {
    var t := ItemAt(items, j, c);
    if t != [] {
      assert t[1..] == [];
    }
  }

  /** The items of a map other than those of cart c with product p. */
  function DropProduct(items: map<Id, CartItem>, c: Id, p: string): map<Id, CartItem> {
    map k | k in items && !(items[k].cartId == c && items[k].productId == p) :: items[k]
  }

  lemma ItemAtDrop(items: map<Id, CartItem>, j: Id, c: Id, p: string)
    ensures ItemAt(DropProduct(items, c, p), j, c) == WithoutProduct(ItemAt(items, j, c), p)
  {
    var t := ItemAt(items, j, c);
    if t != [] {
      assert t[1..] == [];
    }
  }

  /** The stream filter on productId, applied to cart c's query result, is the
      query on the map without c's items of that product. */
  lemma {:induction false} WithoutProductOfItems(items: map<Id, CartItem>, n: nat, c: Id, p: string)
    ensures WithoutProduct(ItemsOf(items, n, c), p) == ItemsOf(DropProduct(items, c, p), n, c)
  {
    if n > 0 {
      var m: nat :| m + 1 == n;
      WithoutProductOfItems(items, m, c, p);
      ItemsOfUnfold(items, m, n, c);
      ItemsOfUnfold(DropProduct(items, c, p), m, n, c);
      WithoutProductOfConcat(ItemsOf(items, m, c), ItemAt(items, m, c), p);
      ItemAtDrop(items, m, c, p);
    }
  }

  /** With every item under its own id, the query returns exactly the items of
      cart c under ids below n. */
  lemma {:induction false} ItemsOfMembers(items: map<Id, CartItem>, n: nat, c: Id)
    requires WellKeyed(items)
    ensures forall x :: x in ItemsOf(items, n, c) <==>
      x.cartItemId < n && x.cartItemId in items && items[x.cartItemId] == x && x.cartId == c
  {
    if n > 0 {
      var m: nat :| m + 1 == n;
      ItemsOfMembers(items, m, c);
      ItemsOfUnfold(items, m, n, c);
    }
  }

  /** ... and it returns them in increasing id order, each once. */
  lemma {:induction false} ItemsOfOrdered(items: map<Id, CartItem>, n: nat, c: Id)
    requires WellKeyed(items)
    ensures var r := ItemsOf(items, n, c);
      forall i, j :: 0 <= i < j < |r| ==> r[i].cartItemId < r[j].cartItemId
  {
    if n > 0 {
      var m: nat :| m + 1 == n;
      ItemsOfOrdered(items, m, c);
      ItemsOfUnfold(items, m, n, c);
      ItemsOfMembers(items, m, c);
      var a := ItemsOf(items, m, c);
      assert forall i :: 0 <= i < |a| ==> a[i] in a;
    }
  }

  /** The query is empty exactly when no id below n holds an item of cart c. */
  lemma ItemsOfEmpty(items: map<Id, CartItem>, n: nat, c: Id)
    requires WellKeyed(items)
    ensures ItemsOf(items, n, c) == [] <==> forall k :: k in items && k < n ==> items[k].cartId != c
  {
    ItemsOfMembers(items, n, c);
    var r := ItemsOf(items, n, c);
    if r != [] {
      assert r[0] in r;
    }
    forall k | k in items && k < n && items[k].cartId == c ensures r != [] {
      assert items[k] in r;
    }
  }

  /** A cart line's quantities are at least one, so its total quantity is
      positive exactly when the list is non-empty. */
  lemma {:induction false} TotalQuantityPositive(s: seq<CartItem>)
    requires forall i :: 0 <= i < |s| ==> s[i].quantity >= 1
    ensures TotalQuantity(s) >= |s|
    ensures TotalQuantity(s) > 0 <==> s != []
  {
    if s != [] {
      TotalQuantityPositive(s[1..]);
    }
  }

  /** At most one item per (cart, product): what keeps findByCartIdAndProductId
      and the merge's findFirst unambiguous. */
  predicate OneLinePerProduct(items: map<Id, CartItem>) {
    forall j, k ::
      j in items && k in items && items[j].cartId == items[k].cartId && items[j].productId == items[k].productId
      ==> j == k
  }

  /** No two entries of a list carry the same product. */
  predicate DistinctProducts(s: seq<CartItem>) {
    forall i, j :: 0 <= i < j < |s| ==> s[i].productId != s[j].productId
  }

  lemma ItemsOfDistinctProducts(items: map<Id, CartItem>, n: nat, c: Id)
    requires WellKeyed(items) && OneLinePerProduct(items)
    ensures DistinctProducts(ItemsOf(items, n, c))
  {
    ItemsOfMembers(items, n, c);
    ItemsOfOrdered(items, n, c);
    var r := ItemsOf(items, n, c);
    forall i, j | 0 <= i < j < |r| ensures r[i].productId != r[j].productId {
      assert r[i] in r && r[j] in r;
    }
  }

  /** findFirst over the items whose product is p. */
  function FirstWithProduct(s: seq<CartItem>, p: string): (r: Option<CartItem>)
    ensures r.Some? ==> r.value in s && r.value.productId == p
    ensures r.None? ==> forall x :: x in s ==> x.productId != p
  {
    if s == [] then None
    else if s[0].productId == p then Some(s[0])
    else FirstWithProduct(s[1..], p)
  }

  /** findFirst returns the FIRST entry of the product: no entry before it
      has that product. */
  lemma {:induction false} FirstWithProductIsFirst(s: seq<CartItem>, p: string)
    ensures var r := FirstWithProduct(s, p);
      r.Some? ==> exists i | 0 <= i < |s| :: s[i] == r.value && forall j | 0 <= j < i :: s[j].productId != p
  {
    if s != [] && s[0].productId != p {
      FirstWithProductIsFirst(s[1..], p);
      if FirstWithProduct(s[1..], p).Some? {
        var i :| 0 <= i < |s[1..]| && s[1..][i] == FirstWithProduct(s[1..], p).value
          && forall j | 0 <= j < i :: s[1..][j].productId != p;
        assert s[i + 1] == FirstWithProduct(s, p).value;
        assert forall j | 0 <= j < i + 1 :: s[j].productId != p by {
          forall j | 0 <= j < i + 1 ensures s[j].productId != p {
            if j > 0 {
              assert s[j] == s[1..][j - 1];
            }
          }
        }
      }
    }
  }

  /** In a list with distinct products, findFirst returns the one entry of its product. */
  lemma {:induction false} FirstWithProductUnique(s: seq<CartItem>, x: CartItem)
    requires DistinctProducts(s) && x in s
    ensures FirstWithProduct(s, x.productId) == Some(x)
  {
    if s[0] != x {
      assert s[0].productId != x.productId by {
        var j :| 0 <= j < |s| && s[j] == x;
        assert j > 0;
      }
      assert x in s[1..];
      FirstWithProductUnique(s[1..], x);
    }
  }

  // ---- The per-product view of a cart, used to state a merge ----

  /** What a cart line says about its product. */
  datatype Line = Line(productName: string, price: int, quantity: int, total: int)

  function LineOf(x: CartItem): Line {
    Line(x.productName, x.priceAtAddToCart, x.quantity, x.itemTotalPrice)
  }

  /** A list of items as a map from product to line. */
  function Basket(s: seq<CartItem>): map<string, Line> {
    if s == [] then map[]
    else Basket(s[..|s| - 1])[s[|s| - 1].productId := LineOf(s[|s| - 1])]
  }

  /** The basket has a line for exactly the products the list mentions. */
  lemma {:induction false} BasketKeys(s: seq<CartItem>)
    ensures forall p :: p in Basket(s) <==> exists x :: x in s && x.productId == p
  {
    if s != [] {
      var init, x := s[..|s| - 1], s[|s| - 1];
      assert s == init + [x];
      BasketKeys(init);
      assert forall y :: y in s <==> y in init || y == x;
    }
  }

  lemma UpdateSwap<K, V>(b: map<K, V>, p: K, q: K, u: V, v: V)
    requires p != q
    ensures b[p := u][q := v] == b[q := v][p := u]
  {
  }

  lemma BasketSnoc(a: seq<CartItem>, x: CartItem)
    ensures Basket(a + [x]) == Basket(a)[x.productId := LineOf(x)]
  {
    assert (a + [x])[..|a|] == a;
  }

  /** In a list with distinct products, each entry is its product's line. */
  lemma {:induction false} BasketAt(s: seq<CartItem>, i: nat)
    requires DistinctProducts(s) && i < |s|
    ensures s[i].productId in Basket(s) && Basket(s)[s[i].productId] == LineOf(s[i])
  {
    var init := s[..|s| - 1];
    assert s == init + [s[|s| - 1]];
    BasketSnoc(init, s[|s| - 1]);
    if i < |s| - 1 {
      assert init[i] == s[i];
      BasketAt(init, i);
    }
  }

  /** The total of a line, its unit price times its quantity, written as
      repeated addition so that it stays linear where it is unfolded. */
  function LineTotal(price: int, quantity: int): int
    decreases if quantity < 0 then -quantity else quantity
  {
    if quantity == 0 then 0
    else if quantity > 0 then LineTotal(price, quantity - 1) + price
    else LineTotal(price, quantity + 1) - price
  }

  /** LineTotal is the product the source computes. */
  lemma {:induction false} LineTotalIsProduct(price: int, quantity: int)
    ensures LineTotal(price, quantity) == price * quantity
    decreases if quantity < 0 then -quantity else quantity
  {
    if quantity > 0 {
      LineTotalIsProduct(price, quantity - 1);
    } else if quantity < 0 {
      LineTotalIsProduct(price, quantity + 1);
    }
  }

  /** A user line and a guest line for the same product: the user's snapshot
      price and name, the summed quantity, and the total recomputed from the
      user's price. */
  function Combine(u: Line, g: Line): (r: Line)
    ensures r.productName == u.productName && r.price == u.price
    ensures r.quantity == u.quantity + g.quantity && r.total == LineTotal(u.price, r.quantity)
  {
    Line(u.productName, u.price, u.quantity + g.quantity, LineTotal(u.price, u.quantity + g.quantity))
  }

  /** A guest basket folded into a user basket, product by product. */
  function MergeBaskets(user: map<string, Line>, guest: map<string, Line>): (r: map<string, Line>)
    ensures r.Keys == user.Keys + guest.Keys
    ensures forall p :: p in user && p in guest ==> r[p] == Combine(user[p], guest[p])
    ensures forall p :: p in user && p !in guest ==> r[p] == user[p]
    ensures forall p :: p !in user && p in guest ==> r[p] == guest[p]
  {
    map p | p in user.Keys + guest.Keys ::
      if p in user && p in guest then Combine(user[p], guest[p])
      else if p in user then user[p]
      else guest[p]
  }

  lemma MergeBasketsStep(user: map<string, Line>, guest: map<string, Line>, p: string, l: Line)
    requires p !in guest
    ensures MergeBaskets(user, guest[p := l]) ==
      MergeBaskets(user, guest)[p := if p in user then Combine(user[p], l) else l]
  {
  }

  lemma MergeWithNothing(user: map<string, Line>)
    ensures MergeBaskets(user, map[]) == user
  {
  }

  /** Overwriting item k of cart c by an item of the same cart and product
      replaces that product's line and nothing else. */
  lemma {:induction false} BasketOfItemsSet(items: map<Id, CartItem>, n: nat, c: Id, k: Id, y: CartItem)
    requires k in items && k < n && items[k].cartId == c
    requires y.cartId == c && y.productId == items[k].productId
    requires OneLinePerProduct(items)
    ensures Basket(ItemsOf(items[k := y], n, c)) == Basket(ItemsOf(items, n, c))[y.productId := LineOf(y)]
  {
    var m: nat :| m + 1 == n;
    if k == m {
      BasketOfItemsSetLast(items, m, n, c, k, y);
    } else {
      BasketOfItemsSet(items, m, c, k, y);
      BasketOfItemsSetStep(items, m, n, c, k, y);
    }
  }

  lemma BasketOfItemsSetLast(items: map<Id, CartItem>, m: nat, n: nat, c: Id, k: Id, y: CartItem)
    requires n == m + 1 && k == m
    requires k in items && items[k].cartId == c
    requires y.cartId == c && y.productId == items[k].productId
    ensures Basket(ItemsOf(items[k := y], n, c)) == Basket(ItemsOf(items, n, c))[y.productId := LineOf(y)]
  {
    var items' := items[k := y];
    ItemsOfUnfold(items, m, n, c);
    ItemsOfUnfold(items', m, n, c);
    ItemsOfSetAbove(items, m, c, k, y);
    assert ItemAt(items, m, c) == [items[k]];
    assert ItemAt(items', m, c) == [y];
    BasketSnoc(ItemsOf(items, m, c), items[k]);
    BasketSnoc(ItemsOf(items, m, c), y);
  }

  lemma BasketOfItemsSetStep(items: map<Id, CartItem>, m: nat, n: nat, c: Id, k: Id, y: CartItem)
    requires n == m + 1 && k < m
    requires k in items && items[k].cartId == c
    requires y.cartId == c && y.productId == items[k].productId
    requires OneLinePerProduct(items)
    requires Basket(ItemsOf(items[k := y], m, c)) == Basket(ItemsOf(items, m, c))[y.productId := LineOf(y)]
    ensures Basket(ItemsOf(items[k := y], n, c)) == Basket(ItemsOf(items, n, c))[y.productId := LineOf(y)]
  {
    var items' := items[k := y];
    ItemsOfUnfold(items, m, n, c);
    ItemsOfUnfold(items', m, n, c);
    var t := ItemAt(items, m, c);
    assert ItemAt(items', m, c) == t;
    if t != [] {
      var x := items[m];
      assert t == [x];
      assert x.productId != y.productId;
      BasketSnoc(ItemsOf(items, m, c), x);
      BasketSnoc(ItemsOf(items', m, c), x);
      UpdateSwap(Basket(ItemsOf(items, m, c)), y.productId, x.productId, LineOf(y), LineOf(x));
    } else {
      assert ItemsOf(items, m, c) + t == ItemsOf(items, m, c);
      assert ItemsOf(items', m, c) + t == ItemsOf(items', m, c);
    }
  }

  /** Overwriting an id at or above the bound does not change the query. */
  lemma ItemsOfSetAbove(items: map<Id, CartItem>, n: nat, c: Id, k: Id, y: CartItem)
    requires n <= k
    ensures ItemsOf(items[k := y], n, c) == ItemsOf(items, n, c)
  {
    ItemsOfFrame(items, items[k := y], n, c);
  }

  // ---- The store invariant ----

  /** A cart's cached totals are the sums over the items the query returns. */
  predicate TotalsAgree(cart: Cart, s: seq<CartItem>) {
    cart.totalItems == TotalQuantity(s) && cart.subtotalAmount == TotalPrice(s)
  }

  /** Every cart keeps its totals in step with its items, except a guest cart
      that a merge emptied: it keeps the totals it had and has no items left. */
  predicate CartConsistent(cart: Cart, s: seq<CartItem>) {
    TotalsAgree(cart, s) || (cart.status == MergedToUserCart && s == [])
  }

  /** One stored item as every operation leaves it: under its own id below the
      id counter, at least one unit, and its total the snapshot price times the
      quantity. */
  predicate ItemOk(n: nat, k: Id, x: CartItem) {
    && k < n
    && x.cartItemId == k
    && x.quantity >= 1
    && x.itemTotalPrice == LineTotal(x.priceAtAddToCart, x.quantity)
  }

  predicate CartsOk(carts: map<Id, Cart>, items: map<Id, CartItem>, n: nat) {
    forall id :: id in carts ==>
      id < n && carts[id].cartId == id && CartConsistent(carts[id], ItemsOf(items, n, id))
  }

  predicate ItemsOk(carts: map<Id, Cart>, items: map<Id, CartItem>, n: nat) {
    forall k :: k in items ==> ItemOk(n, k, items[k]) && items[k].cartId in carts
  }

  /** The aggregate invariant over both collections and the id counter. */
  predicate StoreInvariant(carts: map<Id, Cart>, items: map<Id, CartItem>, n: nat) {
    CartsOk(carts, items, n) && ItemsOk(carts, items, n) && OneLinePerProduct(items)
  }

  lemma InvariantWellKeyed(carts: map<Id, Cart>, items: map<Id, CartItem>, n: nat)
    requires ItemsOk(carts, items, n)
    ensures WellKeyed(items)
  {
  }

  /** Every item whose entry differs between the two maps belongs, in both, to
      one of the carts in `touched`. */
  ghost predicate ChangedOnlyIn(items: map<Id, CartItem>, items2: map<Id, CartItem>, touched: set<Id>) {
    forall k :: k in items || k in items2 ==>
      || (k in items && k in items2 && items[k] == items2[k])
      || ((k in items ==> items[k].cartId in touched) && (k in items2 ==> items2[k].cartId in touched))
  }

  lemma ChangedOnlyInTrans(a: map<Id, CartItem>, b: map<Id, CartItem>, c: map<Id, CartItem>, touched: set<Id>)
    requires ChangedOnlyIn(a, b, touched) && ChangedOnlyIn(b, c, touched)
    ensures ChangedOnlyIn(a, c, touched)
  {
    forall k | k in a || k in c
      ensures || (k in a && k in c && a[k] == c[k])
              || ((k in a ==> a[k].cartId in touched) && (k in c ==> c[k].cartId in touched))
    {
      if k in b {
      }
    }
  }

  lemma ChangedBySet(items: map<Id, CartItem>, k: Id, y: CartItem, touched: set<Id>)
    requires k !in items || items[k].cartId in touched
    requires y.cartId in touched
    ensures ChangedOnlyIn(items, items[k := y], touched)
  {
  }

  lemma ChangedByDelete(items: map<Id, CartItem>, k: Id, touched: set<Id>)
    requires k !in items || items[k].cartId in touched
    ensures ChangedOnlyIn(items, items - {k}, touched)
  {
  }

  /** The query for an untouched cart sees none of the changes. */
  lemma ItemsOfUntouched(items: map<Id, CartItem>, items2: map<Id, CartItem>, touched: set<Id>, n: nat, c: Id)
    requires ChangedOnlyIn(items, items2, touched) && c !in touched
    ensures ItemsOf(items2, n, c) == ItemsOf(items, n, c)
  {
    forall k | 0 <= k < n ensures ItemAt(items, k, c) == ItemAt(items2, k, c) {
      if k in items || k in items2 {
      }
    }
    ItemsOfFrame(items, items2, n, c);
  }

  /** The invariant survives an operation that rewrites the carts in `touched`
      and their items, allocates ids only upwards, and re-establishes the
      invariant for what it rewrote. */
  lemma InvariantAfterRewrite(
    carts: map<Id, Cart>, items: map<Id, CartItem>, n: nat,
    carts2: map<Id, Cart>, items2: map<Id, CartItem>, n2: nat, touched: set<Id>)
    requires StoreInvariant(carts, items, n)
    requires n <= n2
    requires ChangedOnlyIn(items, items2, touched)
    requires forall id :: id in carts2 && id !in touched ==> id in carts && carts2[id] == carts[id]
    requires forall id :: id in carts && id !in touched ==> id in carts2
    requires forall id :: id in touched && id in carts2 ==>
      id < n2 && carts2[id].cartId == id && CartConsistent(carts2[id], ItemsOf(items2, n2, id))
    requires forall id :: id in touched && id !in carts2 ==> ItemsOf(items2, n2, id) == []
    requires forall k :: k in items2 && items2[k].cartId in touched ==> ItemOk(n2, k, items2[k])
    requires OneLinePerProduct(items2)
    ensures StoreInvariant(carts2, items2, n2)
  {
    InvariantWellKeyed(carts, items, n);
    forall id | id in carts2 && id !in touched
      ensures id < n2 && carts2[id].cartId == id && CartConsistent(carts2[id], ItemsOf(items2, n2, id))
    {
      ItemsOfUntouched(items, items2, touched, n2, id);
      ItemsOfBeyond(items, n, n2, id);
    }
    assert WellKeyed(items2) by {
      forall k | k in items2 ensures items2[k].cartItemId == k {
        if !(k in items && items[k] == items2[k]) {
          assert items2[k].cartId in touched;
        }
      }
    }
    forall k | k in items2 ensures ItemOk(n2, k, items2[k]) && items2[k].cartId in carts2 {
      var c := items2[k].cartId;
      if c in touched {
        if c !in carts2 {
          ItemsOfEmpty(items2, n2, c);
          assert false;
        }
      } else {
        assert k in items && items[k] == items2[k];
      }
    }
  }

  lemma OneLineAfterSet(items: map<Id, CartItem>, k: Id, y: CartItem)
    requires OneLinePerProduct(items)
    requires k in items && items[k].cartId == y.cartId && items[k].productId == y.productId
    ensures OneLinePerProduct(items[k := y])
  {
  }

  lemma OneLineAfterFresh(items: map<Id, CartItem>, k: Id, y: CartItem)
    requires OneLinePerProduct(items) && k !in items
    requires forall j :: j in items ==> !(items[j].cartId == y.cartId && items[j].productId == y.productId)
    ensures OneLinePerProduct(items[k := y])
  {
  }

  lemma OneLineAfterDelete(items: map<Id, CartItem>, k: Id)
    requires OneLinePerProduct(items)
    ensures OneLinePerProduct(items - {k})
  {
  }

  /** Under the invariant, dropping a cart's lines of product p removes exactly
      the one item x found for it, or nothing when there is none. */
  lemma DropProductOne(items: map<Id, CartItem>, c: Id, p: string, k: Id)
    requires OneLinePerProduct(items)
    requires k in items && items[k].cartId == c && items[k].productId == p
    ensures DropProduct(items, c, p) == items - {k}
  {
  }

  lemma DropProductNone(items: map<Id, CartItem>, c: Id, p: string)
    requires forall j :: j in items ==> !(items[j].cartId == c && items[j].productId == p)
    ensures DropProduct(items, c, p) == items
  {
  }

  /** The owner lookup is characterised by its contract: the smallest matching id. */
  lemma FindCartIs(carts: map<Id, Cart>, n: nat, orgId: string, a: Actor, activeOnly: bool, i: Id)
    requires i < n && i in carts && OwnedBy(carts[i], orgId, a, activeOnly)
    requires forall j :: j in carts && j < i ==> !OwnedBy(carts[j], orgId, a, activeOnly)
    ensures FindCart(carts, n, orgId, a, activeOnly) == Some(i)
  {
  }

  /** The stored items with those of cart c taken out. */
  function WithoutCart(items: map<Id, CartItem>, c: Id): (r: map<Id, CartItem>)
    ensures forall k :: k in r <==> k in items && items[k].cartId != c
    ensures forall k :: k in r ==> r[k] == items[k]
  {
    map k | k in items && items[k].cartId != c :: items[k]
  }

  /** The next id is no cart's id yet, so no stored item belongs to it. */
  lemma NoItemsYet(carts: map<Id, Cart>, items: map<Id, CartItem>, n: nat)
    requires StoreInvariant(carts, items, n)
    ensures ItemsOf(items, n, n) == []
  {
    InvariantWellKeyed(carts, items, n);
    ItemsOfEmpty(items, n, n);
  }

  /** Deleting the documents of the items the query returns for cart c
      deletes exactly the items of that cart. */
  lemma DeleteQueried(carts: map<Id, Cart>, items: map<Id, CartItem>, n: nat, c: Id)
    requires StoreInvariant(carts, items, n)
    ensures items - IdsOf(ItemsOf(items, n, c)) == WithoutCart(items, c)
  {
    var s := ItemsOf(items, n, c);
    InvariantWellKeyed(carts, items, n);
    ItemsOfMembers(items, n, c);
    forall k | k in items && items[k].cartId == c ensures k in IdsOf(s) {
      assert items[k] in s;
    }
  }

  /** Storing a new cart under the next id, with zero totals, keeps the
      invariant; the new cart has no items. */
  lemma NewCartKeepsInvariant(carts: map<Id, Cart>, items: map<Id, CartItem>, n: nat, cart: Cart)
    requires StoreInvariant(carts, items, n)
    requires cart.cartId == n && cart.totalItems == 0 && cart.subtotalAmount == 0
    ensures ItemsOf(items, n + 1, n) == []
    ensures StoreInvariant(carts[n := cart], items, n + 1)
  {
    InvariantWellKeyed(carts, items, n);
    ItemsOfEmpty(items, n, n);
    ItemsOfBeyond(items, n, n + 1, n);
    InvariantAfterRewrite(carts, items, n, carts[n := cart], items, n + 1, {n});
  }

  /** A new cart stored under the next id is what the owner lookup finds when
      no older cart matched. */
  lemma FindNewCart(carts: map<Id, Cart>, n: nat, n2: nat, orgId: string, a: Actor, activeOnly: bool, cart: Cart)
    requires FindCart(carts, n, orgId, a, activeOnly).None? && n < n2
    requires OwnedBy(cart, orgId, a, activeOnly)
    ensures FindCart(carts[n := cart], n2, orgId, a, activeOnly) == Some(n)
  {
    FindCartIs(carts[n := cart], n2, orgId, a, activeOnly, n);
  }

  /** A cart rewritten in place stays the one the lookup finds, as long as it
      still matches. */
  lemma FindSameCart(carts: map<Id, Cart>, n: nat, n2: nat, orgId: string, a: Actor, activeOnly: bool, i: Id, cart: Cart)
    requires FindCart(carts, n, orgId, a, activeOnly) == Some(i)
    requires n <= n2 && OwnedBy(cart, orgId, a, activeOnly)
    ensures FindCart(carts[i := cart], n2, orgId, a, activeOnly) == Some(i)
  {
    FindCartIs(carts[i := cart], n2, orgId, a, activeOnly, i);
  }

  /** Deleting the items of one cart and zeroing its totals keeps the invariant. */
  lemma ClearKeepsInvariant(carts: map<Id, Cart>, items: map<Id, CartItem>, n: nat, cid: Id, cart: Cart)
    requires StoreInvariant(carts, items, n) && cid in carts
    requires cart.cartId == cid && cart.totalItems == 0 && cart.subtotalAmount == 0
    ensures ItemsOf(WithoutCart(items, cid), n, cid) == []
    ensures StoreInvariant(carts[cid := cart], WithoutCart(items, cid), n)
  {
    var rest := WithoutCart(items, cid);
    assert WellKeyed(rest);
    ItemsOfEmpty(rest, n, cid);
    InvariantAfterRewrite(carts, items, n, carts[cid := cart], rest, n, {cid});
  }

  /** The item ids of a list of items. */
  function IdsOf(s: seq<CartItem>): (r: set<Id>)
    ensures forall x :: x in s ==> x.cartItemId in r
    ensures forall k :: k in r ==> exists x :: x in s && x.cartItemId == k
  {
    set x | x in s :: x.cartItemId
  }

  /** Taking a deleted item's quantity and total off its cart's cached totals
      leaves them equal to the sums over the remaining items; the count drops
      to zero or below exactly when no item remains. */
  lemma DeleteItemTotals(carts: map<Id, Cart>, items: map<Id, CartItem>, n: nat, k: Id)
    requires StoreInvariant(carts, items, n) && k in items
    ensures var x := items[k];
      var c := carts[x.cartId];
      var rest := ItemsOf(items - {k}, n, x.cartId);
      && c.totalItems - x.quantity == TotalQuantity(rest)
      && c.subtotalAmount - x.itemTotalPrice == TotalPrice(rest)
      && (c.totalItems - x.quantity <= 0 <==> rest == [])
  {
    var cid := items[k].cartId;
    InvariantWellKeyed(carts, items, n);
    ItemsOfMembers(items, n, cid);
    assert items[k] in ItemsOf(items, n, cid);
    TotalsAfterDelete(items, n, cid, k);
    ItemsOfMembers(items - {k}, n, cid);
    var s := ItemsOf(items - {k}, n, cid);
    assert forall i :: 0 <= i < |s| ==> s[i] in s;
    TotalQuantityPositive(s);
  }

  /** Deleting an item and storing its cart with totals that agree with the
      remaining items keeps the invariant. */
  lemma DeleteItemInvariant(carts: map<Id, Cart>, items: map<Id, CartItem>, n: nat, k: Id, cart: Cart)
    requires StoreInvariant(carts, items, n) && k in items
    requires cart.cartId == items[k].cartId && TotalsAgree(cart, ItemsOf(items - {k}, n, cart.cartId))
    ensures StoreInvariant(carts[cart.cartId := cart], items - {k}, n)
  {
    ChangedByDelete(items, k, {cart.cartId});
    InvariantAfterRewrite(carts, items, n, carts[cart.cartId := cart], items - {k}, n, {cart.cartId});
  }
}
