/** mergeGuestCart as one function of the collections it reads, what its
    outcome keeps, and what a second run with the same arguments does after
    a first one. */
module GuestMerge {
  import opened Wrappers
  import opened CartModel
  import opened CartMerge

  /** getOrCreateUserCart as the merge calls it: the cart the user lookup
      finds with its items, or a new ACTIVE cart under the next id. */
  function UserCartOutcome(carts: map<Id, Cart>, items: map<Id, CartItem>, n: nat, activeOnly: bool,
                           orgId: string, userId: string): MergeOutcome
  {
    match FindCart(carts, n, orgId, User(userId), activeOnly)
    case Some(c) => MergeOutcome(carts, items, n, CartView(carts[c], ItemsOf(items, n, c)))
    case None =>
      var cart := Cart(n, orgId, Some(userId), None, Active, 0, 0);
      MergeOutcome(carts[n := cart], items, n + 1, CartView(cart, ItemsOf(items, n + 1, n)))
  }

  /** mergeGuestCart with the self-merge corrected. No guest cart: the user's
      cart, found or created. A guest cart without items: it is deleted, then
      the same. A guest cart with items: MergeCartsFixed into the cart the
      user lookup found, or into a new one. */
  function MergeGuest(carts: map<Id, Cart>, items: map<Id, CartItem>, n: nat, activeOnly: bool,
                      orgId: string, guestId: string, userId: string): MergeOutcome
  {
    var gl := FindCart(carts, n, orgId, Guest(guestId), activeOnly);
    if gl.None? || carts[gl.value].orgId != orgId then UserCartOutcome(carts, items, n, activeOnly, orgId, userId)
    else if ItemsOf(items, n, gl.value) == [] then UserCartOutcome(carts - {gl.value}, items, n, activeOnly, orgId, userId)
    else MergeCartsFixed(carts, items, n, orgId, userId, gl.value, FindCart(carts, n, orgId, User(userId), activeOnly))
  }

  /** mergeGuestCart as written: a guest cart with items is merged by
      MergeCarts even when it is the user's own cart. */
  function MergeGuestAsWritten(carts: map<Id, Cart>, items: map<Id, CartItem>, n: nat, activeOnly: bool,
                               orgId: string, guestId: string, userId: string): MergeOutcome
  {
    var gl := FindCart(carts, n, orgId, Guest(guestId), activeOnly);
    if gl.Some? && ItemsOf(items, n, gl.value) != [] then
      MergeCarts(carts, items, n, orgId, userId, gl.value, FindCart(carts, n, orgId, User(userId), activeOnly))
    else MergeGuest(carts, items, n, activeOnly, orgId, guestId, userId)
  }

  /** The outcome is a valid store in which the returned cart is stored, the
      returned items are its items, and the user lookup finds it. */
  ghost predicate Settled(o: MergeOutcome, activeOnly: bool, orgId: string, userId: string) {
    var c := o.view.cart.cartId;
    && StoreInvariant(o.carts, o.items, o.next)
    && c in o.carts && o.carts[c] == o.view.cart && o.view.items == ItemsOf(o.items, o.next, c)
    && FindCart(o.carts, o.next, orgId, User(userId), activeOnly) == Some(c)
  }

  /** getOrCreateUserCart settles the store: it keeps every cart and item, adds
      at most the new user cart (which carries no guestId), and the user
      lookup finds the cart it returns. */
  lemma UserCartKeeps(carts: map<Id, Cart>, items: map<Id, CartItem>, n: nat, activeOnly: bool,
                      orgId: string, userId: string)
    requires StoreInvariant(carts, items, n)
    ensures var o := UserCartOutcome(carts, items, n, activeOnly, orgId, userId);
      && Settled(o, activeOnly, orgId, userId)
      && o.items == items && n <= o.next <= n + 1
      && (forall id :: id in carts ==> id in o.carts && o.carts[id] == carts[id])
      && (forall id :: id in o.carts && id !in carts ==> o.carts[id].guestId == None)
  {
    match FindCart(carts, n, orgId, User(userId), activeOnly)
    case Some(c) =>
      assert carts[c].cartId == c;
    case None =>
      NewUserCart(carts, items, n, activeOnly, orgId, userId);
  }

  /** The case of UserCartKeeps where the user has no cart yet. */
  lemma NewUserCart(carts: map<Id, Cart>, items: map<Id, CartItem>, n: nat, activeOnly: bool,
                    orgId: string, userId: string)
    requires StoreInvariant(carts, items, n) && FindCart(carts, n, orgId, User(userId), activeOnly).None?
    ensures var cart := Cart(n, orgId, Some(userId), None, Active, 0, 0);
      && StoreInvariant(carts[n := cart], items, n + 1)
      && FindCart(carts[n := cart], n + 1, orgId, User(userId), activeOnly) == Some(n)
      && n !in carts
  {
    var cart := Cart(n, orgId, Some(userId), None, Active, 0, 0);
    NewCartKeepsInvariant(carts, items, n, cart);
    FindNewCart(carts, n, n + 1, orgId, User(userId), activeOnly, cart);
  }

  /** The state and the cart getOrCreateUserCart's contract describes
      are those of UserCartOutcome. */
  lemma UserCartIs(carts0: map<Id, Cart>, items0: map<Id, CartItem>, n0: nat, activeOnly: bool,
                   orgId: string, userId: string, carts1: map<Id, Cart>, items1: map<Id, CartItem>, n1: nat, v: CartView)
    requires FindCart(carts0, n0, orgId, User(userId), activeOnly).Some? ==>
      && carts1 == carts0 && items1 == items0 && n1 == n0
      && v.cart.cartId == FindCart(carts0, n0, orgId, User(userId), activeOnly).value
    requires FindCart(carts0, n0, orgId, User(userId), activeOnly).None? ==>
      && n1 == n0 + 1 && items1 == items0
      && carts1 == carts0[n0 := Cart(n0, orgId, Some(userId), None, Active, 0, 0)]
      && v.cart.cartId == n0
    requires v.cart.cartId in carts1 && carts1[v.cart.cartId] == v.cart && v.items == ItemsOf(items1, n1, v.cart.cartId)
    ensures UserCartOutcome(carts0, items0, n0, activeOnly, orgId, userId) == MergeOutcome(carts1, items1, n1, v)
  {
    assert v == CartView(v.cart, v.items);
  }

  /** A settled store is a fixed point of getOrCreateUserCart. */
  lemma UserCartOfSettled(o: MergeOutcome, activeOnly: bool, orgId: string, userId: string)
    requires Settled(o, activeOnly, orgId, userId)
    ensures UserCartOutcome(o.carts, o.items, o.next, activeOnly, orgId, userId) == o
  {
    assert o.view == CartView(o.view.cart, o.view.items);
  }

  /** The returned cart of MergeCarts, field by field. */
  lemma MergedUserCart(carts: map<Id, Cart>, items: map<Id, CartItem>, n: nat, orgId: string, userId: string,
                       gid: Id, userFound: Option<Id>)
    requires gid in carts && (userFound.Some? ==> userFound.value in carts)
    ensures var o := MergeCarts(carts, items, n, orgId, userId, gid, userFound);
      var user0 := UserSide(carts, items, n, orgId, userId, userFound).0;
      && o.view.cart.cartId == user0.cartId && o.view.cart.orgId == user0.orgId
      && o.view.cart.userId == user0.userId && o.view.cart.status == user0.status
      && o.view.cart.guestId == None
  {
  }

  /** After merging into a different cart, the user lookup finds the cart the
      merge returned: the cart keeps its owner and status, the guest cart
      could not have been found first, and no other cart changed. */
  lemma MergeFindsUser(carts: map<Id, Cart>, n: nat, activeOnly: bool, orgId: string, userId: string,
                       gid: Id, o: MergeOutcome)
    requires (forall id :: id in carts ==> id < n) && gid in carts
    requires var uf := FindCart(carts, n, orgId, User(userId), activeOnly);
      && uf != Some(gid)
      && (uf.Some? ==> o.view.cart.cartId == uf.value)
      && (uf.None? ==> o.view.cart.cartId == n)
    requires OwnedBy(o.view.cart, orgId, User(userId), activeOnly)
    requires o.view.cart.cartId in o.carts && o.carts[o.view.cart.cartId] == o.view.cart && o.view.cart.cartId < o.next
    requires gid in o.carts && o.carts[gid] == carts[gid].(status := MergedToUserCart)
    requires forall id :: id in o.carts && id != o.view.cart.cartId && id != gid ==> id in carts && o.carts[id] == carts[id]
    ensures FindCart(o.carts, o.next, orgId, User(userId), activeOnly) == Some(o.view.cart.cartId)
  {
    var cU := o.view.cart.cartId;
    forall j | j in o.carts && j < cU
      ensures !OwnedBy(o.carts[j], orgId, User(userId), activeOnly)
    {
      assert j in carts;
      if j == gid {
        TombstoneOwner(carts[gid], orgId, userId, activeOnly);
      }
    }
    FindCartIs(o.carts, o.next, orgId, User(userId), activeOnly, cU);
  }

  /** Marking a cart MERGED_TO_USER_CART makes no one its owner who was not. */
  lemma TombstoneOwner(c: Cart, orgId: string, userId: string, activeOnly: bool)
    ensures OwnedBy(c.(status := MergedToUserCart), orgId, User(userId), activeOnly) ==>
      OwnedBy(c, orgId, User(userId), activeOnly) && !activeOnly
  {
  }

  /** Merging a guest cart into a different user cart: the store keeps its
      invariant and settles on the returned cart, whose guestId is cleared;
      the guest cart becomes an item-less MERGED_TO_USER_CART tombstone and
      every other cart is as it was. */
  lemma MergeCartsSettles(carts: map<Id, Cart>, items: map<Id, CartItem>, n: nat, activeOnly: bool,
                          orgId: string, userId: string, gid: Id)
    requires StoreInvariant(carts, items, n) && gid in carts
    requires FindCart(carts, n, orgId, User(userId), activeOnly) != Some(gid)
    ensures var o := MergeCarts(carts, items, n, orgId, userId, gid, FindCart(carts, n, orgId, User(userId), activeOnly));
      && Settled(o, activeOnly, orgId, userId) && MergeKeeps(carts, gid, o)
      && o.view.cart.cartId != gid && o.view.cart.guestId == None
      && gid in o.carts && o.carts[gid] == carts[gid].(status := MergedToUserCart)
      && ItemsOf(o.items, o.next, gid) == []
      && ChangedOnlyIn(items, o.items, {o.view.cart.cartId, gid}) && n <= o.next
  {
    var uf := FindCart(carts, n, orgId, User(userId), activeOnly);
    var o := MergeCarts(carts, items, n, orgId, userId, gid, uf);
    MergeCartsMerges(carts, items, n, orgId, userId, gid, uf);
    MergeCartsKeepsInvariant(carts, items, n, orgId, userId, gid, uf);
    MergedUserCart(carts, items, n, orgId, userId, gid, uf);
    assert o.view.cart.cartId < o.next;
    MergeFindsUser(carts, n, activeOnly, orgId, userId, gid, o);
  }

  /** A merge into a different cart leaves every third cart and its items
      as they were. */
  lemma MergeLeavesOther(carts: map<Id, Cart>, items: map<Id, CartItem>, n: nat, activeOnly: bool,
                         orgId: string, userId: string, gid: Id, k: Id)
    requires StoreInvariant(carts, items, n) && gid in carts && k in carts && k != gid
    requires var uf := FindCart(carts, n, orgId, User(userId), activeOnly); uf != Some(gid) && uf != Some(k)
    ensures var o := MergeCarts(carts, items, n, orgId, userId, gid, FindCart(carts, n, orgId, User(userId), activeOnly));
      && k in o.carts && o.carts[k] == carts[k] && ItemsOf(o.items, o.next, k) == ItemsOf(items, n, k)
  {
    var uf := FindCart(carts, n, orgId, User(userId), activeOnly);
    MergedUserCart(carts, items, n, orgId, userId, gid, uf);
    assert k < n;
    MergeCartsSettles(carts, items, n, activeOnly, orgId, userId, gid);
    var o := MergeCarts(carts, items, n, orgId, userId, gid, uf);
    assert forall id :: id in items ==> id < n;
    UntouchedCartItems(items, n, o.items, o.next, {o.view.cart.cartId, gid}, k);
  }

  /** The items of a cart outside `touched` stay the same when the items
      change only in `touched` and the counter grows past the old ids. */
  lemma UntouchedCartItems(items: map<Id, CartItem>, n: nat, items2: map<Id, CartItem>, n2: nat,
                           touched: set<Id>, k: Id)
    requires (forall id :: id in items ==> id < n) && n <= n2
    requires ChangedOnlyIn(items, items2, touched) && k !in touched
    ensures ItemsOf(items2, n2, k) == ItemsOf(items, n, k)
  {
    ItemsOfBeyond(items, n, n2, k);
    ItemsOfUntouched(items, items2, touched, n2, k);
  }

  /** Every outcome of the merge is settled: the store invariant holds, the
      returned cart is stored with its items, and the user lookup finds it. */
  lemma MergeGuestSettles(carts: map<Id, Cart>, items: map<Id, CartItem>, n: nat, activeOnly: bool,
                          orgId: string, guestId: string, userId: string)
    requires StoreInvariant(carts, items, n)
    ensures Settled(MergeGuest(carts, items, n, activeOnly, orgId, guestId, userId), activeOnly, orgId, userId)
  {
    var gl := FindCart(carts, n, orgId, Guest(guestId), activeOnly);
    if gl.None? {
      UserCartKeeps(carts, items, n, activeOnly, orgId, userId);
    } else if ItemsOf(items, n, gl.value) == [] {
      DropEmptyCart(carts, items, n, gl.value);
      UserCartKeeps(carts - {gl.value}, items, n, activeOnly, orgId, userId);
    } else if FindCart(carts, n, orgId, User(userId), activeOnly) == Some(gl.value) {
      var gid := gl.value;
      assert carts[gid].cartId == gid;
      ClearGuestIdKeepsInvariant(carts, items, n, gid);
      FindSameCart(carts, n, n, orgId, User(userId), activeOnly, gid, carts[gid].(guestId := None));
    } else {
      MergeCartsSettles(carts, items, n, activeOnly, orgId, userId, gl.value);
    }
  }

  /** When the guest lookup finds no cart with items, the merge is a no-op on
      the items: a guest cart without items is deleted, every other cart is
      kept, and the user's cart is found or created without a guestId. */
  lemma MergeGuestWithoutItems(carts: map<Id, Cart>, items: map<Id, CartItem>, n: nat, activeOnly: bool,
                               orgId: string, guestId: string, userId: string)
    requires StoreInvariant(carts, items, n)
    requires var gl := FindCart(carts, n, orgId, Guest(guestId), activeOnly);
      gl.None? || ItemsOf(items, n, gl.value) == []
    ensures var gl := FindCart(carts, n, orgId, Guest(guestId), activeOnly);
      var o := MergeGuest(carts, items, n, activeOnly, orgId, guestId, userId);
      && o.items == items && n <= o.next <= n + 1
      && (gl.Some? ==> gl.value !in o.carts)
      && (forall id :: id in carts && gl != Some(id) ==> id in o.carts && o.carts[id] == carts[id])
      && (forall id :: id in o.carts && id !in carts ==> o.carts[id].guestId == None)
  {
    var gl := FindCart(carts, n, orgId, Guest(guestId), activeOnly);
    if gl.None? {
      UserCartKeeps(carts, items, n, activeOnly, orgId, userId);
    } else {
      DropEmptyCart(carts, items, n, gl.value);
      UserCartKeeps(carts - {gl.value}, items, n, activeOnly, orgId, userId);
      NoCartAtOrAbove(carts, items, n, gl.value);
    }
  }

  /** No cart of a valid store has an id at or above the counter. */
  lemma NoCartAtOrAbove(carts: map<Id, Cart>, items: map<Id, CartItem>, n: nat, k: Id)
    requires StoreInvariant(carts, items, n) && k in carts
    ensures k < n
  {
  }

  // ---- Running the merge twice ----

  /** At most one cart of the organisation is one the guest lookup can match:
      the state the merge's retry contract is stated for. */
  predicate GuestLookupUnique(carts: map<Id, Cart>, orgId: string, guestId: string, activeOnly: bool) {
    forall i, j | i in carts && j in carts ::
      OwnedBy(carts[i], orgId, Guest(guestId), activeOnly) && OwnedBy(carts[j], orgId, Guest(guestId), activeOnly) ==> i == j
  }

  /** From a settled store the guest lookup finds nothing in, a second merge
      changes nothing. */
  lemma RetryWithoutGuest(carts: map<Id, Cart>, items: map<Id, CartItem>, n: nat, activeOnly: bool,
                          orgId: string, guestId: string, userId: string)
    requires StoreInvariant(carts, items, n)
    requires FindCart(carts, n, orgId, Guest(guestId), activeOnly).None?
    ensures var o1 := UserCartOutcome(carts, items, n, activeOnly, orgId, userId);
      MergeGuest(o1.carts, o1.items, o1.next, activeOnly, orgId, guestId, userId) == o1
  {
    var o1 := UserCartOutcome(carts, items, n, activeOnly, orgId, userId);
    UserCartKeeps(carts, items, n, activeOnly, orgId, userId);
    UserCartOfSettled(o1, activeOnly, orgId, userId);
  }

  /** Once the unique guest cart gid is deleted, the guest lookup finds nothing. */
  lemma NoGuestAfterDrop(carts: map<Id, Cart>, n: nat, orgId: string, guestId: string, activeOnly: bool, gid: Id)
    requires GuestLookupUnique(carts, orgId, guestId, activeOnly)
    requires gid in carts && OwnedBy(carts[gid], orgId, Guest(guestId), activeOnly)
    ensures FindCart(carts - {gid}, n, orgId, Guest(guestId), activeOnly).None?
  {
  }

  /** After a merge into a different cart, the guest lookup finds nothing when
      it only matches ACTIVE carts, and the tombstone otherwise. */
  lemma GuestAfterMerge(carts: map<Id, Cart>, o: MergeOutcome, n2: nat, orgId: string, guestId: string,
                        activeOnly: bool, gid: Id)
    requires GuestLookupUnique(carts, orgId, guestId, activeOnly)
    requires gid in carts && OwnedBy(carts[gid], orgId, Guest(guestId), activeOnly) && gid < n2
    requires MergeKeeps(carts, gid, o) && o.view.cart.guestId == None
    requires gid in o.carts && o.carts[gid] == carts[gid].(status := MergedToUserCart)
    ensures FindCart(o.carts, n2, orgId, Guest(guestId), activeOnly) == if activeOnly then None else Some(gid)
  {
    forall j | j in o.carts && j != gid
      ensures !OwnedBy(o.carts[j], orgId, Guest(guestId), activeOnly)
    {
      if j != o.view.cart.cartId {
        assert o.carts[j] == carts[j];
      }
    }
    if !activeOnly {
      FindCartIs(o.carts, n2, orgId, Guest(guestId), activeOnly, gid);
    }
  }

  /** The user lookup still finds cart c once another cart is deleted. */
  lemma FindAfterDelete(carts: map<Id, Cart>, n: nat, orgId: string, a: Actor, activeOnly: bool, c: Id, k: Id)
    requires FindCart(carts, n, orgId, a, activeOnly) == Some(c) && k != c
    ensures FindCart(carts - {k}, n, orgId, a, activeOnly) == Some(c)
  {
    FindCartIs(carts - {k}, n, orgId, a, activeOnly, c);
  }

  /** The retry after a merge into a different cart: nothing changes when the
      guest lookup only matches ACTIVE carts; otherwise it finds the
      tombstone, which has no items, deletes it and returns the same cart. */
  lemma RetryAfterMerge(carts: map<Id, Cart>, items: map<Id, CartItem>, n: nat, activeOnly: bool,
                        orgId: string, guestId: string, userId: string, gid: Id)
    requires StoreInvariant(carts, items, n) && GuestLookupUnique(carts, orgId, guestId, activeOnly)
    requires FindCart(carts, n, orgId, Guest(guestId), activeOnly) == Some(gid)
    requires FindCart(carts, n, orgId, User(userId), activeOnly) != Some(gid)
    ensures var o1 := MergeCarts(carts, items, n, orgId, userId, gid, FindCart(carts, n, orgId, User(userId), activeOnly));
      var o2 := MergeGuest(o1.carts, o1.items, o1.next, activeOnly, orgId, guestId, userId);
      && (activeOnly ==> o2 == o1)
      && (!activeOnly ==> o2 == o1.(carts := o1.carts - {gid}))
      && gid in o1.carts && o1.carts[gid].status == MergedToUserCart && ItemsOf(o1.items, o1.next, gid) == []
  {
    var o1 := MergeCarts(carts, items, n, orgId, userId, gid, FindCart(carts, n, orgId, User(userId), activeOnly));
    MergeCartsSettles(carts, items, n, activeOnly, orgId, userId, gid);
    NoCartAtOrAbove(o1.carts, o1.items, o1.next, gid);
    GuestAfterMerge(carts, o1, o1.next, orgId, guestId, activeOnly, gid);
    if activeOnly {
      UserCartOfSettled(o1, activeOnly, orgId, userId);
    } else {
      var cU := o1.view.cart.cartId;
      FindAfterDelete(o1.carts, o1.next, orgId, User(userId), activeOnly, cU, gid);
    }
  }

  /** The retry after the guest cart turned out to be the user's own cart:
      its guestId is cleared, so the guest lookup finds nothing, and the user
      lookup finds the same cart. */
  lemma RetryAfterSelf(carts: map<Id, Cart>, items: map<Id, CartItem>, n: nat, activeOnly: bool,
                       orgId: string, guestId: string, userId: string, gid: Id)
    requires StoreInvariant(carts, items, n) && GuestLookupUnique(carts, orgId, guestId, activeOnly)
    requires FindCart(carts, n, orgId, Guest(guestId), activeOnly) == Some(gid) && ItemsOf(items, n, gid) != []
    requires FindCart(carts, n, orgId, User(userId), activeOnly) == Some(gid)
    ensures var o1 := MergeCartsFixed(carts, items, n, orgId, userId, gid, Some(gid));
      MergeGuest(o1.carts, o1.items, o1.next, activeOnly, orgId, guestId, userId) == o1
  {
    var o1 := MergeCartsFixed(carts, items, n, orgId, userId, gid, Some(gid));
    MergeGuestSettles(carts, items, n, activeOnly, orgId, guestId, userId);
    assert MergeGuest(carts, items, n, activeOnly, orgId, guestId, userId) == o1;
    assert FindCart(o1.carts, o1.next, orgId, Guest(guestId), activeOnly).None?;
    UserCartOfSettled(o1, activeOnly, orgId, userId);
  }

  /** Running the merge a second time with the same arguments returns the same
      cart with the same items, changes no item and no id, and at most deletes
      the item-less MERGED_TO_USER_CART tombstone the first run left (which
      only a lookup that also matches non-ACTIVE carts finds again); when the
      lookups only match ACTIVE carts it changes nothing at all. This holds
      whenever at most one cart of the organisation is one the guest lookup
      can match. */
  lemma MergeGuestIdempotent(carts: map<Id, Cart>, items: map<Id, CartItem>, n: nat, activeOnly: bool,
                             orgId: string, guestId: string, userId: string)
    requires StoreInvariant(carts, items, n) && GuestLookupUnique(carts, orgId, guestId, activeOnly)
    ensures var o1 := MergeGuest(carts, items, n, activeOnly, orgId, guestId, userId);
      var o2 := MergeGuest(o1.carts, o1.items, o1.next, activeOnly, orgId, guestId, userId);
      && o2.view == o1.view && o2.items == o1.items && o2.next == o1.next
      && (activeOnly ==> o2 == o1)
      && (|| o2.carts == o1.carts
          || exists k | k in o1.carts ::
               o1.carts[k].status == MergedToUserCart && ItemsOf(o1.items, o1.next, k) == [] && o2.carts == o1.carts - {k})
  {
    var gl := FindCart(carts, n, orgId, Guest(guestId), activeOnly);
    if gl.None? {
      RetryWithoutGuest(carts, items, n, activeOnly, orgId, guestId, userId);
    } else if ItemsOf(items, n, gl.value) == [] {
      DropEmptyCart(carts, items, n, gl.value);
      NoGuestAfterDrop(carts, n, orgId, guestId, activeOnly, gl.value);
      RetryWithoutGuest(carts - {gl.value}, items, n, activeOnly, orgId, guestId, userId);
    } else if FindCart(carts, n, orgId, User(userId), activeOnly) == Some(gl.value) {
      RetryAfterSelf(carts, items, n, activeOnly, orgId, guestId, userId, gl.value);
    } else {
      RetryAfterMerge(carts, items, n, activeOnly, orgId, guestId, userId, gl.value);
    }
  }

  // ---- Two carts the guest lookup can match ----

  /** A store with two carts carrying guestId "g": cart 0 of the guest alone,
      and cart 2 of user "v", which addItemToCart creates when it is given
      both ids. User "u" has no cart. */
  function TwoGuestCarts(): (carts: map<Id, Cart>)
  {
    map[0 := Cart(0, "org", None, Some("g"), Active, 1, 100),
        2 := Cart(2, "org", Some("v"), Some("g"), Active, 1, 100)]
  }

  function TwoGuestItems(): (items: map<Id, CartItem>)
  {
    map[1 := CartItem(1, "org", 0, "p", "Soap", 100, 1, 100),
        3 := CartItem(3, "org", 2, "q", "Brush", 100, 1, 100)]
  }

  /** The line of each cart of TwoGuestCarts. */
  lemma TwoGuestLines()
    ensures ItemsOf(TwoGuestItems(), 4, 0) == [CartItem(1, "org", 0, "p", "Soap", 100, 1, 100)]
    ensures ItemsOf(TwoGuestItems(), 4, 2) == [CartItem(3, "org", 2, "q", "Brush", 100, 1, 100)]
  {
    var items := TwoGuestItems();
    assert ItemsOf(items, 1, 0) == [] && ItemsOf(items, 1, 2) == [];
    assert ItemsOf(items, 2, 0) == [items[1]] && ItemsOf(items, 2, 2) == [];
    assert ItemsOf(items, 3, 0) == [items[1]] && ItemsOf(items, 3, 2) == [];
  }

  /** The totals of a list of one line are that line's. */
  lemma OneLineTotals(x: CartItem)
    ensures TotalQuantity([x]) == x.quantity && TotalPrice([x]) == x.itemTotalPrice
  {
    assert [x][1..] == [];
  }

  /** The store of TwoGuestCarts is a valid one. */
  lemma TwoGuestStore()
    ensures StoreInvariant(TwoGuestCarts(), TwoGuestItems(), 4)
  {
    TwoGuestLines();
    var x := CartItem(1, "org", 0, "p", "Soap", 100, 1, 100);
    var y := CartItem(3, "org", 2, "q", "Brush", 100, 1, 100);
    OneLineTotals(x);
    OneLineTotals(y);
    assert LineTotal(100, 1) == 100 by {
      LineTotalIsProduct(100, 1);
    }
  }

  /** The first merge to "u" finds cart 0 and merges it into a new cart 4;
      cart 2 is left as it was, with its line. */
  lemma FirstMergeOfTwo()
    ensures var o1 := MergeGuestAsWritten(TwoGuestCarts(), TwoGuestItems(), 4, true, "org", "g", "u");
      && o1 == MergeGuest(TwoGuestCarts(), TwoGuestItems(), 4, true, "org", "g", "u")
      && Settled(o1, true, "org", "u") && o1.view.cart.cartId == 4
      && 2 in o1.carts && o1.carts[2] == TwoGuestCarts()[2]
      && 0 in o1.carts && o1.carts[0].status == MergedToUserCart && 1 !in o1.carts
      && ItemsOf(o1.items, o1.next, 2) != []
  {
    var carts, items := TwoGuestCarts(), TwoGuestItems();
    TwoGuestStore();
    TwoGuestLines();
    assert FindCart(carts, 4, "org", User("u"), true).None?;
    FirstMergeOfTwoIs();
    FirstMergeOfTwoKeeps(carts, items);
  }

  /** Both merges of the store of TwoGuestCarts to "u" are MergeCarts of
      cart 0 into a new cart. */
  lemma FirstMergeOfTwoIs()
    ensures var o := MergeCarts(TwoGuestCarts(), TwoGuestItems(), 4, "org", "u", 0, None);
      && MergeGuestAsWritten(TwoGuestCarts(), TwoGuestItems(), 4, true, "org", "g", "u") == o
      && MergeGuest(TwoGuestCarts(), TwoGuestItems(), 4, true, "org", "g", "u") == o
  {
    var carts := TwoGuestCarts();
    TwoGuestLines();
    FindCartIs(carts, 4, "org", Guest("g"), true, 0);
    assert FindCart(carts, 4, "org", User("u"), true).None?;
  }

  /** What MergeCarts of cart 0 into a new cart 4 leaves of a store with
      carts 0 and 2 below id 4. */
  lemma FirstMergeOfTwoKeeps(carts: map<Id, Cart>, items: map<Id, CartItem>)
    requires StoreInvariant(carts, items, 4) && 0 in carts && 2 in carts && 1 !in carts
    requires FindCart(carts, 4, "org", User("u"), true).None? && ItemsOf(items, 4, 2) != []
    ensures var o1 := MergeCarts(carts, items, 4, "org", "u", 0, None);
      && Settled(o1, true, "org", "u") && o1.view.cart.cartId == 4
      && 2 in o1.carts && o1.carts[2] == carts[2]
      && 0 in o1.carts && o1.carts[0].status == MergedToUserCart && 1 !in o1.carts
      && ItemsOf(o1.items, o1.next, 2) != []
  {
    MergeCartsSettles(carts, items, 4, true, "org", "u", 0);
    MergedUserCart(carts, items, 4, "org", "u", 0, None);
    MergeLeavesOther(carts, items, 4, true, "org", "u", 0, 2);
  }

  /** The retry after FirstMergeOfTwo finds cart 2 and merges it too. */
  lemma RetryOfTwo(o1: MergeOutcome)
    requires Settled(o1, true, "org", "u") && o1.view.cart.cartId == 4
    requires 2 in o1.carts && o1.carts[2] == Cart(2, "org", Some("v"), Some("g"), Active, 1, 100)
    requires 0 in o1.carts && o1.carts[0].status == MergedToUserCart && 1 !in o1.carts
    requires ItemsOf(o1.items, o1.next, 2) != []
    ensures var o2 := MergeGuestAsWritten(o1.carts, o1.items, o1.next, true, "org", "g", "u");
      && FindCart(o1.carts, o1.next, "org", Guest("g"), true) == Some(2)
      && o2 == MergeGuest(o1.carts, o1.items, o1.next, true, "org", "g", "u")
      && 2 in o2.carts && o2.carts[2].status == MergedToUserCart && ItemsOf(o2.items, o2.next, 2) == []
  {
    NoCartAtOrAbove(o1.carts, o1.items, o1.next, 2);
    FindCartIs(o1.carts, o1.next, "org", Guest("g"), true, 2);
    MergeCartsSettles(o1.carts, o1.items, o1.next, true, "org", "u", 2);
  }

  /** With two carts the guest lookup can match, the merge to "u" is not
      idempotent: the first run merges cart 0, and a second run with the same
      arguments finds cart 2, still ACTIVE with its line, and merges user
      "v"'s cart into "u"'s as well. The corrected merge does the same. */
  lemma SecondMergeMergesAgain()
    ensures !GuestLookupUnique(TwoGuestCarts(), "org", "g", true)
    ensures var o1 := MergeGuestAsWritten(TwoGuestCarts(), TwoGuestItems(), 4, true, "org", "g", "u");
      var o2 := MergeGuestAsWritten(o1.carts, o1.items, o1.next, true, "org", "g", "u");
      && o1 == MergeGuest(TwoGuestCarts(), TwoGuestItems(), 4, true, "org", "g", "u")
      && o2 == MergeGuest(o1.carts, o1.items, o1.next, true, "org", "g", "u")
      && FindCart(o1.carts, o1.next, "org", Guest("g"), true) == Some(2)
      && o1.carts[2].status == Active && ItemsOf(o1.items, o1.next, 2) != []
      && o2.carts[2].status == MergedToUserCart && ItemsOf(o2.items, o2.next, 2) == []
      && o2 != o1
  {
    var carts := TwoGuestCarts();
    assert OwnedBy(carts[0], "org", Guest("g"), true) && OwnedBy(carts[2], "org", Guest("g"), true);
    FirstMergeOfTwo();
    RetryOfTwo(MergeGuestAsWritten(TwoGuestCarts(), TwoGuestItems(), 4, true, "org", "g", "u"));
  }
}
