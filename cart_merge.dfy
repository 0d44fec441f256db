/** The loop of mergeGuestCart on values: each guest line is folded into the
    user's cart, then deleted. The lemmas say what the whole loop does when
    the two carts differ, and what it does when the guest lookup and the user
    lookup return the same cart. */
module CartMerge {
  import opened Wrappers
  import opened CartModel
  import opened CartSteps

  /** The item collection and the id counter while the loop runs. */
  datatype Folded = Folded(items: map<Id, CartItem>, next: nat)

  /** A user line after the guest quantity q is added: setQuantity, then the
      total re-computed at the line's own snapshot price. */
  function Grow(x: CartItem, q: int): (r: CartItem)
    ensures r.cartItemId == x.cartItemId && r.cartId == x.cartId && r.productId == x.productId
    ensures r.quantity == x.quantity + q && r.itemTotalPrice == LineTotal(r.priceAtAddToCart, r.quantity)
  {
    x.(quantity := x.quantity + q, itemTotalPrice := LineTotal(x.priceAtAddToCart, x.quantity + q))
  }

  /** A guest line copied into the user cart under a fresh id: product, name,
      snapshot price, quantity and total are the guest line's. */
  function Copied(g: CartItem, id: Id, orgId: string, cU: Id): CartItem {
    CartItem(id, orgId, cU, g.productId, g.productName, g.priceAtAddToCart, g.quantity, g.itemTotalPrice)
  }

  /** One iteration for guest line g. The product is looked up in the user's
      item list as it was read before the loop. A match re-reads that
      document and grows it by the guest quantity; no match copies the guest
      line into the user cart under a fresh id. Either way the guest line's
      document is deleted. (A re-read that finds no document would raise a
      NullPointerException in the service; the lemmas below show the
      document is always there.) */
  function MergeLine(f: Folded, orgId: string, cU: Id, userItems: seq<CartItem>, g: CartItem): (r: Folded)
    ensures g.cartItemId !in r.items
    ensures r.next == f.next || r.next == f.next + 1
  {
    var placed :=
      match FirstWithProduct(userItems, g.productId)
      case Some(e) =>
        if e.cartItemId in f.items then Folded(f.items[e.cartItemId := Grow(f.items[e.cartItemId], g.quantity)], f.next)
        else f
      case None =>
        Folded(f.items[f.next := Copied(g, f.next, orgId, cU)], f.next + 1);
    Folded(placed.items - {g.cartItemId}, placed.next)
  }

  /** The loop over the guest lines, in order. */
  function FoldGuest(f: Folded, orgId: string, cU: Id, userItems: seq<CartItem>, guest: seq<CartItem>): (r: Folded)
    ensures f.next <= r.next <= f.next + |guest|
    decreases |guest|
  {
    if guest == [] then f
    else MergeLine(FoldGuest(f, orgId, cU, userItems, guest[..|guest| - 1]), orgId, cU, userItems, guest[|guest| - 1])
  }

  /** Every stored item is well formed below the counter. */
  predicate AllItemsOk(items: map<Id, CartItem>, n: nat) {
    forall k :: k in items ==> ItemOk(n, k, items[k])
  }

  /** The items of carts outside t. */
  function Others(m: map<Id, CartItem>, t: set<Id>): map<Id, CartItem> {
    map k | k in m && m[k].cartId !in t :: m[k]
  }

  lemma OthersAfterSet(m: map<Id, CartItem>, k: Id, y: CartItem, t: set<Id>)
    requires (k !in m || m[k].cartId in t) && y.cartId in t
    ensures Others(m[k := y], t) == Others(m, t)
  {
  }

  lemma OthersAfterDelete(m: map<Id, CartItem>, k: Id, t: set<Id>)
    requires k !in m || m[k].cartId in t
    ensures Others(m - {k}, t) == Others(m, t)
  {
  }

  lemma OthersChangedOnlyIn(a: map<Id, CartItem>, b: map<Id, CartItem>, t: set<Id>)
    requires Others(a, t) == Others(b, t)
    ensures ChangedOnlyIn(a, b, t)
  {
    forall k | k in a || k in b
      ensures || (k in a && k in b && a[k] == b[k])
              || ((k in a ==> a[k].cartId in t) && (k in b ==> b[k].cartId in t))
    {
      assert k in a && a[k].cartId !in t ==> k in Others(a, t);
      assert k in b && b[k].cartId !in t ==> k in Others(b, t);
    }
  }

  /** Every item of cart cU stored before the loop is still stored, in cU,
      with the same product. */
  ghost predicate KeepsUserLines(items0: map<Id, CartItem>, m: map<Id, CartItem>, cU: Id) {
    forall k :: k in items0 && items0[k].cartId == cU ==>
      k in m && m[k].cartId == cU && m[k].productId == items0[k].productId
  }

  /** What every iteration keeps: only the items of the user cart cU and the
      guest cart cG changed, every item is well formed, each cart holds one
      line per product, and the user lines read before the loop are still
      there. */
  ghost predicate Shape(items0: map<Id, CartItem>, cU: Id, cG: Id, m: map<Id, CartItem>, n: nat) {
    && Others(m, {cU, cG}) == Others(items0, {cU, cG})
    && AllItemsOk(m, n)
    && OneLinePerProduct(m)
    && KeepsUserLines(items0, m, cU)
  }

  /** The loop state when the guest cart still holds `rest` and the user cart's
      basket is `want`. */
  ghost predicate Stage(items0: map<Id, CartItem>, n0: nat, cU: Id, cG: Id,
                        rest: seq<CartItem>, want: map<string, Line>, f: Folded) {
    && n0 <= f.next
    && Shape(items0, cU, cG, f.items, f.next)
    && ItemsOf(f.items, f.next, cG) == rest
    && Basket(ItemsOf(f.items, f.next, cU)) == want
  }

  /** A basket after folding in one guest line. */
  function Absorb(want: map<string, Line>, x: CartItem): map<string, Line> {
    want[x.productId := if x.productId in want then Combine(want[x.productId], LineOf(x)) else LineOf(x)]
  }

  /** The state both merge lemmas start from. */
  predicate MergeStart(items0: map<Id, CartItem>, n0: nat) {
    AllItemsOk(items0, n0) && OneLinePerProduct(items0)
  }

  /** Merging the guest cart cG into a different user cart cU: afterwards the
      user cart's basket is the user basket merged with the guest basket, the
      guest cart has no items, every item is well formed, each cart holds one
      line per product, and the items of no other cart changed. */
  lemma MergeFold(items0: map<Id, CartItem>, n0: nat, orgId: string, cU: Id, cG: Id)
    requires MergeStart(items0, n0) && cU != cG
    ensures var u, g := ItemsOf(items0, n0, cU), ItemsOf(items0, n0, cG);
      var f := FoldGuest(Folded(items0, n0), orgId, cU, u, g);
      && n0 <= f.next
      && Basket(ItemsOf(f.items, f.next, cU)) == MergeBaskets(Basket(u), Basket(g))
      && ItemsOf(f.items, f.next, cG) == []
      && ChangedOnlyIn(items0, f.items, {cU, cG})
      && AllItemsOk(f.items, f.next)
      && OneLinePerProduct(f.items)
  {
    var u, g := ItemsOf(items0, n0, cU), ItemsOf(items0, n0, cG);
    FoldPrefix(items0, n0, orgId, cU, cG, |g|);
    assert g[..|g|] == g;
    assert g[|g|..] == [];
    var f := FoldGuest(Folded(items0, n0), orgId, cU, u, g);
    OthersChangedOnlyIn(items0, f.items, {cU, cG});
  }

  lemma {:induction false} FoldPrefix(items0: map<Id, CartItem>, n0: nat, orgId: string, cU: Id, cG: Id, i: nat)
    requires MergeStart(items0, n0) && cU != cG
    requires i <= |ItemsOf(items0, n0, cG)|
    ensures var u, g := ItemsOf(items0, n0, cU), ItemsOf(items0, n0, cG);
      Stage(items0, n0, cU, cG, g[i..], MergeBaskets(Basket(u), Basket(g[..i])),
            FoldGuest(Folded(items0, n0), orgId, cU, u, g[..i]))
  {
    var u, g := ItemsOf(items0, n0, cU), ItemsOf(items0, n0, cG);
    if i == 0 {
      assert g[..0] == [] && g[0..] == g;
      MergeWithNothing(Basket(u));
      assert FoldGuest(Folded(items0, n0), orgId, cU, u, g[..0]) == Folded(items0, n0);
    } else {
      var j: nat :| j + 1 == i;
      FoldPrefix(items0, n0, orgId, cU, cG, j);
      var f := FoldGuest(Folded(items0, n0), orgId, cU, u, g[..j]);
      assert g[..i][..j] == g[..j] && g[..i][j] == g[j];
      assert FoldGuest(Folded(items0, n0), orgId, cU, u, g[..i]) == MergeLine(f, orgId, cU, u, g[j]);
      PrefixFacts(items0, n0, cU, cG, j);
      StageStep(items0, n0, orgId, cU, cG, u, g[j], g[i..], MergeBaskets(Basket(u), Basket(g[..j])), f);
    }
  }

  /** The guest lines as the loop meets them: each is followed only by lines
      with other ids, its product is new among the lines before it, it has a
      user line exactly when the merged basket so far has its product, and
      folding it in gives the merged basket one line further. */
  lemma PrefixFacts(items0: map<Id, CartItem>, n0: nat, cU: Id, cG: Id, j: nat)
    requires MergeStart(items0, n0) && cU != cG
    requires j < |ItemsOf(items0, n0, cG)|
    ensures var u, g := ItemsOf(items0, n0, cU), ItemsOf(items0, n0, cG);
      var want := MergeBaskets(Basket(u), Basket(g[..j]));
      && g[j..] == [g[j]] + g[j + 1..]
      && (forall y :: y in g[j + 1..] ==> y.cartItemId != g[j].cartItemId)
      && (g[j].productId in want <==> FirstWithProduct(u, g[j].productId).Some?)
      && Absorb(want, g[j]) == MergeBaskets(Basket(u), Basket(g[..j + 1]))
  {
    var u, g := ItemsOf(items0, n0, cU), ItemsOf(items0, n0, cG);
    var x, p := g[j], g[j].productId;
    assert WellKeyed(items0);
    assert g[j..] == [g[j]] + g[j + 1..];
    ItemsOfOrdered(items0, n0, cG);
    forall y | y in g[j + 1..] ensures y.cartItemId != x.cartItemId {
      var k :| 0 <= k < |g[j + 1..]| && g[j + 1..][k] == y;
      assert y == g[j + 1 + k];
    }
    ItemsOfDistinctProducts(items0, n0, cG);
    BasketKeys(g[..j]);
    assert p !in Basket(g[..j]);
    BasketKeys(u);
    assert g[..j + 1] == g[..j] + [x];
    BasketSnoc(g[..j], x);
    MergeBasketsStep(Basket(u), Basket(g[..j]), p, LineOf(x));
  }

  /** One iteration of the loop, for a guest line x at the head of what the
      guest cart still holds. */
  lemma StageStep(items0: map<Id, CartItem>, n0: nat, orgId: string, cU: Id, cG: Id,
                  u: seq<CartItem>, x: CartItem, rest: seq<CartItem>, want: map<string, Line>, f: Folded)
    requires WellKeyed(items0) && u == ItemsOf(items0, n0, cU) && cU != cG
    requires Stage(items0, n0, cU, cG, [x] + rest, want, f)
    requires forall y :: y in rest ==> y.cartItemId != x.cartItemId
    requires x.productId in want <==> FirstWithProduct(u, x.productId).Some?
    ensures Stage(items0, n0, cU, cG, rest, Absorb(want, x), MergeLine(f, orgId, cU, u, x))
  {
    GuestHeadStored(f.items, f.next, cG, x, rest);
    match FirstWithProduct(u, x.productId)
    case Some(e) =>
      UserLineStored(items0, n0, cU, f.items, e);
      StepGrow(items0, n0, cU, cG, x, rest, want, f, e.cartItemId);
      MergeLineGrows(f, orgId, cU, u, x, e);
    case None =>
      StepCopy(items0, n0, orgId, cU, cG, u, x, rest, want, f);
  }

  lemma MergeLineGrows(f: Folded, orgId: string, cU: Id, u: seq<CartItem>, x: CartItem, e: CartItem)
    requires FirstWithProduct(u, x.productId) == Some(e) && e.cartItemId in f.items
    ensures MergeLine(f, orgId, cU, u, x) ==
      Folded(f.items[e.cartItemId := Grow(f.items[e.cartItemId], x.quantity)] - {x.cartItemId}, f.next)
  {
  }

  lemma MergeLineCopies(f: Folded, orgId: string, cU: Id, u: seq<CartItem>, x: CartItem)
    requires FirstWithProduct(u, x.productId).None? && x.cartItemId != f.next
    ensures MergeLine(f, orgId, cU, u, x) ==
      Folded((f.items - {x.cartItemId})[f.next := Copied(x, f.next, orgId, cU)], f.next + 1)
  {
    DeleteThenStore(f.items, x.cartItemId, f.next, Copied(x, f.next, orgId, cU));
  }

  /** The head of a cart's query result is stored under its id, in that cart,
      and well formed. */
  lemma GuestHeadStored(m: map<Id, CartItem>, n: nat, cG: Id, x: CartItem, rest: seq<CartItem>)
    requires AllItemsOk(m, n) && ItemsOf(m, n, cG) == [x] + rest
    ensures x.cartItemId in m && m[x.cartItemId] == x && x.cartId == cG && ItemOk(n, x.cartItemId, x)
  {
    assert WellKeyed(m);
    ItemsOfMembers(m, n, cG);
    assert x in [x] + rest;
  }

  /** A user line read before the loop is still stored in the user cart. */
  lemma UserLineStored(items0: map<Id, CartItem>, n0: nat, cU: Id, m: map<Id, CartItem>, e: CartItem)
    requires WellKeyed(items0) && e in ItemsOf(items0, n0, cU) && KeepsUserLines(items0, m, cU)
    ensures e.cartItemId in m && m[e.cartItemId].cartId == cU && m[e.cartItemId].productId == e.productId
  {
    ItemsOfMembers(items0, n0, cU);
  }

  /** The iteration for a guest product the user cart already has under k. */
  lemma StepGrow(items0: map<Id, CartItem>, n0: nat, cU: Id, cG: Id,
                 x: CartItem, rest: seq<CartItem>, want: map<string, Line>, f: Folded, k: Id)
    requires cU != cG
    requires Stage(items0, n0, cU, cG, [x] + rest, want, f)
    requires forall y :: y in rest ==> y.cartItemId != x.cartItemId
    requires x.cartItemId in f.items && f.items[x.cartItemId] == x && x.cartId == cG && ItemOk(f.next, x.cartItemId, x)
    requires k in f.items && f.items[k].cartId == cU && f.items[k].productId == x.productId
    ensures Stage(items0, n0, cU, cG, rest, Absorb(want, x),
                  Folded(f.items[k := Grow(f.items[k], x.quantity)] - {x.cartItemId}, f.next))
  {
    var m := f.items[k := Grow(f.items[k], x.quantity)];
    GrowShape(items0, cU, cG, f.items, f.next, k, x);
    GrowBasket(f.items, f.next, cU, k, x, want);
    DeleteLine(items0, cU, cG, x, rest, Folded(m, f.next));
  }

  /** Growing a stored user line keeps the shape, leaves the guest query
      alone and leaves the guest line stored. */
  lemma GrowShape(items0: map<Id, CartItem>, cU: Id, cG: Id, m: map<Id, CartItem>, n: nat, k: Id, x: CartItem)
    requires cU != cG && Shape(items0, cU, cG, m, n)
    requires k in m && m[k].cartId == cU
    requires x.cartItemId in m && m[x.cartItemId] == x && x.cartId == cG && x.quantity >= 1
    ensures var m' := m[k := Grow(m[k], x.quantity)];
      && Shape(items0, cU, cG, m', n)
      && ItemsOf(m', n, cG) == ItemsOf(m, n, cG)
      && x.cartItemId in m' && m'[x.cartItemId] == x
  {
    var y := Grow(m[k], x.quantity);
    assert ItemOk(n, k, m[k]);
    OthersAfterSet(m, k, y, {cU, cG});
    OneLineAfterSet(m, k, y);
    ItemsOfSetOther(m, n, cG, k, y);
  }

  /** ... and the user basket absorbs the guest line. */
  lemma GrowBasket(m: map<Id, CartItem>, n: nat, cU: Id, k: Id, x: CartItem, want: map<string, Line>)
    requires AllItemsOk(m, n) && OneLinePerProduct(m)
    requires Basket(ItemsOf(m, n, cU)) == want
    requires k in m && m[k].cartId == cU && m[k].productId == x.productId
    ensures Basket(ItemsOf(m[k := Grow(m[k], x.quantity)], n, cU)) == Absorb(want, x)
  {
    var s := ItemsOf(m, n, cU);
    assert WellKeyed(m);
    ItemsOfMembers(m, n, cU);
    ItemsOfDistinctProducts(m, n, cU);
    assert ItemOk(n, k, m[k]);
    assert m[k] in s;
    var j :| 0 <= j < |s| && s[j] == m[k];
    BasketAt(s, j);
    BasketOfItemsSet(m, n, cU, k, Grow(m[k], x.quantity));
  }

  /** The iteration for a guest product the user cart lacks. */
  lemma StepCopy(items0: map<Id, CartItem>, n0: nat, orgId: string, cU: Id, cG: Id, u: seq<CartItem>,
                 x: CartItem, rest: seq<CartItem>, want: map<string, Line>, f: Folded)
    requires cU != cG
    requires Stage(items0, n0, cU, cG, [x] + rest, want, f)
    requires forall y :: y in rest ==> y.cartItemId != x.cartItemId
    requires x.cartItemId in f.items && f.items[x.cartItemId] == x && x.cartId == cG && ItemOk(f.next, x.cartItemId, x)
    requires FirstWithProduct(u, x.productId).None? && x.productId !in want
    ensures Stage(items0, n0, cU, cG, rest, Absorb(want, x), MergeLine(f, orgId, cU, u, x))
  {
    DeleteStage(items0, n0, cU, cG, x, rest, want, f.items, f.next);
    CopyStage(items0, n0, orgId, cU, cG, x, rest, want, Folded(f.items - {x.cartItemId}, f.next));
    MergeLineCopies(f, orgId, cU, u, x);
  }

  /** The copy half of StepCopy: the user basket absorbs the guest line,
      the guest cart is untouched. */
  lemma CopyStage(items0: map<Id, CartItem>, n0: nat, orgId: string, cU: Id, cG: Id,
                  x: CartItem, rest: seq<CartItem>, want: map<string, Line>, f: Folded)
    requires cU != cG
    requires Stage(items0, n0, cU, cG, rest, want, f)
    requires ItemOk(f.next, x.cartItemId, x) && x.productId !in want
    ensures Stage(items0, n0, cU, cG, rest, Absorb(want, x),
                  Folded(f.items[f.next := Copied(x, f.next, orgId, cU)], f.next + 1))
  {
    CopyShape(items0, orgId, cU, cG, x, want, f);
    CopyBasket(orgId, cU, cG, x, want, f);
  }

  /** The delete half of StepCopy: the guest line goes, nothing else moves. */
  lemma DeleteStage(items0: map<Id, CartItem>, n0: nat, cU: Id, cG: Id,
                    x: CartItem, rest: seq<CartItem>, want: map<string, Line>, m: map<Id, CartItem>, next: nat)
    requires cU != cG
    requires Stage(items0, n0, cU, cG, [x] + rest, want, Folded(m, next))
    requires x.cartItemId in m && m[x.cartItemId] == x && x.cartId == cG
    requires forall y :: y in rest ==> y.cartItemId != x.cartItemId
    ensures Stage(items0, n0, cU, cG, rest, want, Folded(m - {x.cartItemId}, next))
  {
    DeleteLine(items0, cU, cG, x, rest, Folded(m, next));
  }

  /** Deleting one key and storing under another commute. */
  lemma DeleteThenStore(m: map<Id, CartItem>, k: Id, n: Id, y: CartItem)
    requires k != n
    ensures (m - {k})[n := y] == m[n := y] - {k}
  {
  }

  /** Copying the guest line into the user cart keeps the shape of the state. */
  lemma CopyShape(items0: map<Id, CartItem>, orgId: string, cU: Id, cG: Id,
                  x: CartItem, want: map<string, Line>, f: Folded)
    requires Shape(items0, cU, cG, f.items, f.next)
    requires Basket(ItemsOf(f.items, f.next, cU)) == want
    requires ItemOk(f.next, x.cartItemId, x) && x.productId !in want
    ensures Shape(items0, cU, cG, f.items[f.next := Copied(x, f.next, orgId, cU)], f.next + 1)
  {
    NoLineOfProduct(f.items, f.next, cU, x.productId);
    ShapeAfterCopy(items0, cU, cG, f.items, f.next, Copied(x, f.next, orgId, cU));
  }

  /** After the copy, before the guest line is deleted: the guest query is
      unchanged, and the user basket has absorbed the guest line. */
  lemma CopyBasket(orgId: string, cU: Id, cG: Id, x: CartItem, want: map<string, Line>, f: Folded)
    requires cU != cG && AllItemsOk(f.items, f.next)
    requires Basket(ItemsOf(f.items, f.next, cU)) == want
    requires x.productId !in want
    ensures var m := f.items[f.next := Copied(x, f.next, orgId, cU)];
      && ItemsOf(m, f.next + 1, cG) == ItemsOf(f.items, f.next, cG)
      && Basket(ItemsOf(m, f.next + 1, cU)) == Absorb(want, x)
  {
    var y := Copied(x, f.next, orgId, cU);
    CopyQueries(f.items, f.next, cU, cG, y);
    BasketSnoc(ItemsOf(f.items, f.next, cU), y);
  }

  /** Storing a user line at the counter appends it to the user query and
      leaves the guest query alone. */
  lemma CopyQueries(m: map<Id, CartItem>, n: nat, cU: Id, cG: Id, y: CartItem)
    requires AllItemsOk(m, n) && y.cartId == cU && cU != cG
    ensures ItemsOf(m[n := y], n + 1, cG) == ItemsOf(m, n, cG)
    ensures ItemsOf(m[n := y], n + 1, cU) == ItemsOf(m, n, cU) + [y]
  {
    ItemsOfFresh(m, n, cG, y);
    ItemsOfFresh(m, n, cU, y);
  }

  /** A product missing from a cart's basket has no stored line in that cart. */
  lemma NoLineOfProduct(m: map<Id, CartItem>, n: nat, c: Id, p: string)
    requires AllItemsOk(m, n)
    requires p !in Basket(ItemsOf(m, n, c))
    ensures forall j :: j in m ==> !(m[j].cartId == c && m[j].productId == p)
  {
    var s := ItemsOf(m, n, c);
    BasketKeys(s);
    assert WellKeyed(m);
    ItemsOfMembers(m, n, c);
    forall j | j in m && m[j].cartId == c ensures m[j].productId != p {
      assert ItemOk(n, j, m[j]);
      assert m[j] in s;
    }
  }

  /** A well-formed user line stored at the counter keeps the shape. */
  lemma ShapeAfterCopy(items0: map<Id, CartItem>, cU: Id, cG: Id, m: map<Id, CartItem>, n: nat, y: CartItem)
    requires Shape(items0, cU, cG, m, n)
    requires y.cartItemId == n && y.cartId == cU && y.quantity >= 1
    requires y.itemTotalPrice == LineTotal(y.priceAtAddToCart, y.quantity)
    requires forall j :: j in m ==> !(m[j].cartId == cU && m[j].productId == y.productId)
    ensures Shape(items0, cU, cG, m[n := y], n + 1)
  {
    assert n !in m by {
      assert forall j :: j in m ==> ItemOk(n, j, m[j]);
    }
    OthersAfterSet(m, n, y, {cU, cG});
    OneLineAfterFresh(m, n, y);
  }

  /** Deleting the processed guest line leaves the guest cart the lines after
      it, and the user cart untouched. */
  lemma DeleteLine(items0: map<Id, CartItem>, cU: Id, cG: Id, x: CartItem, rest: seq<CartItem>, f1: Folded)
    requires cU != cG
    requires Shape(items0, cU, cG, f1.items, f1.next)
    requires x.cartItemId in f1.items && f1.items[x.cartItemId] == x && x.cartId == cG
    requires ItemsOf(f1.items, f1.next, cG) == [x] + rest
    requires forall y :: y in rest ==> y.cartItemId != x.cartItemId
    ensures var m := f1.items - {x.cartItemId};
      && Shape(items0, cU, cG, m, f1.next)
      && ItemsOf(m, f1.next, cU) == ItemsOf(f1.items, f1.next, cU)
      && ItemsOf(m, f1.next, cG) == rest
  {
    var k := x.cartItemId;
    var m := f1.items - {k};
    OthersAfterDelete(f1.items, k, {cU, cG});
    assert OneLinePerProduct(m) by {
      OneLineAfterDelete(f1.items, k);
    }
    assert KeepsUserLines(items0, m, cU) by {
      forall j | j in items0 && items0[j].cartId == cU
        ensures j in m && m[j].cartId == cU && m[j].productId == items0[j].productId
      {
        assert f1.items[j].cartId == cU;
      }
    }
    ItemsOfDeleteOther(f1.items, f1.next, cU, k);
    assert ItemsOf(m, f1.next, cG) == rest by {
      assert WellKeyed(f1.items);
      WithoutItemOfItems(f1.items, f1.next, cG, k);
      WithoutItemOfConcat([x], rest, k);
      assert forall j :: 0 <= j < |rest| ==> rest[j] in rest;
      WithoutAbsentItem(rest, k);
    }
  }

  /** Filtering out an id no entry carries changes nothing. */
  lemma {:induction false} WithoutAbsentItem(s: seq<CartItem>, k: Id)
    requires forall j :: 0 <= j < |s| ==> s[j].cartItemId != k
    ensures WithoutItem(s, k) == s
  {
    if s != [] {
      WithoutAbsentItem(s[1..], k);
    }
  }

  /** When the guest lookup and the user lookup return the same cart c, every
      guest line finds itself among the user lines, is grown, and is then
      deleted: the loop deletes every item of c and allocates no id. */
  lemma MergeSelf(items0: map<Id, CartItem>, n0: nat, orgId: string, c: Id)
    requires MergeStart(items0, n0)
    ensures var s := ItemsOf(items0, n0, c);
      FoldGuest(Folded(items0, n0), orgId, c, s, s) == Folded(items0 - IdsOf(s), n0)
  {
    var s := ItemsOf(items0, n0, c);
    SelfPrefix(items0, n0, orgId, c, |s|);
    assert s[..|s|] == s;
  }

  lemma {:induction false} SelfPrefix(items0: map<Id, CartItem>, n0: nat, orgId: string, c: Id, i: nat)
    requires MergeStart(items0, n0)
    requires i <= |ItemsOf(items0, n0, c)|
    ensures var s := ItemsOf(items0, n0, c);
      FoldGuest(Folded(items0, n0), orgId, c, s, s[..i]) == Folded(items0 - IdsOf(s[..i]), n0)
  {
    var s := ItemsOf(items0, n0, c);
    if i == 0 {
      assert s[..0] == [];
      assert items0 - IdsOf(s[..0]) == items0;
    } else {
      var j: nat :| j + 1 == i;
      SelfPrefix(items0, n0, orgId, c, j);
      assert s[..i][..j] == s[..j] && s[..i][j] == s[j];
      var f := Folded(items0, n0);
      assert FoldGuest(f, orgId, c, s, s[..i]) == MergeLine(FoldGuest(f, orgId, c, s, s[..j]), orgId, c, s, s[j]);
      SelfStep(items0, n0, orgId, c, s, j);
    }
  }

  lemma SelfStep(items0: map<Id, CartItem>, n0: nat, orgId: string, c: Id, s: seq<CartItem>, i: nat)
    requires MergeStart(items0, n0) && s == ItemsOf(items0, n0, c) && i < |s|
    ensures MergeLine(Folded(items0 - IdsOf(s[..i]), n0), orgId, c, s, s[i]) == Folded(items0 - IdsOf(s[..i + 1]), n0)
  {
    var x := s[i];
    var m := items0 - IdsOf(s[..i]);
    SelfHead(items0, n0, c, s, i);
    SelfDelete(items0, s, i, Grow(m[x.cartItemId], x.quantity));
  }

  /** In the self merge, the guest line met at step i is its own user line,
      still stored. */
  lemma SelfHead(items0: map<Id, CartItem>, n0: nat, c: Id, s: seq<CartItem>, i: nat)
    requires MergeStart(items0, n0) && s == ItemsOf(items0, n0, c) && i < |s|
    ensures FirstWithProduct(s, s[i].productId) == Some(s[i])
    ensures s[i].cartItemId in items0 - IdsOf(s[..i])
  {
    var x := s[i];
    assert WellKeyed(items0);
    ItemsOfMembers(items0, n0, c);
    ItemsOfDistinctProducts(items0, n0, c);
    ItemsOfOrdered(items0, n0, c);
    assert x in s;
    FirstWithProductUnique(s, x);
    forall y | y in s[..i] ensures y.cartItemId != x.cartItemId {
      var j :| 0 <= j < i && s[..i][j] == y;
      assert s[j] == y;
    }
  }

  /** Growing and then deleting the same entry is deleting it. */
  lemma SelfDelete(items0: map<Id, CartItem>, s: seq<CartItem>, i: nat, y: CartItem)
    requires i < |s|
    ensures var m, k := items0 - IdsOf(s[..i]), s[i].cartItemId;
      m[k := y] - {k} == items0 - IdsOf(s[..i + 1])
  {
    var m, k := items0 - IdsOf(s[..i]), s[i].cartItemId;
    assert s[..i + 1] == s[..i] + [s[i]];
    assert IdsOf(s[..i + 1]) == IdsOf(s[..i]) + {k};
  }

  // ---- The whole merge transaction ----

  /** Deleting a cart with no items keeps the invariant. */
  lemma DropEmptyCart(carts: map<Id, Cart>, items: map<Id, CartItem>, n: nat, gid: Id)
    requires StoreInvariant(carts, items, n) && ItemsOf(items, n, gid) == []
    ensures StoreInvariant(carts - {gid}, items, n)
  {
    InvariantAfterRewrite(carts, items, n, carts - {gid}, items, n, {gid});
  }

  /** What the merge writes when the guest cart gid was found and has items:
      the collections after it, the id counter, and the returned view. */
  datatype MergeOutcome = MergeOutcome(carts: map<Id, Cart>, items: map<Id, CartItem>, next: nat, view: CartView)

  /** The user cart and its items as the merge reads them: the cart the user
      lookup found, or a new ACTIVE cart under the next id with no items. */
  function UserSide(carts: map<Id, Cart>, items: map<Id, CartItem>, n: nat, orgId: string, userId: string,
                    userFound: Option<Id>): (r: (Cart, seq<CartItem>, nat))
    requires userFound.Some? ==> userFound.value in carts
    ensures userFound.None? ==> r.0.cartId == n && r.1 == [] && r.2 == n + 1
    ensures userFound.Some? ==> r.0 == carts[userFound.value] && r.1 == ItemsOf(items, n, userFound.value) && r.2 == n
  {
    if userFound.Some? then (carts[userFound.value], ItemsOf(items, n, userFound.value), n)
    else (Cart(n, orgId, Some(userId), None, Active, 0, 0), [], n + 1)
  }

  /** mergeGuestCart past its early exits: fold the guest lines into the user
      cart, re-query the user cart's items for its totals, clear its guestId
      and write it, then write the guest cart as read at the start with status
      MERGED_TO_USER_CART. */
  function MergeCarts(carts: map<Id, Cart>, items: map<Id, CartItem>, n: nat, orgId: string, userId: string,
                      gid: Id, userFound: Option<Id>): (o: MergeOutcome)
    requires gid in carts && (userFound.Some? ==> userFound.value in carts)
    ensures n <= o.next
    ensures gid in o.carts && o.carts[gid] == carts[gid].(status := MergedToUserCart)
  {
    var (user0, userItems, n1) := UserSide(carts, items, n, orgId, userId, userFound);
    var cU := user0.cartId;
    var f := FoldGuest(Folded(items, n1), orgId, cU, userItems, ItemsOf(items, n, gid));
    var fin := ItemsOf(f.items, f.next, cU);
    var user := user0.(totalItems := TotalQuantity(fin), subtotalAmount := TotalPrice(fin), guestId := None);
    MergeOutcome(carts[cU := user][gid := carts[gid].(status := MergedToUserCart)], f.items, f.next, CartView(user, fin))
  }

  /** MergeCarts in terms of the user side and the fold result. */
  lemma MergeCartsUnfold(carts: map<Id, Cart>, items: map<Id, CartItem>, n: nat, orgId: string, userId: string,
                         gid: Id, userFound: Option<Id>, user0: Cart, userItems: seq<CartItem>, n1: nat, f: Folded)
    requires gid in carts && (userFound.Some? ==> userFound.value in carts)
    requires userFound.Some? ==> user0 == carts[userFound.value] && userItems == ItemsOf(items, n, userFound.value) && n1 == n
    requires userFound.None? ==> user0 == Cart(n, orgId, Some(userId), None, Active, 0, 0) && userItems == [] && n1 == n + 1
    requires f == FoldGuest(Folded(items, n1), orgId, user0.cartId, userItems, ItemsOf(items, n, gid))
    ensures var fin := ItemsOf(f.items, f.next, user0.cartId);
      var user := user0.(totalItems := TotalQuantity(fin), subtotalAmount := TotalPrice(fin), guestId := None);
      MergeCarts(carts, items, n, orgId, userId, gid, userFound) ==
        MergeOutcome(carts[user0.cartId := user][gid := carts[gid].(status := MergedToUserCart)], f.items, f.next, CartView(user, fin))
  {
  }

  /** The user cart differs from the guest cart: its id is below the counter
      the fold starts from, and the fold starts from a state where both item
      queries are the ones the merge read. */
  lemma UserSideFacts(carts: map<Id, Cart>, items: map<Id, CartItem>, n: nat, orgId: string, userId: string,
                      gid: Id, userFound: Option<Id>)
    requires StoreInvariant(carts, items, n) && gid in carts
    requires userFound.Some? ==> userFound.value in carts
    ensures var (user0, userItems, n1) := UserSide(carts, items, n, orgId, userId, userFound);
      && StoreInvariant(carts, items, n1)
      && user0.cartId < n1
      && (userFound.Some? ==> user0.cartId == userFound.value)
      && (userFound.None? ==> user0.cartId != gid && user0.cartId !in carts)
      && userItems == ItemsOf(items, n1, user0.cartId)
      && ItemsOf(items, n, gid) == ItemsOf(items, n1, gid)
  {
    if userFound.None? {
      NewUserCartFacts(carts, items, n, gid);
    } else {
      var c := userFound.value;
      assert carts[c].cartId == c && c < n;
    }
  }

  /** The case of UserSideFacts where a new user cart takes id n. */
  lemma NewUserCartFacts(carts: map<Id, Cart>, items: map<Id, CartItem>, n: nat, gid: Id)
    requires StoreInvariant(carts, items, n) && gid in carts
    ensures StoreInvariant(carts, items, n + 1) && n != gid && n !in carts
    ensures ItemsOf(items, n + 1, n) == [] && ItemsOf(items, n, gid) == ItemsOf(items, n + 1, gid)
  {
    ReserveCartId(carts, items, n);
    InvariantWellKeyed(carts, items, n);
    ItemsOfBeyond(items, n, n + 1, gid);
  }

  /** Merging into a different user cart: the returned items are the user
      cart's items after the fold, whose basket is the user basket merged with
      the guest basket; the returned cart's totals agree with them and its
      guestId is cleared; the guest cart keeps no items; and no other cart's
      items change. */
  lemma MergeCartsMerges(carts: map<Id, Cart>, items: map<Id, CartItem>, n: nat, orgId: string, userId: string,
                         gid: Id, userFound: Option<Id>)
    requires StoreInvariant(carts, items, n) && gid in carts
    requires userFound.Some? ==> userFound.value in carts && userFound.value != gid
    ensures var o := MergeCarts(carts, items, n, orgId, userId, gid, userFound);
      var (user0, userItems, n1) := UserSide(carts, items, n, orgId, userId, userFound);
      var cU := user0.cartId;
      && o.view.cart.cartId == cU && cU != gid
      && Basket(o.view.items) == MergeBaskets(Basket(userItems), Basket(ItemsOf(items, n, gid)))
      && o.view.items == ItemsOf(o.items, o.next, cU)
      && TotalsAgree(o.view.cart, o.view.items) && o.view.cart.guestId == None
      && ItemsOf(o.items, o.next, gid) == []
      && ChangedOnlyIn(items, o.items, {cU, gid})
  {
    var (user0, userItems, n1) := UserSide(carts, items, n, orgId, userId, userFound);
    UserSideFacts(carts, items, n, orgId, userId, gid, userFound);
    MergeFold(items, n1, orgId, user0.cartId, gid);
  }

  /** ... and the merge stores the returned cart, changes no cart but the two,
      and keeps the store invariant. */
  lemma MergeCartsKeepsInvariant(carts: map<Id, Cart>, items: map<Id, CartItem>, n: nat, orgId: string, userId: string,
                                 gid: Id, userFound: Option<Id>)
    requires StoreInvariant(carts, items, n) && gid in carts
    requires userFound.Some? ==> userFound.value in carts && userFound.value != gid
    ensures MergeKeeps(carts, gid, MergeCarts(carts, items, n, orgId, userId, gid, userFound))
  {
    var (user0, userItems, n1) := UserSide(carts, items, n, orgId, userId, userFound);
    UserSideFacts(carts, items, n, orgId, userId, gid, userFound);
    var f := FoldGuest(Folded(items, n1), orgId, user0.cartId, userItems, ItemsOf(items, n, gid));
    MergeCartsUnfold(carts, items, n, orgId, userId, gid, userFound, user0, userItems, n1, f);
    var fin := ItemsOf(f.items, f.next, user0.cartId);
    var user := user0.(totalItems := TotalQuantity(fin), subtotalAmount := TotalPrice(fin), guestId := None);
    FoldKeeps(carts, items, n1, orgId, gid, user0.cartId, userItems, ItemsOf(items, n, gid), f, user,
              MergeCarts(carts, items, n, orgId, userId, gid, userFound));
  }

  /** The returned cart is stored under its id, every cart but the guest and
      the returned one is as it was, no cart is lost, and the invariant holds. */
  ghost predicate MergeKeeps(carts: map<Id, Cart>, gid: Id, o: MergeOutcome) {
    var cU := o.view.cart.cartId;
    && cU in o.carts && o.carts[cU] == o.view.cart
    && (forall id :: id in o.carts && id != cU && id != gid ==> id in carts && o.carts[id] == carts[id])
    && (forall id :: id in carts ==> id in o.carts)
    && StoreInvariant(o.carts, o.items, o.next)
  }

  /** MergeKeeps of the outcome that writes the re-totalled user cart user
      and the folded items f. */
  lemma FoldKeeps(carts: map<Id, Cart>, items: map<Id, CartItem>, n1: nat, orgId: string, gid: Id, cU: Id,
                  userItems: seq<CartItem>, g: seq<CartItem>, f: Folded, user: Cart, o: MergeOutcome)
    requires StoreInvariant(carts, items, n1) && gid in carts && cU < n1 && cU != gid
    requires userItems == ItemsOf(items, n1, cU) && g == ItemsOf(items, n1, gid)
    requires f == FoldGuest(Folded(items, n1), orgId, cU, userItems, g)
    requires var fin := ItemsOf(f.items, f.next, cU);
      user.cartId == cU && user.totalItems == TotalQuantity(fin) && user.subtotalAmount == TotalPrice(fin)
    requires o == MergeOutcome(carts[cU := user][gid := carts[gid].(status := MergedToUserCart)], f.items, f.next,
                               CartView(user, ItemsOf(f.items, f.next, cU)))
    ensures MergeKeeps(carts, gid, o)
  {
    MergeFold(items, n1, orgId, cU, gid);
    MergeInvariant(carts, items, n1, o.carts, f.items, f.next, cU, gid, user);
    WrittenCarts(carts, gid, cU, user, o.carts);
  }

  /** The carts after the two writes of the merge. */
  lemma WrittenCarts(carts: map<Id, Cart>, gid: Id, cU: Id, user: Cart, carts2: map<Id, Cart>)
    requires gid in carts && cU != gid
    requires carts2 == carts[cU := user][gid := carts[gid].(status := MergedToUserCart)]
    ensures cU in carts2 && carts2[cU] == user
    ensures forall id :: id in carts2 && id != cU && id != gid ==> id in carts && carts2[id] == carts[id]
    ensures forall id :: id in carts ==> id in carts2
  {
  }

  /** The invariant after the merge's writes, from what the fold keeps. */
  lemma MergeInvariant(carts: map<Id, Cart>, items: map<Id, CartItem>, n: nat,
                       carts2: map<Id, Cart>, items2: map<Id, CartItem>, n2: nat, cU: Id, gid: Id, user: Cart)
    requires StoreInvariant(carts, items, n) && gid in carts && cU < n && n <= n2 && cU != gid
    requires ChangedOnlyIn(items, items2, {cU, gid}) && AllItemsOk(items2, n2) && OneLinePerProduct(items2)
    requires ItemsOf(items2, n2, gid) == []
    requires carts2 == carts[cU := user][gid := carts[gid].(status := MergedToUserCart)]
    requires user.cartId == cU && TotalsAgree(user, ItemsOf(items2, n2, cU))
    ensures StoreInvariant(carts2, items2, n2)
  {
    InvariantAfterRewrite(carts, items, n, carts2, items2, n2, {cU, gid});
  }

  /** Merging a cart into itself (the guest lookup and the user lookup found
      the same cart c): every item of c is deleted, the returned view has no
      items and zero totals, and c is stored as it was read at the start but
      marked MERGED_TO_USER_CART, so the user's lines are lost. */
  lemma MergeCartsSelf(carts: map<Id, Cart>, items: map<Id, CartItem>, n: nat, orgId: string, userId: string, c: Id)
    requires StoreInvariant(carts, items, n) && c in carts
    ensures var o := MergeCarts(carts, items, n, orgId, userId, c, Some(c));
      && o.items == WithoutCart(items, c) && o.next == n
      && o.carts == carts[c := carts[c].(status := MergedToUserCart)]
      && o.view.items == [] && o.view.cart.totalItems == 0 && o.view.cart.subtotalAmount == 0
      && StoreInvariant(o.carts, o.items, o.next)
  {
    var s := ItemsOf(items, n, c);
    assert carts[c].cartId == c;
    MergeSelf(items, n, orgId, c);
    DeleteQueried(carts, items, n, c);
    var cart := carts[c].(status := MergedToUserCart);
    SelfInvariant(carts, items, n, c);
  }

  /** The invariant after a self merge: the cart is a tombstone with no items. */
  lemma SelfInvariant(carts: map<Id, Cart>, items: map<Id, CartItem>, n: nat, c: Id)
    requires StoreInvariant(carts, items, n) && c in carts
    ensures ItemsOf(WithoutCart(items, c), n, c) == []
    ensures StoreInvariant(carts[c := carts[c].(status := MergedToUserCart)], WithoutCart(items, c), n)
  {
    var rest := WithoutCart(items, c);
    assert WellKeyed(rest);
    ItemsOfEmpty(rest, n, c);
    InvariantAfterRewrite(carts, items, n, carts[c := carts[c].(status := MergedToUserCart)], rest, n, {c});
  }

  /** A store in which the guest lookup and the user lookup find the same
      cart: addItemToCart with both a userId and a guestId creates such a cart.
      Merging it returns an empty cart, although the cart held a line. */
  lemma SelfMergeExample()
    ensures var cart := Cart(0, "org", Some("u"), Some("g"), Active, 1, 100);
      var line := CartItem(1, "org", 0, "p", "Soap", 100, 1, 100);
      var carts, items := map[0 := cart], map[1 := line];
      && StoreInvariant(carts, items, 2)
      && FindCart(carts, 2, "org", Guest("g"), true) == Some(0)
      && FindCart(carts, 2, "org", User("u"), true) == Some(0)
      && ItemsOf(items, 2, 0) == [line]
      && MergeCarts(carts, items, 2, "org", "u", 0, Some(0)).view.items == []
  {
    SelfMergeStore();
    MergeCartsSelf(map[0 := Cart(0, "org", Some("u"), Some("g"), Active, 1, 100)],
                   map[1 := CartItem(1, "org", 0, "p", "Soap", 100, 1, 100)], 2, "org", "u", 0);
  }

  /** The store of SelfMergeExample is a valid one. */
  lemma SelfMergeStore()
    ensures var cart := Cart(0, "org", Some("u"), Some("g"), Active, 1, 100);
      var line := CartItem(1, "org", 0, "p", "Soap", 100, 1, 100);
      var carts, items := map[0 := cart], map[1 := line];
      StoreInvariant(carts, items, 2) && ItemsOf(items, 2, 0) == [line]
  {
    var cart := Cart(0, "org", Some("u"), Some("g"), Active, 1, 100);
    var line := CartItem(1, "org", 0, "p", "Soap", 100, 1, 100);
    var carts, items := map[0 := cart], map[1 := line];
    assert ItemsOf(items, 1, 0) == [];
    assert ItemsOf(items, 2, 0) == [line];
    assert [line][1..] == [];
    assert TotalQuantity([line]) == 1 && TotalPrice([line]) == 100;
    assert LineTotal(100, 1) == 100 by {
      LineTotalIsProduct(100, 1);
    }
  }

  /** The evidently intended merge: a guest cart that is the user's own cart
      has nothing to merge into it. It is returned with its lines, and only
      its guestId is cleared, as the merge does to every user cart. */
  function MergeCartsFixed(carts: map<Id, Cart>, items: map<Id, CartItem>, n: nat, orgId: string, userId: string,
                           gid: Id, userFound: Option<Id>): (o: MergeOutcome)
    requires gid in carts && (userFound.Some? ==> userFound.value in carts)
  {
    if userFound == Some(gid) then
      var user := carts[gid].(guestId := None);
      MergeOutcome(carts[gid := user], items, n, CartView(user, ItemsOf(items, n, gid)))
    else MergeCarts(carts, items, n, orgId, userId, gid, userFound)
  }

  /** Clearing the guestId of a stored cart keeps the invariant. */
  lemma ClearGuestIdKeepsInvariant(carts: map<Id, Cart>, items: map<Id, CartItem>, n: nat, c: Id)
    requires StoreInvariant(carts, items, n) && c in carts
    ensures StoreInvariant(carts[c := carts[c].(guestId := None)], items, n)
  {
    InvariantAfterRewrite(carts, items, n, carts[c := carts[c].(guestId := None)], items, n, {c});
  }

  /** The corrected merge keeps every line the user had: the returned items
      are the user cart's stored items, their basket is the user basket merged
      with the guest basket (or the user basket itself when the two carts are
      one), the returned cart is stored and agrees with them, and the store
      invariant holds. */
  lemma MergeCartsFixedKeepsLines(carts: map<Id, Cart>, items: map<Id, CartItem>, n: nat, orgId: string, userId: string,
                                  gid: Id, userFound: Option<Id>)
    requires StoreInvariant(carts, items, n) && gid in carts
    requires userFound.Some? ==> userFound.value in carts
    ensures var o := MergeCartsFixed(carts, items, n, orgId, userId, gid, userFound);
      var userItems := UserSide(carts, items, n, orgId, userId, userFound).1;
      var guestItems := ItemsOf(items, n, gid);
      && o.view.cart.guestId == None
      && Basket(o.view.items) == (if userFound == Some(gid) then Basket(userItems)
                                  else MergeBaskets(Basket(userItems), Basket(guestItems)))
      && o.view.items == ItemsOf(o.items, o.next, o.view.cart.cartId)
      && o.view.cart.cartId in o.carts && o.carts[o.view.cart.cartId] == o.view.cart
      && CartConsistent(o.view.cart, o.view.items)
      && StoreInvariant(o.carts, o.items, o.next)
  {
    if userFound == Some(gid) {
      assert carts[gid].cartId == gid;
      ClearGuestIdKeepsInvariant(carts, items, n, gid);
    } else {
      MergeCartsMerges(carts, items, n, orgId, userId, gid, userFound);
      MergeCartsKeepsInvariant(carts, items, n, orgId, userId, gid, userFound);
    }
  }
}
