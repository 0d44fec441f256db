/** WishlistService: one wishlist per (organisation, customer), an ordered
    list of products in which each product occurs at most once. */
module Wishlists {
  import opened Wrappers
  import opened Catalog

  /** A wishlist entry; `addedAt` is the Timestamp.now() of the add, passed in. */
  datatype WishlistItem = WishlistItem(productId: string, addedAt: int)

  /** The wishlist document (`new Wishlist(customerId, organizationId, items)`). */
  datatype Wishlist = Wishlist(customerId: string, organizationId: string, items: seq<WishlistItem>)

  /** Wishlist.containsProduct. */
  predicate Contains(s: seq<WishlistItem>, p: string) {
    exists x :: x in s && x.productId == p
  }

  /** No product occurs twice. */
  predicate UniqueProducts(s: seq<WishlistItem>) {
    forall i, j :: 0 <= i < j < |s| ==> s[i].productId != s[j].productId
  }

  /** The item list after an add: one new entry at the end when the product
      is not there yet, else the list as it was. */
  function Added(s: seq<WishlistItem>, p: string, now: int): (r: seq<WishlistItem>)
    ensures Contains(r, p)
    ensures UniqueProducts(s) ==> UniqueProducts(r)
    ensures Contains(s, p) ==> r == s
    ensures !Contains(s, p) ==> |r| == |s| + 1 && r[..|s|] == s && r[|s|] == WishlistItem(p, now)
  {
    if Contains(s, p) then s
    else
      var r := s + [WishlistItem(p, now)];
      assert r[|s|] in r;
      assert r[..|s|] == s;
      r
  }

  /** A second add of the same product changes nothing, whenever it happens. */
  lemma AddedIdempotent(s: seq<WishlistItem>, p: string, t1: int, t2: int)
    ensures Added(Added(s, p, t1), p, t2) == Added(s, p, t1)
  {
  }

  /** removeIf on the product: every entry of that product goes, the rest
      stay in their order. */
  function Removed(s: seq<WishlistItem>, p: string): (r: seq<WishlistItem>)
    ensures forall x :: x in r <==> x in s && x.productId != p
    ensures |r| <= |s|
    ensures |r| == |s| <==> !Contains(s, p)
    ensures UniqueProducts(s) ==> UniqueProducts(r)
  {
    if s == [] then []
    else
      var r := Removed(s[1..], p);
      assert forall x :: x in s <==> x == s[0] || x in s[1..];
      assert UniqueProducts(s) ==> UniqueProducts(s[1..]) && !Contains(s[1..], s[0].productId) by {
        if UniqueProducts(s) {
          forall x | x in s[1..] ensures x.productId != s[0].productId {
            var j :| 0 <= j < |s[1..]| && s[1..][j] == x;
            assert s[j + 1] == x;
          }
        }
      }
      if s[0].productId == p then r
      else
        assert Contains(s, p) ==> Contains(s[1..], p);
        [s[0]] + r
  }

  /** Removal distributes over concatenation, so the surviving entries keep
      their relative order. */
  lemma {:induction false} RemovedConcat(a: seq<WishlistItem>, b: seq<WishlistItem>, p: string)
    ensures Removed(a + b, p) == Removed(a, p) + Removed(b, p)
  {
    if a == [] {
      assert a + b == b;
    } else {
      assert (a + b)[0] == a[0] && (a + b)[1..] == a[1..] + b;
      RemovedConcat(a[1..], b, p);
      if a[0].productId != p {
        assert Removed(a, p) == [a[0]] + Removed(a[1..], p);
      }
    }
  }

  /** Removing a product just added undoes the add. */
  lemma RemovedAfterAdded(s: seq<WishlistItem>, p: string, now: int)
    ensures Removed(Added(s, p, now), p) == Removed(s, p)
  {
    if !Contains(s, p) {
      RemovedConcat(s, [WishlistItem(p, now)], p);
      assert [WishlistItem(p, now)][1..] == [];
    }
  }

  /** The product ids of the entries, in wishlist order. */
  function WishlistProductIds(s: seq<WishlistItem>): (r: seq<string>)
    ensures |r| == |s|
    ensures forall i :: 0 <= i < |s| ==> r[i] == s[i].productId
  {
    seq(|s|, i requires 0 <= i < |s| => s[i].productId)
  }

  class WishlistStore {
    /** The wishlist collection, keyed by (organizationId, customerId). */
    var lists: map<(string, string), Wishlist>

    /** Each stored wishlist sits under its own ids and has each product once. */
    ghost predicate Valid()
      reads this
    {
      forall k :: k in lists ==>
        lists[k].organizationId == k.0 && lists[k].customerId == k.1 && UniqueProducts(lists[k].items)
    }

    constructor ()
      ensures Valid() && lists == map[]
    {
      lists := map[];
    }

    /** getWishlist: the stored wishlist, or a new empty one with the given ids. */
    function GetWishlist(organizationId: string, customerId: string): (w: Wishlist)
      reads this
      requires Valid()
      ensures w.organizationId == organizationId && w.customerId == customerId
      ensures UniqueProducts(w.items)
      ensures (organizationId, customerId) in lists ==> w == lists[(organizationId, customerId)]
      ensures (organizationId, customerId) !in lists ==> w.items == []
    {
      if (organizationId, customerId) in lists then lists[(organizationId, customerId)]
      else Wishlist(customerId, organizationId, [])
    }

    /** wishlistRepository.save: the document under its own ids. */
    method Save(w: Wishlist)
      requires UniqueProducts(w.items)
      requires Valid()
      modifies this
      ensures Valid()
      ensures lists == old(lists)[(w.organizationId, w.customerId) := w]
    {
      lists := lists[(w.organizationId, w.customerId) := w];
    }

    /** addProductToWishlist: a product not yet there is appended and the
        wishlist saved; otherwise nothing is written. */
    method AddProductToWishlist(organizationId: string, customerId: string, productId: string, now: int)
      returns (w: Wishlist)
      requires Valid()
      modifies this
      ensures Valid()
      ensures w == old(GetWishlist(organizationId, customerId)).(items :=
        Added(old(GetWishlist(organizationId, customerId)).items, productId, now))
      ensures Contains(old(GetWishlist(organizationId, customerId)).items, productId) ==> lists == old(lists)
      ensures !Contains(old(GetWishlist(organizationId, customerId)).items, productId) ==>
        lists == old(lists)[(organizationId, customerId) := w]
    {
      var wishlist := GetWishlist(organizationId, customerId);
      if !Contains(wishlist.items, productId) {
        var newItem := WishlistItem(productId, now);
        wishlist := wishlist.(items := wishlist.items + [newItem]);
        Save(wishlist);
        return wishlist;
      }
      return wishlist;
    }

    /** removeProductFromWishlist: on a stored wishlist every entry of the
        product is removed, and saved only if there was one; without a stored
        wishlist a new empty one is returned and nothing is written. */
    method RemoveProductFromWishlist(organizationId: string, customerId: string, productId: string)
      returns (w: Wishlist)
      requires Valid()
      modifies this
      ensures Valid()
      ensures w == old(GetWishlist(organizationId, customerId)).(items :=
        Removed(old(GetWishlist(organizationId, customerId)).items, productId))
      ensures !Contains(w.items, productId)
      ensures ((organizationId, customerId) in old(lists) &&
               Contains(old(lists)[(organizationId, customerId)].items, productId))
        ==> lists == old(lists)[(organizationId, customerId) := w]
      ensures ((organizationId, customerId) !in old(lists) ||
               !Contains(old(lists)[(organizationId, customerId)].items, productId))
        ==> lists == old(lists)
    {
      var key := (organizationId, customerId);
      if key in lists {
        var wishlist := lists[key];
        var remaining := Removed(wishlist.items, productId);
        var removed := |remaining| != |wishlist.items|;
        wishlist := wishlist.(items := remaining);
        if removed {
          Save(wishlist);
          return wishlist;
        }
        return wishlist;
      }
      return Wishlist(customerId, organizationId, []);
    }

    /** clearWishlist: the document is deleted; afterwards getWishlist gives
        an empty wishlist and every other wishlist is as it was. */
    method ClearWishlist(organizationId: string, customerId: string)
      requires Valid()
      modifies this
      ensures Valid()
      ensures lists == old(lists) - {(organizationId, customerId)}
      ensures GetWishlist(organizationId, customerId) == Wishlist(customerId, organizationId, [])
    {
      lists := lists - {(organizationId, customerId)};
    }

    /** getWishlistProducts: an empty wishlist gives no products and no call;
        otherwise the catalog is asked for the entries' product ids in
        wishlist order, and its answer is returned. */
    function GetWishlistProducts(organizationId: string, customerId: string,
                                 getProductsByIds: (string, seq<string>) -> seq<Product>): (r: seq<Product>)
      reads this
      requires Valid()
      ensures GetWishlist(organizationId, customerId).items == [] ==> r == []
      ensures GetWishlist(organizationId, customerId).items != [] ==>
        r == getProductsByIds(organizationId, WishlistProductIds(GetWishlist(organizationId, customerId).items))
    {
      var productIds := WishlistProductIds(GetWishlist(organizationId, customerId).items);
      if productIds == [] then [] else getProductsByIds(organizationId, productIds)
    }
  }
}
