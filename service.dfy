/** `App\Service`: the wishlist use cases and the product writer. As in
    `Model`, the Doctrine store is in-memory state of the service and the
    end of a method stands for `flush()`. */
module Service {
  import opened Results
  import opened Collections
  import opened Entity
  import opened Model
  import Enum

  /** `WishlistManager`. `wishlists` is what `WishlistRepository::findOneByUser`
      answers; each wishlist's `items` are its saved rows, the collection the
      next load of that wishlist returns. */
  class WishlistManager {
    var wishlists: map<User, Wishlist>

    /** Each user's wishlist is owned by that user. */
    ghost predicate Valid()
      reads this, wishlists.Values
    {
      forall u :: u in wishlists ==> wishlists[u].user == u
    }

    constructor ()
      ensures Valid() && wishlists == map[]
    {
      wishlists := map[];
    }

    /** `listItems`: the items of the user's wishlist, or none when the user
        has no wishlist; nothing is created. */
    function ListItems(user: User): (items: seq<WishlistItem>)
      reads this, if user in wishlists then {wishlists[user]} else {}
      ensures user !in wishlists ==> items == []
      ensures user in wishlists ==> items == wishlists[user].items
    {
      if user in wishlists then wishlists[user].items else []
    }

    /** The product ids the user's wishlist holds, in order. */
    function ListedIds(user: User): seq<int>
      reads this, if user in wishlists then {wishlists[user]} else {}, ListItems(user)
    {
      WishedProductIds(ListItems(user))
    }

    /** `getOrCreateWishlist`: the user's wishlist, or a new empty one owned
        by the user, which is saved. */
    method GetOrCreateWishlist(user: User) returns (w: Wishlist)
      requires Valid()
      modifies this
      ensures Valid() && user in wishlists && w == wishlists[user]
      ensures user in old(wishlists) ==> w == old(wishlists[user]) && wishlists == old(wishlists)
      ensures user !in old(wishlists) ==>
        fresh(w) && w.items == [] && wishlists == old(wishlists)[user := w]
    {
      if user in wishlists {
        return wishlists[user];
      }
      w := new Wishlist();
      w.SetUser(user);
      wishlists := wishlists[user := w];
    }

    /** `addProduct`: with the wishlist created if missing, a product that
        already has an item there is refused (`false`, nothing changes);
        otherwise one new item for it is saved at the end (`true`). Adding
        thus never gives a product a second item. */
    method AddProduct(user: User, product: Product, now: int) returns (added: bool)
      requires Valid()
      modifies this, if user in wishlists then {wishlists[user]} else {}
      ensures Valid() && user in wishlists && wishlists.Keys == old(wishlists.Keys) + {user}
      ensures forall u :: u in old(wishlists) ==> u in wishlists && wishlists[u] == old(wishlists[u])
      ensures added <==> product.id !in old(ListedIds(user))
      ensures !added ==> ListItems(user) == old(ListItems(user))
      ensures added ==>
        var items := ListItems(user);
        |items| == |old(ListItems(user))| + 1 && items[..|items| - 1] == old(ListItems(user)) &&
        fresh(items[|items| - 1]) && items[|items| - 1].product == product &&
        items[|items| - 1].wishlist == wishlists[user] && items[|items| - 1].addedAt == now
      ensures ListedIds(user) == if added then old(ListedIds(user)) + [product.id] else old(ListedIds(user))
      ensures Distinct(old(ListedIds(user))) ==> Distinct(ListedIds(user))
    {
      ghost var before := ListedIds(user);
      var w := GetOrCreateWishlist(user);
      assert w.ProductIds() == before;
      added := AddTo(w, product, now);
    }

    /** The search loop of `addProduct` and `removeProduct`: the position
        of the first item of `w` for product `productId`, or `|w.items|`. */
    method FindWished(w: Wishlist, productId: int) returns (k: nat)
      ensures k == IndexOf(w.ProductIds(), productId)
    {
      k := 0;
      while k < |w.items|
        invariant k <= |w.items|
        invariant forall j :: 0 <= j < k ==> w.items[j].product.id != productId
      {
        if w.items[k].product.id == productId {
          return;
        }
        k := k + 1;
      }
    }

    /** The part of `addProduct` after the wishlist is found. */
    method AddTo(w: Wishlist, product: Product, now: int) returns (added: bool)
      modifies w`items
      ensures added <==> product.id !in old(w.ProductIds())
      ensures !added ==> w.items == old(w.items)
      ensures added ==>
        |w.items| == |old(w.items)| + 1 && w.items[..|w.items| - 1] == old(w.items) &&
        fresh(w.items[|w.items| - 1]) && w.items[|w.items| - 1].product == product &&
        w.items[|w.items| - 1].wishlist == w && w.items[|w.items| - 1].addedAt == now
      ensures w.ProductIds() == if added then old(w.ProductIds()) + [product.id] else old(w.ProductIds())
      ensures Distinct(old(w.ProductIds())) ==> Distinct(w.ProductIds())
    {
      ghost var before := w.ProductIds();
      var k := FindWished(w, product.id);
      if k < |w.items| {
        return false;
      }
      var item := new WishlistItem(product, now);
      item.SetWishlist(w);
      w.items := w.items + [item];
      assert w.items[..|w.items| - 1] == old(w.items);
      assert w.ProductIds() == before + [product.id];
      added := true;
      if Distinct(before) {
        forall i, j | 0 <= i < j < |w.ProductIds()| ensures w.ProductIds()[i] != w.ProductIds()[j] {
          if j == |before| {
            assert before[i] in before;
          }
        }
      }
    }

    /** `removeProduct`: a user without a wishlist gets `false` and no
        wishlist is created. Otherwise the first item for the product is
        removed and deleted (`true`); when there is none, `false` and nothing
        changes. On product ids this is `RemoveElement`. */
    method RemoveProduct(user: User, product: Product) returns (removed: bool)
      requires Valid()
      modifies if user in wishlists then {wishlists[user]} else {}
      ensures Valid() && wishlists == old(wishlists)
      ensures user !in wishlists ==> !removed
      ensures removed <==> product.id in old(ListedIds(user))
      ensures !removed ==> ListItems(user) == old(ListItems(user))
      ensures removed ==>
        var k := IndexOf(old(ListedIds(user)), product.id);
        ListItems(user) == old(ListItems(user)[..k] + ListItems(user)[k + 1..])
      ensures ListedIds(user) == RemoveElement(old(ListedIds(user)), product.id)
    {
      if user !in wishlists {
        return false;
      }
      var w := wishlists[user];
      removed := RemoveFrom(w, product);
    }

    /** The part of `removeProduct` after the wishlist is found. */
    method RemoveFrom(w: Wishlist, product: Product) returns (removed: bool)
      modifies w`items
      ensures removed <==> product.id in old(w.ProductIds())
      ensures !removed ==> w.items == old(w.items)
      ensures removed ==>
        var k := IndexOf(old(w.ProductIds()), product.id);
        w.items == old(w.items[..k] + w.items[k + 1..])
      ensures w.ProductIds() == RemoveElement(old(w.ProductIds()), product.id)
    {
      ghost var before := w.ProductIds();
      var k := FindWished(w, product.id);
      if k == |w.items| {
        return false;
      }
      var item := w.items[k];
      assert IndexOf(w.items, item) == k;
      ghost var rest := w.items[..k] + w.items[k + 1..];
      WishedProductIdsRemoveAt(w.items, k);
      assert WishedProductIds(rest) == RemoveElement(before, product.id);
      w.items := RemoveElement(w.items, item);
      assert w.items == rest;
      return true;
    }
  }

  /** Dropping the item at `k` drops its product id at `k`. */
  lemma WishedProductIdsRemoveAt(s: seq<WishlistItem>, k: nat)
    requires k < |s|
    ensures WishedProductIds(s[..k] + s[k + 1..]) ==
      WishedProductIds(s)[..k] + WishedProductIds(s)[k + 1..]
  {
    var ids := WishedProductIds(s);
    var r := s[..k] + s[k + 1..];
    var kept := ids[..k] + ids[k + 1..];
    var got := WishedProductIds(r);
    assert |got| == |kept| == |s| - 1;
    forall i | 0 <= i < |r| ensures got[i] == kept[i] {
      if i < k {
        assert r[i] == s[i] && kept[i] == ids[i];
      } else {
        assert r[i] == s[i + 1] && kept[i] == ids[i + 1];
      }
    }
    assert got == kept;
  }

  /** Adding a product that a wishlist lacks and then removing it gives back
      the wishlist's product ids. */
  lemma AddThenRemove(ids: seq<int>, p: int)
    requires p !in ids
    ensures RemoveElement(ids + [p], p) == ids
  {
    var k := IndexOf(ids + [p], p);
    assert (ids + [p])[|ids|] == p;
    assert k == |ids|;
    assert (ids + [p])[..k] == ids;
  }

  const InvalidStatus := "Invalid inventoryStatus value. Must be one of: INSTOCK, LOWSTOCK, OUTOFSTOCK."

  /** The product carries the payload: every field is copied verbatim, a
      missing image becoming the empty string. */
  ghost predicate Carries(p: Product, model: ProductModel)
    reads p
  {
    p.code == model.code && p.name == model.name && p.description == model.description &&
    p.image == model.image.GetOr("") && p.category == model.category &&
    p.price == model.price && p.quantity == model.quantity &&
    p.internalReference == model.internalReference && p.shellId == model.shellId &&
    p.rating == model.rating
  }

  /** The status a payload asks for is one `InventoryStatus::from` accepts,
      or there is none. */
  predicate StatusAccepted(model: ProductModel) {
    model.inventoryStatus.None? || model.inventoryStatus.value in Enum.Values
  }

  /** `ProductManager`: writes payloads onto products and saves new ones. */
  class ProductManager {
    /** The saved products. */
    var saved: set<Product>
    /** The id the database gives the next saved product. */
    var nextId: int

    constructor ()
      ensures saved == {} && nextId == 0
    {
      saved := {};
      nextId := 0;
    }

    /** `hydrate`: the ten plain fields are set from the payload in order;
        then a present status is parsed. A status that is not one of the
        three enum values fails, leaving the fields already written in
        place and the old status; a missing status keeps the old one. */
    method Hydrate(product: Product, model: ProductModel) returns (outcome: Outcome)
      modifies product
      ensures Carries(product, model)
      ensures outcome.Pass? <==> StatusAccepted(model)
      ensures outcome.Fail? ==> outcome.message == InvalidStatus
      ensures model.inventoryStatus.None? || outcome.Fail? ==>
        product.inventoryStatus == old(product.inventoryStatus)
      ensures model.inventoryStatus.Some? && outcome.Pass? ==>
        product.inventoryStatus == Enum.From(model.inventoryStatus.value) &&
        product.inventoryStatus.Some? &&
        Enum.Value(product.inventoryStatus.value) == model.inventoryStatus.value
    {
      product.code := model.code;
      product.name := model.name;
      product.description := model.description;
      product.image := model.image.GetOr("");
      product.category := model.category;
      product.price := model.price;
      product.quantity := model.quantity;
      product.internalReference := model.internalReference;
      product.shellId := model.shellId;
      product.rating := model.rating;
      if model.inventoryStatus.Some? {
        match Enum.From(model.inventoryStatus.value)
        case None =>
          return Fail(InvalidStatus);
        case Some(status) =>
          product.inventoryStatus := Some(status);
      }
      return Pass;
    }

    /** `createFromModel`: a new product carrying the payload, saved under
        the next id; when the status is refused, the exception comes before
        anything is saved. */
    method CreateFromModel(model: ProductModel) returns (r: Result<Product>)
      modifies this
      ensures r.Ok? <==> StatusAccepted(model)
      ensures r.Ok? ==>
        fresh(r.value) && Carries(r.value, model) && r.value.id == old(nextId) &&
        r.value.inventoryStatus ==
          (if model.inventoryStatus.None? then None else Enum.From(model.inventoryStatus.value)) &&
        saved == old(saved) + {r.value} && nextId == old(nextId) + 1
      ensures r.Err? ==> r.message == InvalidStatus && saved == old(saved) && nextId == old(nextId)
    {
      var product := new Product(nextId);
      var outcome := Hydrate(product, model);
      if outcome.Fail? {
        return Err(outcome.message);
      }
      saved := saved + {product};
      nextId := nextId + 1;
      return Ok(product);
    }

    /** `updateFromModel`: the same product instance, now carrying the
        payload; a refused status fails after the plain fields were
        written. */
    method UpdateFromModel(product: Product, model: ProductModel) returns (r: Result<Product>)
      modifies product
      ensures Carries(product, model)
      ensures r.Ok? <==> StatusAccepted(model)
      ensures r.Ok? ==> r.value == product
      ensures model.inventoryStatus.Some? && r.Ok? ==>
        product.inventoryStatus == Enum.From(model.inventoryStatus.value)
      ensures model.inventoryStatus.None? || r.Err? ==>
        product.inventoryStatus == old(product.inventoryStatus)
      ensures r.Err? ==> r.message == InvalidStatus
    {
      var outcome := Hydrate(product, model);
      if outcome.Fail? {
        return Err(outcome.message);
      }
      return Ok(product);
    }
  }
}
