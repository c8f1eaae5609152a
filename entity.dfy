/** The Doctrine entities of `App\Entity`. They live in one module because
    a user points to its cart and wishlist, a cart to its user and items, and
    an item back to its cart. Ids that the database generates are `const`
    fields fixed when the object is built; the `time()` stamps come in as a
    `now` argument. */
module Entity {
  import opened Results
  import opened Collections
  import opened CartLines
  import Enum

  /** A catalog product (`App\Entity\Product`): a plain record whose setters
      `ProductManager` drives. Price and rating are whole cents and
      hundredths. A new product's strings are empty and its numbers zero
      where PHP starts them as null. */
  class Product {
    const id: int
    var code: string
    var name: string
    var description: string
    var image: string
    var category: string
    var price: int
    var quantity: int
    var internalReference: string
    var shellId: int
    var inventoryStatus: Option<Enum.InventoryStatus>
    var rating: int

    constructor (id: int)
      ensures this.id == id && inventoryStatus == None
      ensures code == name == description == image == category == internalReference == ""
      ensures price == quantity == shellId == rating == 0
    {
      this.id := id;
      code, name, description, image, category, internalReference := "", "", "", "", "", "";
      price, quantity, shellId, rating := 0, 0, 0, 0;
      inventoryStatus := None;
    }
  }

  /** `App\Entity\User`, reduced to what the cart, the wishlist and
      authentication use: the login email and the two one-to-one links. */
  class User {
    var email: Option<string>
    var cart: Cart?
    var wishlist: Wishlist?

    constructor (email: Option<string>)
      ensures this.email == email && cart == null && wishlist == null
    {
      this.email := email;
      cart := null;
      wishlist := null;
    }

    /** The identifier Symfony's security layer uses: the email, or the empty
        string when there is none. */
    function GetUserIdentifier(): (identifier: string)
      reads this
      ensures email.Some? ==> identifier == email.value
      ensures email.None? ==> identifier == ""
    {
      email.GetOr("")
    }

    /** Every user has the one role `ROLE_USER`, whatever its state. */
    function GetRoles(): (roles: seq<string>)
      ensures roles == ["ROLE_USER"]
    {
      ["ROLE_USER"]
    }

    /** Links this user to `c` and points `c` back here. Unlinking (`null`)
        detaches the previous cart from its user; linking a new cart leaves
        the previous cart's user pointer as it was. */
    method SetCart(c: Cart?)
      modifies this`cart, (if c == null then {} else {c})`user, (if cart == null then {} else {cart})`user
      ensures cart == c
      ensures c != null ==> c.user == this
      ensures c == null && old(cart) != null ==> old(cart).user == null
      ensures var previous := old(cart);
        previous != null && previous != c && c != null ==> previous.user == old(previous.user)
    {
      if c == null && cart != null {
        cart.SetUser(null);
      }
      if c != null && c.user != this {
        c.SetUser(this);
      }
      cart := c;
    }

    /** Links this user to `w` and points `w` back here. Unlike `SetCart`,
        unlinking does not detach the previous wishlist from its user. */
    method SetWishlist(w: Wishlist?)
      modifies this`wishlist, (if w == null then {} else {w})`user
      ensures wishlist == w
      ensures w != null ==> w.user == this
      ensures var previous := old(wishlist);
        previous != null && previous != w ==> previous.user == old(previous.user)
    {
      if w != null && w.user != this {
        w.SetUser(this);
      }
      wishlist := w;
    }
  }

  /** A line of a cart (`App\Entity\CartItem`). The product is never null
      here: the constructor takes the product that every caller sets right
      after `new CartItem()`. `addedAt` has no setter, so it is a constant. */
  class CartItem {
    var cart: Cart?
    var product: Product
    var quantity: int
    const addedAt: int

    /** A new item holds one unit, belongs to no cart and is stamped `now`. */
    constructor (product: Product, now: int)
      ensures this.product == product && quantity == 1 && addedAt == now && cart == null
    {
      this.product := product;
      quantity := 1;
      addedAt := now;
      cart := null;
    }

    method SetCart(c: Cart?)
      modifies this`cart
      ensures cart == c
    {
      cart := c;
    }

    method SetProduct(p: Product)
      modifies this`product
      ensures product == p
    {
      product := p;
    }

    /** Stores `q` as given: no lower or upper bound is enforced. */
    method SetQuantity(q: int)
      modifies this`quantity
      ensures quantity == q
    {
      quantity := q;
    }

    /** This item's line in the value view of its cart. */
    function AsLine(): Line
      reads this, product
    {
      Line(product.id, product.price, quantity)
    }

    /** `getTotal`: the product's current price times the quantity; it is
        the share of this item in the cart's total price. */
    function GetTotal(): (total: int)
      reads this, product
      ensures total == LineTotal(AsLine())
      ensures product.price >= 0 && quantity >= 0 ==> total >= 0
    {
      product.price * quantity
    }
  }

  /** The products the items of `s` refer to. */
  function ProductsOf(s: seq<CartItem>): set<Product>
    reads s
  {
    set i | i in s :: i.product
  }

  /** The value view of a sequence of items. */
  function LinesOf(s: seq<CartItem>): (lines: seq<Line>)
    reads s, ProductsOf(s)
    ensures |lines| == |s|
    ensures forall k :: 0 <= k < |s| ==> lines[k] == s[k].AsLine()
  {
    if s == [] then [] else [s[0].AsLine()] + LinesOf(s[1..])
  }

  /** Removing an item from a sequence of items removes its line. */
  lemma LinesOfRemove(s: seq<CartItem>, x: CartItem)
    requires x in s
    ensures var k := IndexOf(s, x);
      LinesOf(RemoveElement(s, x)) == LinesOf(s)[..k] + LinesOf(s)[k + 1..]
  {
    var k := IndexOf(s, x);
    RemoveElementShift(s, x);
    var r := RemoveElement(s, x);
    var lines := LinesOf(s);
    forall i | 0 <= i < |r| ensures LinesOf(r)[i] == (lines[..k] + lines[k + 1..])[i] {
      assert r[i] == s[if i < k then i else i + 1];
    }
  }

  /** A user's shopping cart (`App\Entity\Cart`). */
  class Cart {
    var user: User?
    var items: seq<CartItem>
    const createdAt: int
    var updatedAt: int

    /** The collection never holds the same item twice: `addItem` appends
        only items it does not contain. */
    ghost predicate Valid()
      reads this
    {
      Distinct(items)
    }

    /** A new cart has no user and no items; both stamps are `now`. */
    constructor (now: int)
      ensures Valid() && user == null && items == []
      ensures createdAt == now && updatedAt == now
    {
      user := null;
      items := [];
      createdAt := now;
      updatedAt := now;
    }

    method SetUser(u: User?)
      modifies this`user
      ensures user == u
    {
      user := u;
    }

    function Lines(): seq<Line>
      reads this, items, ProductsOf(items)
    {
      LinesOf(items)
    }

    /** The search loop of `addItem`: the position of the first item whose
        product has id `productId`, or `|items|` when there is none. */
    method FindProduct(productId: int) returns (i: nat)
      ensures i <= |items|
      ensures forall j :: 0 <= j < i ==> items[j].product.id != productId
      ensures i < |items| ==> items[i].product.id == productId
    {
      i := 0;
      while i < |items|
        invariant i <= |items|
        invariant forall j :: 0 <= j < i ==> items[j].product.id != productId
      {
        if items[i].product.id == productId {
          return;
        }
        i := i + 1;
      }
    }

    /** The merge step of `addItem`: item `i`, the first one with the
        incoming item's product, takes on the incoming quantity and the cart
        is stamped `now`. */
    method MergeAt(i: nat, item: CartItem, now: int)
      requires Valid() && i < |items| && items[i].product.id == item.product.id
      requires forall j :: 0 <= j < i ==> items[j].product.id != item.product.id
      modifies items[i..i + 1]`quantity, this`updatedAt
      ensures Valid() && items == old(items)
      ensures Lines() == AddLine(old(Lines()), old(item.AsLine()))
      ensures updatedAt == now
    {
      ghost var before := Lines();
      ghost var incoming := item.AsLine();
      AddLineAt(before, incoming, i);
      var existing := items[i];
      existing.SetQuantity(existing.quantity + item.quantity);
      updatedAt := now;
      forall j | 0 <= j < |items| && j != i ensures Lines()[j] == before[j] {
        assert items[j] != existing;
      }
      assert Lines() == before[i := Merge(before[i], incoming)];
    }

    /** `addItem`: an item whose product is already in the cart is merged
        into the first item for that product, whose quantity grows by the
        incoming quantity; the collection and the incoming item are left
        alone. Otherwise the item is appended once and pointed at this cart.
        Either way `updatedAt` becomes `now`. */
    method AddItem(item: CartItem, now: int)
      requires Valid()
      modifies this`items, this`updatedAt, items`quantity, item`cart
      ensures Valid()
      ensures Lines() == AddLine(old(Lines()), old(item.AsLine()))
      ensures |items| == |old(items)| ==> items == old(items) && item.cart == old(item.cart)
      ensures |items| != |old(items)| ==> items == old(items) + [item] && item.cart == this
      ensures updatedAt == now
    {
      ghost var before := Lines();
      ghost var incoming := item.AsLine();
      var i := FindProduct(item.product.id);
      assert Lines() == before && item.AsLine() == incoming;
      if i < |items| {
        MergeAt(i, item, now);
      } else {
        Append(item, now);
      }
    }

    /** The tail of `addItem` when no item has the incoming item's product:
        the item is appended unless already held (it cannot be, its product
        would have matched) and pointed at this cart. */
    method Append(item: CartItem, now: int)
      requires Valid()
      requires forall j :: 0 <= j < |items| ==> items[j].product.id != item.product.id
      modifies this`items, this`updatedAt, item`cart
      ensures Valid() && items == old(items) + [item] && item.cart == this
      ensures Lines() == old(Lines()) + [old(item.AsLine())]
      ensures Lines() == AddLine(old(Lines()), old(item.AsLine()))
      ensures updatedAt == now
    {
      ghost var before := Lines();
      AddLineAt(before, item.AsLine(), |items|);
      if item !in items {
        items := items + [item];
        item.cart := this;
      }
      updatedAt := now;
      assert Lines() == before + [item.AsLine()];
    }

    /** `removeItem`: drops the item from the collection; if it was there and
        still pointed at this cart, its cart pointer is cleared. `updatedAt`
        becomes `now` even when the item was absent. */
    method RemoveItem(item: CartItem, now: int)
      requires Valid()
      modifies this`items, this`updatedAt, item`cart
      ensures Valid()
      ensures items == RemoveElement(old(items), item)
      ensures item !in items
      ensures forall i :: i in old(items) && i != item ==> i in items
      ensures item.cart == if old(item in items && item.cart == this) then null else old(item.cart)
      ensures updatedAt == now
    {
      RemoveElementDistinct(items, item);
      RemoveElementKeeps(items, item);
      var removed := item in items;
      items := RemoveElement(items, item);
      if removed {
        if item.cart == this {
          item.cart := null;
        }
      }
      updatedAt := now;
    }

    /** `clearCart`: removes every item in turn, as `removeItem` does, and
        stamps `updatedAt`. */
    method ClearCart(now: int)
      requires Valid()
      modifies this`items, this`updatedAt, items`cart
      ensures Valid() && items == [] && TotalQuantity(Lines()) == 0
      ensures forall i :: i in old(items) ==> i.cart == if old(i.cart) == this then null else old(i.cart)
      ensures updatedAt == now
    {
      var snapshot := items;
      for k := 0 to |snapshot|
        invariant items == snapshot[k..]
        invariant forall j :: 0 <= j < k ==> snapshot[j].cart == if old(snapshot[j].cart) == this then null else old(snapshot[j].cart)
        invariant forall j :: k <= j < |snapshot| ==> snapshot[j].cart == old(snapshot[j].cart)
      {
        assert snapshot[k] !in snapshot[k + 1..];
        RemoveItem(snapshot[k], now);
        assert items == snapshot[k + 1..];
      }
      updatedAt := now;
    }

    /** `getTotalQuantity`: the number of units over all items; 0 when empty. */
    method GetTotalQuantity() returns (total: int)
      ensures total == TotalQuantity(Lines())
    {
      total := 0;
      for k := 0 to |items|
        invariant total == TotalQuantity(Lines()[..k])
      {
        assert Lines()[..k + 1] == Lines()[..k] + [Lines()[k]];
        SumAppend(Lines()[..k], [Lines()[k]], Quantity);
        total := total + items[k].quantity;
      }
      assert Lines()[..|items|] == Lines();
    }

    /** `getTotalPrice`: the sum of price times quantity over all items;
        0 when empty. */
    method GetTotalPrice() returns (total: int)
      ensures total == TotalPrice(Lines())
    {
      total := 0;
      for k := 0 to |items|
        invariant total == TotalPrice(Lines()[..k])
      {
        assert Lines()[..k + 1] == Lines()[..k] + [Lines()[k]];
        SumAppend(Lines()[..k], [Lines()[k]], LineTotal);
        total := total + items[k].product.price * items[k].quantity;
      }
      assert Lines()[..|items|] == Lines();
    }
  }

  /** `App\Entity\Wishlist`. `items` holds the wishlist's persisted items,
      the collection a fresh load of the wishlist returns. */
  class Wishlist {
    var user: User?
    var items: seq<WishlistItem>

    constructor ()
      ensures user == null && items == []
    {
      user := null;
      items := [];
    }

    method SetUser(u: User?)
      modifies this`user
      ensures user == u
    {
      user := u;
    }

    /** The product id of each saved item, in order. */
    function ProductIds(): seq<int>
      reads this
    {
      WishedProductIds(items)
    }
  }

  /** The product id of each wishlist item of `s`, in order. */
  function WishedProductIds(s: seq<WishlistItem>): (ids: seq<int>)
    ensures |ids| == |s|
    ensures forall k :: 0 <= k < |s| ==> ids[k] == s[k].product.id
  {
    if s == [] then [] else [s[0].product.id] + WishedProductIds(s[1..])
  }

  /** `App\Entity\WishlistItem`; as for cart items, the product is given at
      construction. */
  class WishlistItem {
    var wishlist: Wishlist?
    const product: Product
    var addedAt: int

    constructor (product: Product, now: int)
      ensures this.product == product && addedAt == now && wishlist == null
    {
      this.product := product;
      addedAt := now;
      wishlist := null;
    }

    method SetWishlist(w: Wishlist?)
      modifies this`wishlist
      ensures wishlist == w
    {
      wishlist := w;
    }
  }
}
