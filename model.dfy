/** `App\Model`: the cart use cases behind the cart endpoints, and the
    product DTO. The Doctrine repositories and entity manager are replaced by
    the in-memory store of `CartModel`: the product table, the saved carts
    and the cart-item table with its auto-increment counter. Reaching the end
    of a method stands for `flush()`. */
module Model {
  import opened Results
  import opened Collections
  import opened CartLines
  import opened Entity

  /** `App\Model\ProductModel`, the product payload. Only `image` and
      `inventoryStatus` may be missing; see `ProductManager.Hydrate`. */
  datatype ProductModel = ProductModel(
    code: string,
    name: string,
    description: string,
    image: Option<string>,
    category: string,
    price: int,
    quantity: int,
    internalReference: string,
    shellId: int,
    inventoryStatus: Option<string>,
    rating: int)

  const ProductNotFound := "Product not found"
  const ItemNotFound := "Item not found"

  /** The cart-item table after `EntityManager::remove` of each item in `gone`. */
  function Without(m: map<int, CartItem>, gone: seq<CartItem>): (r: map<int, CartItem>)
    ensures forall id :: id in r <==> id in m && m[id] !in gone
    ensures forall id :: id in r ==> r[id] == m[id]
  {
    map id | id in m && m[id] !in gone :: m[id]
  }

  /** Removing one more item is removing the longer list. */
  lemma WithoutStep(m: map<int, CartItem>, gone: seq<CartItem>, x: CartItem)
    ensures Without(Without(m, gone), [x]) == Without(m, gone + [x])
  {
    assert forall y :: y in gone + [x] <==> y in gone || y == x;
  }

  /** The items a possibly missing cart holds. */
  function Held(c: Cart?): seq<CartItem>
    reads c
  {
    if c == null then [] else c.items
  }

  /** The lines of a possibly missing cart; a missing cart has none. */
  function LinesOfCart(c: Cart?): seq<Line>
    reads c, Held(c), ProductsOf(Held(c))
  {
    if c == null then [] else c.Lines()
  }

  /** A cart item as Doctrine loads it: the cart join column is not
      nullable, and the item is among its cart's items, which it holds once. */
  ghost predicate Filed(item: CartItem)
    reads item, item.cart
  {
    item.cart != null && item.cart.Valid() && item in item.cart.items
  }

  /** `App\Model\CartModel` together with the part of the database it
      touches. */
  class CartModel {
    /** `ProductRepository::find`: the products by id. */
    var products: map<int, Product>
    /** `CartItemRepository::find`: the saved cart items by id. */
    var cartItems: map<int, CartItem>
    /** The saved carts. */
    var carts: set<Cart>
    /** The id the next saved cart item receives. */
    var nextItemId: int

    /** The tables are consistent: a product is filed under its own id and
        every saved item was numbered before `nextItemId`. */
    ghost predicate Valid()
      reads this
    {
      (forall id :: id in products ==> products[id].id == id) &&
      (forall id :: id in cartItems ==> id < nextItemId)
    }

    /** An empty store over the given product table. */
    constructor (products: map<int, Product>)
      requires forall id :: id in products ==> products[id].id == id
      ensures Valid() && this.products == products
      ensures cartItems == map[] && carts == {} && nextItemId == 0
    {
      this.products := products;
      cartItems := map[];
      carts := {};
      nextItemId := 0;
    }

    /** `getCurrentUserCart`: the user's cart if there is one; otherwise a
        new empty cart owned by the user, which is saved. The user's own
        `cart` field is not set, so a second call in the same request would
        create another cart. */
    method GetCurrentUserCart(user: User, now: int) returns (cart: Cart)
      requires Valid() && (user.cart != null ==> user.cart.Valid())
      modifies this`carts
      ensures Valid() && cart.Valid() && user.cart == old(user.cart)
      ensures old(user.cart) != null ==> cart == old(user.cart) && carts == old(carts)
      ensures old(user.cart) == null ==>
        fresh(cart) && cart.items == [] && cart.user == user &&
        cart.createdAt == now && cart.updatedAt == now && carts == old(carts) + {cart}
    {
      if user.cart != null {
        return user.cart;
      }
      cart := new Cart(now);
      cart.SetUser(user);
      carts := carts + {cart};
    }

    /** The merge branch of `addProductToCart`: item `i` of `cart`, the
        first for product `productId`, takes on `quantity` more units. The
        cart's `updatedAt` is not touched. */
    method Increase(cart: Cart, i: nat, productId: int, quantity: int)
      requires cart.Valid() && i < |cart.items|
      requires cart.items[i].product.id == productId
      requires forall j :: 0 <= j < i ==> cart.items[j].product.id != productId
      modifies cart.items[i..i + 1]`quantity
      ensures cart.Valid()
      ensures forall price :: cart.Lines() == AddLine(old(cart.Lines()), Line(productId, price, quantity))
    {
      ghost var before := cart.Lines();
      var existing := cart.items[i];
      existing.SetQuantity(existing.quantity + quantity);
      forall j | 0 <= j < |cart.items| && j != i ensures cart.Lines()[j] == before[j] {
        assert cart.items[j] != existing;
      }
      forall price ensures cart.Lines() == AddLine(before, Line(productId, price, quantity)) {
        AddLineAt(before, Line(productId, price, quantity), i);
        assert cart.Lines() == before[i := Merge(before[i], Line(productId, price, quantity))];
      }
    }

    /** `addProductToCart`: an unknown product id fails with "Product not
        found" before any cart is looked up or created. Otherwise the user's
        cart (created if missing) gets `quantity` more units of the product;
        the quantity is not checked. */
    method AddProductToCart(user: User, productId: int, quantity: int, now: int)
      returns (r: Result<Cart>)
      requires Valid() && (user.cart != null ==> user.cart.Valid())
      modifies this`carts, this`cartItems, this`nextItemId
      modifies (if user.cart == null then {} else {user.cart})`items
      modifies (if user.cart == null then {} else {user.cart})`updatedAt, Held(user.cart)`quantity
      ensures Valid()
      ensures old(user.cart) != null ==> old(user.cart).user == old(user.cart.user)
      ensures forall i :: i in old(Held(user.cart)) ==> i.cart == old(i.cart) && i.product == old(i.product)
      ensures productId !in products ==>
        r == Err(ProductNotFound) && unchanged(this) &&
        (old(user.cart) != null ==> unchanged(old(user.cart))) &&
        forall i :: i in old(Held(user.cart)) ==> unchanged(i)
      ensures productId in products ==>
        r.Ok? && r.value.Valid() && products == old(products) &&
        (old(user.cart) != null ==> r.value == old(user.cart) && carts == old(carts)) &&
        (old(user.cart) == null ==>
          fresh(r.value) && r.value.user == user && r.value.createdAt == now && carts == old(carts) + {r.value}) &&
        r.value.Lines() == AddLine(old(LinesOfCart(user.cart)), Line(productId, products[productId].price, quantity))
      ensures productId in products && productId in old(ProductIds(LinesOfCart(user.cart))) ==>
        cartItems == old(cartItems) && nextItemId == old(nextItemId) &&
        r.Ok? && r.value.items == old(Held(user.cart)) && r.value.updatedAt == old(r.value.updatedAt)
      ensures productId in products && productId !in old(ProductIds(LinesOfCart(user.cart))) ==>
        r.Ok? && |r.value.items| > 0 &&
        r.value.items == old(Held(user.cart)) + [r.value.items[|r.value.items| - 1]] &&
        fresh(r.value.items[|r.value.items| - 1]) &&
        r.value.updatedAt == now && nextItemId == old(nextItemId) + 1 &&
        cartItems == old(cartItems)[old(nextItemId) := r.value.items[|r.value.items| - 1]] &&
        Filed(r.value.items[|r.value.items| - 1]) &&
        r.value.items[|r.value.items| - 1].cart == r.value &&
        r.value.items[|r.value.items| - 1].product == products[productId] &&
        r.value.items[|r.value.items| - 1].addedAt == now
    {
      if productId !in products {
        return Err(ProductNotFound);
      }
      var product := products[productId];
      ghost var before := LinesOfCart(user.cart);
      ghost var held := Held(user.cart);
      var cart := GetCurrentUserCart(user, now);
      assert cart.items == held && cart.Lines() == before;
      AddToCart(cart, product, quantity, now);
      r := Ok(cart);
    }

    /** The part of `addProductToCart` after the cart is found: the first
        item for the product takes on `quantity` more units, without
        stamping the cart; with no such item, a new item of that quantity
        is added through `Cart::addItem` and saved under the next id. */
    method AddToCart(cart: Cart, product: Product, quantity: int, now: int)
      requires Valid() && cart.Valid()
      modifies this`cartItems, this`nextItemId, cart`items, cart`updatedAt, cart.items`quantity
      ensures Valid() && cart.Valid() && products == old(products) && cart.user == old(cart.user)
      ensures forall i :: i in old(cart.items) ==> i.cart == old(i.cart) && i.product == old(i.product)
      ensures cart.Lines() == AddLine(old(cart.Lines()), Line(product.id, product.price, quantity))
      ensures product.id in old(ProductIds(cart.Lines())) ==>
        cartItems == old(cartItems) && nextItemId == old(nextItemId) && cart.updatedAt == old(cart.updatedAt) &&
        cart.items == old(cart.items)
      ensures product.id !in old(ProductIds(cart.Lines())) ==>
        |cart.items| > 0 && cart.items == old(cart.items) + [cart.items[|cart.items| - 1]] &&
        fresh(cart.items[|cart.items| - 1]) &&
        cart.updatedAt == now && nextItemId == old(nextItemId) + 1 &&
        cartItems == old(cartItems)[old(nextItemId) := cart.items[|cart.items| - 1]] &&
        Filed(cart.items[|cart.items| - 1]) &&
        cart.items[|cart.items| - 1].cart == cart && cart.items[|cart.items| - 1].product == product &&
        cart.items[|cart.items| - 1].addedAt == now
    {
      ghost var before := cart.Lines();
      var i := cart.FindProduct(product.id);
      assert cart.Lines() == before;
      if i < |cart.items| {
        assert ProductIds(before)[i] == product.id;
        Increase(cart, i, product.id, quantity);
      } else {
        Insert(cart, product, quantity, now);
        AddLineAt(before, Line(product.id, product.price, quantity), i);
      }
    }

    /** The insertion branch of `addProductToCart`: a new item for the
        product with the requested quantity, saved under the next id and
        appended to the cart, which it points back to. */
    method Insert(cart: Cart, product: Product, quantity: int, now: int)
      requires Valid() && cart.Valid()
      requires forall j :: 0 <= j < |cart.items| ==> cart.items[j].product.id != product.id
      modifies this`cartItems, this`nextItemId, cart`items, cart`updatedAt
      ensures Valid() && cart.Valid()
      ensures cart.Lines() == old(cart.Lines()) + [Line(product.id, product.price, quantity)]
      ensures product.id !in old(ProductIds(cart.Lines()))
      ensures |cart.items| > 0 && cart.updatedAt == now && nextItemId == old(nextItemId) + 1
      ensures cart.items == old(cart.items) + [cart.items[|cart.items| - 1]]
      ensures fresh(cart.items[|cart.items| - 1])
      ensures cartItems == old(cartItems)[old(nextItemId) := cart.items[|cart.items| - 1]]
      ensures Filed(cart.items[|cart.items| - 1])
      ensures cart.items[|cart.items| - 1].cart == cart && cart.items[|cart.items| - 1].product == product
      ensures cart.items[|cart.items| - 1].addedAt == now
    {
      ghost var before := cart.Lines();
      var item := new CartItem(product, now);
      item.SetQuantity(quantity);
      Save(item);
      assert cart.Lines() == before;
      cart.Append(item, now);
      assert cart.items[|cart.items| - 1] == item;
    }

    /** `EntityManager::persist` of a new cart item: it is filed under the
        next id, which then moves on. */
    method Save(item: CartItem)
      requires Valid()
      modifies this`cartItems, this`nextItemId
      ensures Valid() && nextItemId == old(nextItemId) + 1
      ensures cartItems == old(cartItems)[old(nextItemId) := item]
    {
      cartItems := cartItems[nextItemId := item];
      nextItemId := nextItemId + 1;
    }

    /** What `removeItem` followed by `EntityManager::remove` does to one
        item: the cart drops it and the item table forgets it. */
    method Discard(cart: Cart, item: CartItem, now: int)
      requires Valid() && cart.Valid()
      modifies this`cartItems, cart`items, cart`updatedAt, item`cart
      ensures Valid() && cart.Valid()
      ensures cart.items == RemoveElement(old(cart.items), item) && item !in cart.items
      ensures cart.updatedAt == now
      ensures item.cart == if old(item in cart.items && item.cart == cart) then null else old(item.cart)
      ensures cartItems == Without(old(cartItems), [item])
    {
      cart.RemoveItem(item, now);
      cartItems := Without(cartItems, [item]);
    }

    /** `removeItemFromCart`: an unknown item id fails with "Item not
        found". Otherwise the item leaves its own cart, whichever user that
        cart belongs to (the `user` argument is not consulted), is deleted,
        and that cart is returned. */
    method RemoveItemFromCart(user: User, itemId: int, now: int) returns (r: Result<Cart>)
      requires Valid() && (itemId in cartItems ==> Filed(cartItems[itemId]))
      modifies this`cartItems, if itemId in cartItems then {cartItems[itemId]} else {}
      modifies if itemId in cartItems then {cartItems[itemId].cart} else {}
      ensures Valid() && carts == old(carts)
      ensures itemId !in old(cartItems) ==> r == Err(ItemNotFound) && unchanged(this)
      ensures itemId in old(cartItems) ==>
        var item := old(cartItems[itemId]);
        var cart := old(item.cart);
        r == Ok(cart) && cart.Valid() && cart.items == RemoveElement(old(cart.items), item) &&
        item !in cart.items && item.cart == null && cart.updatedAt == now &&
        cartItems == Without(old(cartItems), [item]) &&
        cart.user == old(cart.user) && item.quantity == old(item.quantity) && item.product == old(item.product)
    {
      if itemId !in cartItems {
        return Err(ItemNotFound);
      }
      var item := cartItems[itemId];
      var cart := item.cart;
      Discard(cart, item, now);
      return Ok(cart);
    }

    /** `updateItemQuantity`: a quantity of zero or less is a removal, with
        its error. Otherwise an unknown id fails with "Item not found" and a
        known item gets exactly that quantity; its cart, unchanged otherwise
        (not even `updatedAt`), is returned. */
    method UpdateItemQuantity(user: User, itemId: int, quantity: int, now: int) returns (r: Result<Cart>)
      requires Valid() && (itemId in cartItems ==> Filed(cartItems[itemId]))
      modifies this`cartItems, if itemId in cartItems then {cartItems[itemId]} else {}
      modifies if itemId in cartItems then {cartItems[itemId].cart} else {}
      ensures Valid() && carts == old(carts)
      ensures itemId !in old(cartItems) ==> r == Err(ItemNotFound) && unchanged(this)
      ensures quantity <= 0 && itemId in old(cartItems) ==>
        var item := old(cartItems[itemId]);
        var cart := old(item.cart);
        r == Ok(cart) && cart.Valid() && cart.items == RemoveElement(old(cart.items), item) &&
        item !in cart.items && item.cart == null && cart.updatedAt == now &&
        cartItems == Without(old(cartItems), [item]) &&
        cart.user == old(cart.user) && item.quantity == old(item.quantity) && item.product == old(item.product)
      ensures quantity > 0 && itemId in old(cartItems) ==>
        var item := old(cartItems[itemId]);
        var cart := old(item.cart);
        r == Ok(cart) && item.quantity == quantity && Filed(item) &&
        item.product == old(item.product) && item.cart == old(item.cart) &&
        unchanged(this) && unchanged(cart)
    {
      if quantity <= 0 {
        r := RemoveItemFromCart(user, itemId, now);
        return;
      }
      if itemId !in cartItems {
        return Err(ItemNotFound);
      }
      var item := cartItems[itemId];
      item.SetQuantity(quantity);
      return Ok(item.cart);
    }

    /** `clearCart`: every item of the user's cart (created if missing) is
        removed from it and deleted. Items of other carts stay saved as they
        were. */
    method ClearCart(user: User, now: int) returns (cart: Cart)
      requires Valid() && (user.cart != null ==> user.cart.Valid())
      modifies this`carts, this`cartItems
      modifies (if user.cart == null then {} else {user.cart})`items
      modifies (if user.cart == null then {} else {user.cart})`updatedAt, Held(user.cart)`cart
      ensures Valid() && cart.Valid() && cart.items == [] && TotalQuantity(cart.Lines()) == 0
      ensures products == old(products) && nextItemId == old(nextItemId)
      ensures old(user.cart) != null ==>
        cart == old(user.cart) && carts == old(carts) && cart.user == old(user.cart.user)
      ensures old(user.cart) == null ==>
        fresh(cart) && cart.user == user && cart.createdAt == now && cart.updatedAt == now &&
        carts == old(carts) + {cart}
      ensures cartItems == Without(old(cartItems), old(Held(user.cart)))
      ensures forall i :: i in old(Held(user.cart)) ==>
        i.cart == (if old(i.cart) == cart then null else old(i.cart)) &&
        i.quantity == old(i.quantity) && i.product == old(i.product)
      ensures |old(Held(user.cart))| > 0 ==> cart.updatedAt == now
      ensures old(user.cart) != null && old(user.cart.items) == [] ==>
        cart.updatedAt == old(user.cart.updatedAt)
    {
      cart := GetCurrentUserCart(user, now);
      Empty(cart, now);
    }

    /** The loop of `clearCart`: `removeItem` and `EntityManager::remove`
        for each item, in order, over a snapshot of the collection. */
    method Empty(cart: Cart, now: int)
      requires Valid() && cart.Valid()
      modifies this`cartItems, cart`items, cart`updatedAt, cart.items`cart
      ensures Valid() && cart.Valid() && cart.items == [] && TotalQuantity(cart.Lines()) == 0
      ensures cartItems == Without(old(cartItems), old(cart.items))
      ensures forall i :: i in old(cart.items) ==>
        i.cart == if old(i.cart) == cart then null else old(i.cart)
      ensures |old(cart.items)| > 0 ==> cart.updatedAt == now
      ensures |old(cart.items)| == 0 ==> cart.updatedAt == old(cart.updatedAt)
      ensures cart.user == old(cart.user)
    {
      ghost var store := cartItems;
      var snapshot := cart.items;
      assert Without(store, snapshot[..0]) == store;
      for k := 0 to |snapshot|
        invariant Valid() && cart.Valid() && cart.items == snapshot[k..]
        invariant cartItems == Without(store, snapshot[..k])
        invariant k > 0 ==> cart.updatedAt == now
        invariant k == 0 ==> cart.updatedAt == old(cart.updatedAt)
        invariant forall j :: 0 <= j < k ==>
          snapshot[j].cart == if old(snapshot[j].cart) == cart then null else old(snapshot[j].cart)
        invariant forall j :: k <= j < |snapshot| ==> snapshot[j].cart == old(snapshot[j].cart)
      {
        DropHead(cart, now);
        WithoutStep(store, snapshot[..k], snapshot[k]);
        assert snapshot[..k] + [snapshot[k]] == snapshot[..k + 1];
      }
      assert snapshot[..|snapshot|] == snapshot;
    }

    /** One turn of the `clearCart` loop: the first item leaves the cart and
        the item table. */
    method DropHead(cart: Cart, now: int)
      requires Valid() && cart.Valid() && |cart.items| > 0
      modifies this`cartItems, cart`items, cart`updatedAt, cart.items[0..1]`cart
      ensures Valid() && cart.Valid() && cart.items == old(cart.items[1..]) && cart.updatedAt == now
      ensures cartItems == Without(old(cartItems), [old(cart.items[0])])
      ensures var head := old(cart.items[0]);
        head.cart == if old(head.cart) == cart then null else old(head.cart)
    {
      var head := cart.items[0];
      assert head !in cart.items[1..];
      assert cart.items == [head] + cart.items[1..];
      Discard(cart, head, now);
    }
  }
}
