# Cart and wishlist core of a Symfony storefront, in Dafny

This project models the shopping-cart and wishlist logic of a PHP/Symfony
e-commerce backend, together with the pieces next to it:

- the user's links to its cart and wishlist;
- writing a product payload onto a product;
- the inventory-status enumeration;
- recognising a bearer token in the Authorization header.

Modules follow the PHP namespaces:

- `Entity` holds `Product`, `User`, `Cart`, `CartItem`, `Wishlist` and `WishlistItem` as classes whose fields the methods update in place.
- `Model` holds `CartModel`, the cart use cases, and the `ProductModel` payload.
- `Service` holds `WishlistManager` and `ProductManager`.
- `Enum` holds `InventoryStatus`.
- `Security` holds the `JwtAuthenticator` logic as pure functions.

Three helper modules support them:

- `Results` has `Option`, `Result` and `Outcome`. An exception the PHP code throws becomes an `Err` or `Fail` value carrying the exception's message.
- `Collections` has the `ArrayCollection` operations the code relies on: `removeElement`, membership and first-index search.
- `CartLines` gives the value view of a cart, one `Line(productId, unitPrice, quantity)` per item. The merge-on-add rule (`AddLine`) and the totals are defined there, and their laws are proved there.

The cart methods are proved against that view. For example,
`Cart.AddItem` ensures `Lines() == AddLine(old(Lines()), old(item.AsLine()))`.
The lemmas about `AddLine` then give:

- the total quantity grows by exactly the incoming quantity;
- the total price grows by the incoming line's total;
- the product ids are kept in order and the new id is appended only if new;
- a cart with one item per product stays that way.

The Doctrine store is in-memory state of the service classes:

- `CartModel` holds the product table, the cart-item table with its auto-increment counter, and the saved carts.
- `WishlistManager` holds each user's wishlist.
- `ProductManager` holds the saved products and the next id.

Reaching the end of a method stands for `flush()`.

Prices and ratings are integers (cents and hundredths). Each `time()` call is
a `now` parameter.

Behaviour of the code worth knowing, which the model keeps:

- Adding a product that is already in the cart does not stamp the cart's `updatedAt` (`src/Model/CartModel.php:63-68`).
- A payload with a refused inventory status leaves the plain fields already written on the product (`src/Service/ProductManager.php:41-57`).
- Item ids are not checked against the requesting user (`src/Model/CartModel.php:84-116`). The `user` argument is not consulted, and the model says so.

## Model

| member | source | states |
|---|---|---|
| Enum.Value | src/Enum/InventoryStatus.php:6-8 | reference definition without a contract: each case's backing string is its own name |
| Enum.From | src/Enum/InventoryStatus.php:5-9 | parsing succeeds exactly for the three backing strings, and the parsed case is backed by the input |
| Enum.FromValue | src/Enum/InventoryStatus.php:6-8 | parsing a case's backing string yields that same case |
| Enum.ValuesAreDistinct | src/Enum/InventoryStatus.php:6-8 | the backing strings of distinct cases differ, and there are exactly three |
| Collections.IndexOf | src/Service/WishlistManager.php:57-58 | the first position holding `x`: it is below the length iff `x` occurs, it holds `x` there, and no earlier element is `x` |
| Collections.RemoveElement | src/Entity/Cart.php:87 | when `x` occurs, one occurrence is removed: the multiset loses exactly one `x`; otherwise the sequence is unchanged |
| Collections.RemoveElementShift | src/Entity/Cart.php:87 | the elements after the removed one move one place earlier, and those before it stay in place |
| Collections.RemoveElementKeeps | src/Entity/Cart.php:87 | every other element is present after removal iff it was present before |
| Collections.RemoveElementDistinct | src/Entity/Cart.php:87 | in a duplicate-free collection, removal leaves no copy of `x` and adds no duplicate |
| CartLines.LineTotal | src/Entity/CartItem.php:67-70 | reference definition without a contract: a line's share of the price is unit price times quantity |
| CartLines.Sum | src/Entity/Cart.php:115-133 | reference definition without a contract: the sum of a per-line share over the lines, 0 for none |
| CartLines.TotalQuantity | src/Entity/Cart.php:115-122 | reference definition without a contract: the sum of the lines' quantities |
| CartLines.TotalPrice | src/Entity/Cart.php:126-133 | reference definition without a contract: the sum of the lines' price times quantity |
| CartLines.AddLine | src/Entity/Cart.php:66-83 | reference definition without a contract: the merge-on-add rule, merging into the first line of the same product or appending; its laws are the `AddLine*` lemmas |
| CartLines.Merge | src/Entity/Cart.php:70 | a merged line keeps the product and unit price of the existing line and adds the two quantities |
| CartLines.AddLineAt | src/Entity/Cart.php:68-79 | when the first `i` lines are for other products, adding merges into line `i` if it is for the incoming product, and appends if `i` is the end |
| CartLines.SumAppend | src/Entity/Cart.php:115-122 | a sum over two concatenated runs of lines is the sum of the two sums |
| CartLines.SumUpdate | src/Entity/Cart.php:68-73 | replacing one line changes a sum by the difference between the two lines' shares |
| CartLines.SumRemoveAt | src/Entity/Cart.php:85-95 | removing one line lowers a sum by exactly that line's share |
| CartLines.AddLineTotalQuantity | src/Entity/Cart.php:66-83 | adding an item, merged or appended, raises the cart's total quantity by exactly the incoming quantity |
| CartLines.AddLineTotalPrice | src/Entity/Cart.php:126-133 | when lines of one product share one price, adding an item raises the total price by the incoming line's total |
| CartLines.AddLineProductIds | src/Entity/Cart.php:66-83 | adding keeps the cart's product ids in order; the incoming id is appended exactly when it was absent |
| CartLines.AddLineKeepsUnique | src/Entity/Cart.php:66-83 | a cart with at most one line per product still has at most one line per product after adding |
| CartLines.MergeLaw | src/Entity/Cart.php:68-73 | adding a product with quantity 2 and then with quantity 3 leaves a single line of quantity 5 |
| CartLines.TotalPriceExample | src/Entity/Cart.php:126-133 | two lines at 10.00 x 2 and 5.00 x 1 give a total price of 25.00 |
| Entity.Product.constructor | src/Entity/Product.php:22-66 | a new product has the given id, no inventory status, and empty or zero fields |
| Entity.User.constructor | src/Entity/User.php:42-56 | stands for `new User()` followed by `setEmail`: the given email, no cart and no wishlist |
| Entity.User.GetUserIdentifier | src/Entity/User.php:74 | the identifier is the email, or the empty string when there is none |
| Entity.User.GetRoles | src/Entity/User.php:76 | the roles are exactly `["ROLE_USER"]` |
| Entity.User.SetCart | src/Entity/User.php:81-91 | the user now points at `c` and a non-null `c` points back at the user; unlinking clears the old cart's user, and linking a new cart leaves the old cart's user pointer alone |
| Entity.User.SetWishlist | src/Entity/User.php:94-101 | the user now points at `w` and a non-null `w` points back at the user; the previous wishlist's user pointer is never cleared |
| Entity.CartItem.constructor | src/Entity/CartItem.php:46-50 | a new item holds quantity 1, belongs to no cart and is stamped `now` |
| Entity.CartItem.SetCart | src/Entity/CartItem.php:55 | sets the cart pointer and, by its frame, no other field |
| Entity.CartItem.SetProduct | src/Entity/CartItem.php:58 | sets the product and, by its frame, no other field |
| Entity.CartItem.SetQuantity | src/Entity/CartItem.php:61 | stores exactly `q`, with no bound, and, by its frame, changes no other field |
| Entity.CartItem.GetTotal | src/Entity/CartItem.php:67-70 | the total is this item's share of the cart's total price; it is non-negative when price and quantity are |
| Entity.LinesOfRemove | src/Entity/Cart.php:85-95 | removing an item removes exactly its line from the cart's value view, so the totals drop by its share (with `SumRemoveAt`) |
| Entity.Cart.constructor | src/Entity/Cart.php:49-54 | a new cart has no items and no user, and both stamps are `now` |
| Entity.Cart.SetUser | src/Entity/Cart.php:59 | sets the user pointer only; the user's own cart pointer is left alone |
| Entity.Cart.FindProduct | src/Entity/Cart.php:68-69 | the position of the first item for the product, or the length when none matches |
| Entity.Cart.MergeAt | src/Entity/Cart.php:69-72 | the first item for the product takes the incoming quantity; the collection is unchanged, the lines become `AddLine` of the old lines, and the cart is stamped |
| Entity.Cart.AddItem | src/Entity/Cart.php:66-83 | the lines become `AddLine` of the old lines and the incoming item; either the collection is unchanged and the incoming item untouched, or the item is appended once and points at the cart; no item is held twice; the cart is stamped |
| Entity.Cart.Append | src/Entity/Cart.php:76-81 | an item for a new product is appended once and points at the cart; the lines become the old lines plus its line, which is `AddLine` here |
| Entity.Cart.RemoveItem | src/Entity/Cart.php:85-95 | the item is removed as `removeElement` does and is no longer held; other items stay; its cart pointer is cleared only if it was held and pointed at this cart; the cart is stamped even when the item was absent |
| Entity.Cart.ClearCart | src/Entity/Cart.php:97-105 | the collection ends empty, so the total quantity is 0; each former item's pointer to this cart is cleared and the cart is stamped |
| Entity.Cart.GetTotalQuantity | src/Entity/Cart.php:115-122 | the result is the sum of the items' quantities over the lines (0 for an empty cart) |
| Entity.Cart.GetTotalPrice | src/Entity/Cart.php:126-133 | the result is the sum of price times quantity over the lines (0 for an empty cart) |
| Entity.Wishlist.constructor | src/Entity/Wishlist.php:43-46 | a new wishlist has no items and no user |
| Entity.Wishlist.SetUser | src/Entity/Wishlist.php:52-56 | sets the user pointer only |
| Entity.WishedProductIds | src/Service/WishlistManager.php:34-35 | one product id per wishlist item, in order |
| Entity.WishlistItem.constructor | src/Entity/WishlistItem.php:36-39 | a new item is stamped `now`, belongs to no wishlist and holds the given product |
| Entity.WishlistItem.SetWishlist | src/Entity/WishlistItem.php:44 | sets the wishlist pointer only |
| Model.Without | src/Model/CartModel.php:93 | the item table without the deleted items: an id stays exactly when its item is not deleted, and it keeps its item |
| Model.WithoutStep | src/Model/CartModel.php:123-126 | deleting items one by one equals deleting them all at once |
| Model.CartModel.constructor | src/Model/CartModel.php:23-33 | an empty store over a product table whose products are filed under their own ids |
| Model.CartModel.GetCurrentUserCart | src/Model/CartModel.php:36-50 | the user's existing cart is returned unchanged; otherwise a fresh empty cart owned by the user, with both stamps set to `now`, is saved and returned; the user's own cart pointer is not set |
| Model.CartModel.Increase | src/Model/CartModel.php:63-68 | the first item for the product gains the requested quantity; the lines become `AddLine` of the old lines for any price; the cart's stamp is not touched |
| Model.CartModel.AddProductToCart | src/Model/CartModel.php:53-81 | an unknown product fails with "Product not found" and nothing changes, not even a cart creation; otherwise the lines become `AddLine` with the requested quantity; a present product only grows an item, the cart keeps the same item objects and the stamp; a new product gets exactly one fresh saved item, appended after the old items, pointing back at the cart, holding the product and stamped `now`; a created cart carries `createdAt == now`; an existing cart keeps its owner and the held items keep their cart and product |
| Model.CartModel.AddToCart | src/Model/CartModel.php:60-80 | after the cart is found: merge without a stamp and with the same item objects, or one fresh saved item appended after the old items, pointing at the cart, holding the product and stamped `now`; the lines become `AddLine` either way; the products, the cart's owner and the held items' cart and product are kept |
| Model.CartModel.Insert | src/Model/CartModel.php:72-80 | a fresh item with the requested quantity is saved under the next id and appended after the old items, which stay in place; it points back at the cart, holds the product and is stamped `now`; its line is appended to the lines |
| Model.CartModel.Save | src/Model/CartModel.php:77 | a new item is filed under the next id, which then moves on |
| Model.CartModel.Discard | src/Model/CartModel.php:92-93 | the cart drops the item as `removeItem` does and the item table forgets it |
| Model.CartModel.RemoveItemFromCart | src/Model/CartModel.php:84-97 | an unknown id fails with "Item not found" and nothing changes; otherwise the item leaves its own cart, which is returned and stamped, its cart pointer is cleared, and it is deleted; the cart's owner and the item's quantity and product are kept |
| Model.CartModel.UpdateItemQuantity | src/Model/CartModel.php:100-116 | a quantity of 0 or less behaves exactly as removal, error included; a positive quantity on an unknown id fails with "Item not found"; otherwise the item takes exactly that quantity, keeps its product and cart, and the store and the cart are unchanged |
| Model.CartModel.ClearCart | src/Model/CartModel.php:119-130 | the user's cart, created if missing, ends empty with total quantity 0; exactly its former items are deleted and their pointers to it cleared, their quantity and product untouched; a created cart is saved with both stamps `now`, an existing cart keeps its owner, and the products and id counter are kept; an existing cart that was already empty keeps its `updatedAt`, since only `removeItem` stamps it |
| Model.CartModel.Empty | src/Model/CartModel.php:123-126 | after the loop the cart is empty, every former item is deleted and its pointer cleared, and the owner is untouched; the cart is stamped `now` if it held an item and otherwise keeps its `updatedAt` |
| Model.CartModel.DropHead | src/Model/CartModel.php:124-125 | one turn of the loop: the first item leaves the cart and the item table |
| Service.WishlistManager.constructor | src/Service/WishlistManager.php:14-17 | no user has a wishlist yet |
| Service.WishlistManager.ListItems | src/Service/WishlistManager.php:69-73 | the items of the user's wishlist, or none when the user has none; nothing is created |
| Service.WishlistManager.GetOrCreateWishlist | src/Service/WishlistManager.php:19-29 | the existing wishlist is returned unchanged; otherwise a fresh empty one owned by the user is saved |
| Service.WishlistManager.AddProduct | src/Service/WishlistManager.php:31-48 | returns true iff the product had no item; then exactly one fresh item for it, stamped `now`, is saved at the end, and otherwise nothing changes; the wishlist is created if missing and no other user gains one; one item per product is preserved |
| Service.WishlistManager.FindWished | src/Service/WishlistManager.php:34-38 | the search loop finds the first position of the product id among the items' ids |
| Service.WishlistManager.AddTo | src/Service/WishlistManager.php:34-47 | add-if-absent on a found wishlist: the ids gain the product id at the end exactly when it was absent, through one fresh item for the product that points at the wishlist and is stamped `now` |
| Service.WishlistManager.RemoveProduct | src/Service/WishlistManager.php:50-67 | no wishlist gives false and creates none; returns true iff the product had an item; only the first matching item is removed, the others keep their order; on ids this is `RemoveElement` |
| Service.WishlistManager.RemoveFrom | src/Service/WishlistManager.php:57-66 | remove-first-match on a found wishlist: exactly the first matching item is removed, and the ids become `RemoveElement` of the old ids |
| Service.WishedProductIdsRemoveAt | src/Service/WishlistManager.php:59 | dropping the item at position `k` drops the product id at position `k` |
| Service.AddThenRemove | src/Service/WishlistManager.php:31-67 | adding an absent product and then removing it gives back the wishlist's product ids |
| Service.ProductManager.constructor | src/Service/ProductManager.php:13 | nothing is saved yet |
| Service.ProductManager.Hydrate | src/Service/ProductManager.php:39-59 | the ten plain fields carry the payload, a missing image becoming `""`; succeeds iff the status is missing or one of the three values; a missing or refused status keeps the old one, with the fixed message on refusal; an accepted status sets the case it names |
| Service.ProductManager.CreateFromModel | src/Service/ProductManager.php:15-23 | on success a fresh product carrying the payload, with the parsed status or none, is saved under the next id; on a refused status nothing is saved |
| Service.ProductManager.UpdateFromModel | src/Service/ProductManager.php:25-31 | the same product instance carries the payload and is returned; an accepted status is set to the case it names, a missing one keeps the old status; a refused status fails with the fixed message and keeps the old status |
| Security.StartsWith | src/Security/JwtAuthenticator.php:33 | reference definition without a contract: PHP's `str_starts_with` |
| Security.Falsy | src/Security/JwtAuthenticator.php:40 | reference definition without a contract: the header values `!$authHeader` rejects (absent, `""`, `"0"`) |
| Security.Supports | src/Security/JwtAuthenticator.php:29-34 | true iff a header is present, at least seven characters long, and is `"Bearer "` followed by the rest of it |
| Security.SupportsIffPrefixed | src/Security/JwtAuthenticator.php:29-34 | a header is supported iff it is `"Bearer "` followed by some token |
| Security.Token | src/Security/JwtAuthenticator.php:44 | `"Bearer "` followed by the extracted token is the header |
| Security.Authenticate | src/Security/JwtAuthenticator.php:36-62 | fails with "No Bearer token provided" iff the header is not supported; for a supported header, fails with "Invalid or expired JWT token" iff decoding fails; succeeds iff decoding gives an identity that is a known user, and returns that user; every failure is one of the three messages |
| Security.OnAuthenticationFailure | src/Security/JwtAuthenticator.php:70-73 | status 401, and the error text is `"Unauthorized: "` followed by the message |
| Security.FalsyIsNotBearer | src/Security/JwtAuthenticator.php:40-42 | a header PHP treats as false never passes the prefix test, so `authenticate` rejects exactly what `supports` rejects |
| Security.TokenRoundTrip | src/Security/JwtAuthenticator.php:44 | a prefixed token is supported, and extraction gives the token back |
| Security.AuthenticateBearer | src/Security/JwtAuthenticator.php:44-58 | for `"Bearer " + t`, the outcome is decided by what `t` decodes to and whether that identity is a known user |
| Security.FailureTextDetermined | src/Security/JwtAuthenticator.php:72 | different failure messages give different response texts |

## Left out

- Floating-point prices and ratings: modelled as integers (cents, hundredths), so rounding is not captured.
- `time()`: every stamp is a `now` parameter. Two calls within one PHP method get the same `now`.
- Persistence: `persist`, `remove` and `flush` are not modelled as separate steps. A method's end stands for a successful flush; database failures and rollbacks are not modelled.
- Lazy loading and identity maps are not modelled: the store maps hold the objects directly.
- Concurrency is not modelled, including the race between reading and creating a cart or wishlist.
- Controllers, JSON handling, `AuthController` login and registration, and the migrations are not part of this model. Their guards (quantity defaulting to 1, `updateItem` refusing quantities of 0 or less) are not preconditions here, because the model's methods accept every integer, as the PHP methods do.
- `ProductManager::delete` and the product lifecycle stamps (`onPrePersist`, `onPreUpdate`) are not modelled; they are `EntityManager` calls and `time()`.
- `src/Service/CartManager.php` only delegates and is not part of this model.
- Entity.CartItem.constructor: the product is a constructor argument. Every caller sets it right after `new CartItem()`, and the join column is not nullable, so a product-less item is never observed.
- Entity.WishlistItem.constructor: the product is a constructor argument and is fixed afterwards, because `setProduct` is only called right after `new WishlistItem()`.
- Entity.Product.constructor: a new product's strings are `""` and its numbers `0` where PHP starts them as `null`. A null field of a payload (a `TypeError` in PHP) is not representable; only `image` and `inventoryStatus` may be missing.
- Service.WishlistManager.AddProduct: `items` holds the wishlist's saved rows. `addProduct` persists the new item but does not append it to the in-memory collection of the wishlist object it loaded; the model shows what the next load returns.
- Model.CartModel.GetCurrentUserCart: the `if (!$user)` branch is dead for a non-null `User` parameter and is left out.
- Model.CartModel.RemoveItemFromCart: a saved item's cart is required to be non-null and to hold the item (the join column is not nullable). A store-wide invariant over all saved items is not stated; callers give this fact per item.
- Model.CartModel.UpdateItemQuantity: the same per-item requirement as `RemoveItemFromCart`.
- Model.CartModel.AddProductToCart: PHP integers are 64 bits wide. The sum `getQuantity() + $quantity` (`src/Entity/Cart.php:70`, `src/Model/CartModel.php:65`) can overflow to a float, and `setQuantity(int)` then throws a `TypeError`. The model's integers are unbounded, so this failure is not modelled; the same holds for `Entity.Cart.AddItem`.
- Entity.Cart.GetTotalQuantity: the `+=` accumulation (`src/Entity/Cart.php:119`) can overflow past 64 bits and break the `int` return type; the model's sum is unbounded. `Entity.Cart.GetTotalPrice` sums floats in PHP and unbounded integers here.
- Model.CartModel.AddProductToCart: the user's cart is required not to hold one item twice, per call, instead of as a store-wide invariant.
- Entity.Cart.RemoveItem: its contract has no totals clause. `Entity.LinesOfRemove` together with `CartLines.SumRemoveAt` gives the effect on the totals.
- Security.Authenticate: `JWT::decode` (signature and expiry checks) and the repository lookup by email are parameters. The lazy user loading of `UserBadge` is folded into the call, and `decode` yields the `user` claim directly; a payload without that claim is not modelled. The `!$authHeader` test is modelled, and `FalsyIsNotBearer` shows it adds nothing to the prefix test.
- `onAuthenticationSuccess` always returns `null` and is not modelled.
