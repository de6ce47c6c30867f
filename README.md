# Food cart platform: a verified model of its cart, order and owner logic

The platform is a Spring Boot food-ordering backend with a browser front end.
Customers fill a single-shop cart and place orders. Shop owners manage their
menu and orders and read a dashboard of statistics.

This project models two parts of it in Dafny and proves properties of them.

**The backend services.** These are `CartService`, `OrderService`,
`OwnerOrderService`, `MenuService`, `ShopService`, `OwnerStatisticsService`,
`AuthService` and the queries of `OrderRepository`.
- The database is a `Database` object (`repositories.dfy`). Its fields are the tables, each a sequence of rows in id order.
- `Snapshot()` gives all the tables as one `Store` value.
- Each service method is a Dafny method that `modifies` the database. It is proved against a pure function of the store it starts from.
- A failing `@Transactional` call leaves the store exactly as it was.
- Money is an integer number of cents.
- The invariant `Entities.Valid` covers five rules:
  - keys are unique and fresh, and no owner has two shops;
  - there is at most one line per menu item in a cart;
  - every line belongs to its cart's shop;
  - a cart's shop is null exactly when the cart is empty;
  - every line holds at least one unit.

  It holds for the empty store and is preserved by every successful operation.

**The front-end scripts.** These are `cart-overlay.js`, `toast.js`, the helpers of `utils.js` and the cart-badge and skeleton helpers of `animations.js`.
- `CartBadgeManager`, `CartOverlay`, `ToastNotification` and the page that `animations.js` edits are classes whose fields are the DOM state these scripts read and write.
- The `localStorage` record, the HTTP status and body, and the way each `fetch` ended are inputs.
- Every timer that `toast.js` starts is an explicit pending step, and any pending timer may fire next.

Files:
- `common.dfy`: options, errors, outcomes and sequence filters.
- `entities.dfy`: the entities, look-ups and store invariants.
- `repositories.dfy`: the database object.
- One file per service: `cart_service.dfy`, `order_service.dfy`, `owner_order_service.dfy`, `menu_service.dfy`, `shop_service.dfy`, `owner_statistics.dfy` and `auth_service.dfy`.
- `order_queries.dfy`: the repository queries.
- `text.dfy`: JavaScript number/string conversions.
- `page.dfy`: the `/api/cart` JSON and the badge element.
- `utils.dfy`, `cart_overlay.dfy`, `toast.dfy` and `animations.dfy`.

## Model

Java paths are under `src/main/java/com/food/cart/`.

| member | source | states |
|---|---|---|
| Repositories.Database.constructor | src/main/java/com/food/cart/model/Cart.java:25-29 | a fresh database holds no rows and satisfies the store invariant |
| Repositories.Database.Restore | src/main/java/com/food/cart/service/CartService.java:56-57 | rolling back a transaction puts every table back to the given state |
| Repositories.Database.NewId | src/main/java/com/food/cart/service/AuthService.java:46 | saving a row hands out the next key and advances the counter by one |
| Entities.FindUserByUsername | src/main/java/com/food/cart/service/AuthService.java:75-76 | finds a user with that username, or proves none exists |
| Entities.FindShopByOwner | src/main/java/com/food/cart/repository/ShopRepository.java:11 | finds a shop owned by the owner, or proves the owner has none |
| Entities.FindShop | src/main/java/com/food/cart/service/ShopService.java:34-36 | finds the shop with that id, or proves there is none |
| Entities.FindMenuItem | src/main/java/com/food/cart/service/CartService.java:61-62 | finds the menu item with that id, or proves there is none |
| Entities.MenuOfShop | src/main/java/com/food/cart/service/ShopService.java:38 | holds exactly the menu items of that shop |
| Entities.CartIndexOfUser | src/main/java/com/food/cart/service/CartService.java:58-59 | locates the user's cart, or proves the user has none |
| Entities.LinesOf | src/main/java/com/food/cart/service/CartService.java:74 | the lines of a cart are exactly the rows with that cart id, in table order |
| Entities.ItemsOfOrder | src/main/java/com/food/cart/service/OrderService.java:87 | the lines of an order are exactly the rows with that order id |
| Entities.EmptyStore | src/main/java/com/food/cart/model/Cart.java:25-29 | the empty store satisfies every store invariant |
| CartService.CartTotal | src/main/java/com/food/cart/service/CartService.java:122-134 | the total is defined iff every line's menu item exists; it is 0 for no lines |
| CartService.SumLines | src/main/java/com/food/cart/service/CartService.java:125-130 | the accumulating loop computes the sum of price times quantity, or stops at a missing menu item |
| CartService.Recalculated | src/main/java/com/food/cart/service/CartService.java:122-134 | recalculation fails with "Menu item not found" iff a line's item is gone; otherwise only that cart's totalAmount changes, and it becomes the sum |
| CartService.RecalculateCartTotal | src/main/java/com/food/cart/service/CartService.java:122-134 | the method does what `Recalculated` says and leaves the store unchanged on failure |
| CartService.RecalculatedKeepsValid | src/main/java/com/food/cart/service/CartService.java:132-133 | recalculating a total keeps the store invariant |
| CartService.LineView | src/main/java/com/food/cart/service/CartService.java:136-147 | a line's DTO carries its id, item and quantity plus the current name and price; it fails iff the item is gone |
| CartService.LineViews | src/main/java/com/food/cart/service/CartService.java:38-41 | the line DTOs map the lines one to one, in order |
| CartService.GetCart | src/main/java/com/food/cart/service/CartService.java:34-54 | a missing cart fails with "Cart not found"; otherwise it succeeds iff every line's menu item exists, failing with that error. The DTO carries the cart's id, shop, stored total and its lines' DTOs. The shop name is present iff a shop row has the cart's shop id, and is then that shop's name |
| CartService.AddItemOutcome | src/main/java/com/food/cart/service/CartService.java:58-71 | errors come in order: cart not found, then menu item not found, then a different shop; on a valid store every other request succeeds |
| CartService.AddItemEffect | src/main/java/com/food/cart/service/CartService.java:64-94 | a successful add sets the cart's shop to the item's shop and its total to the recomputed sum; other carts and tables are untouched |
| CartService.AddItemMerges | src/main/java/com/food/cart/service/CartService.java:73-91 | an existing line for the item grows by the quantity and no key is used; otherwise exactly one new line with the quantity is appended |
| CartService.AddItemAddsQuantity | src/main/java/com/food/cart/service/CartService.java:80-91 | the cart's total number of units grows by exactly the requested quantity |
| CartService.MergeLineAddsQuantity | src/main/java/com/food/cart/service/CartService.java:73-91 | merging or appending a line adds the quantity to the cart's units |
| CartService.AddItemKeepsValid | src/main/java/com/food/cart/service/CartService.java:64-94 | with quantity at least 1, a successful add keeps the store invariant, including one line per item and every line from the cart's shop |
| CartService.AddItemToCart | src/main/java/com/food/cart/service/CartService.java:56-95 | the method does what `AddItem` says, or fails with its error and leaves the store unchanged |
| CartService.RemoveItemOutcome | src/main/java/com/food/cart/service/CartService.java:98-107 | errors come in order: cart not found, then cart item not found, then a line of another user's cart; on a valid store every other request succeeds |
| CartService.RemoveItemLines | src/main/java/com/food/cart/service/CartService.java:109 | the row with that key is cut out and every other row keeps its place; the cart loses that line's units and other carts' lines are unchanged |
| CartService.RemoveItemCarts | src/main/java/com/food/cart/service/CartService.java:111-112 | after a removal the cart's total is the recomputed sum over the remaining lines; other carts are untouched |
| CartService.RemoveItemClearsShop | src/main/java/com/food/cart/service/CartService.java:114-119 | the cart's shop becomes null when no line remains, and is unchanged otherwise |
| CartService.RemoveItemShopIffLines | src/main/java/com/food/cart/service/CartService.java:114-119 | a removal keeps "shop is null iff the cart has no lines" for every cart |
| CartService.RemoveItemKeepsValid | src/main/java/com/food/cart/service/CartService.java:97-120 | a successful removal keeps the store invariant |
| CartService.RemoveItemFromCart | src/main/java/com/food/cart/service/CartService.java:97-120 | the method does what `RemoveItem` says, or fails with its error and leaves the store unchanged |
| CartService.TotalDefined | src/main/java/com/food/cart/service/CartService.java:127-128 | in a store whose lines all belong to their cart's shop, totals and line DTOs never hit a missing item |
| CartService.ViewTotalMatches | src/main/java/com/food/cart/service/CartService.java:122-147 | the recomputed total equals the sum of price times quantity over the cart's line DTOs |
| CartService.AddThenGetCart | src/main/java/com/food/cart/service/CartService.java:34-95 | after an add, reading the cart succeeds and its total matches its lines |
| CartService.RemoveThenGetCart | src/main/java/com/food/cart/service/CartService.java:34-54 | after a removal, reading the cart succeeds and its total matches its lines |
| CartService.TotalQuantityAppend | src/main/java/com/food/cart/service/CartService.java:80-91 | the unit count of a concatenation is the sum of the parts' counts |
| OrderService.PlacedOutcome | src/main/java/com/food/cart/service/OrderService.java:37-48 | errors come in order: cart not found, then an empty cart, then a cart with no shop; on a valid store a non-empty cart is always placed |
| OrderService.PlacedSucceeds | src/main/java/com/food/cart/service/OrderService.java:46-69 | in a store whose non-empty carts have a shop and whose lines' items exist, placing a non-empty cart succeeds |
| OrderService.PlacedOrder | src/main/java/com/food/cart/service/OrderService.java:51-56 | exactly one order is appended: it has the next key, the user, the cart's shop, the cart's stored total (not recomputed) and PENDING |
| OrderService.PlacedLines | src/main/java/com/food/cart/service/OrderService.java:59-69 | the new order has one line per cart line, in order, with the same item and quantity and the item's current price |
| OrderService.OrderLinesCopy | src/main/java/com/food/cart/service/OrderService.java:59-69 | order line i gets key first+i, the order id, cart line i's item and quantity, and that item's price |
| OrderService.OrderLinesDefined | src/main/java/com/food/cart/service/OrderService.java:60-61 | the order lines can be built iff every cart line's menu item exists |
| OrderService.PlacedClearsCart | src/main/java/com/food/cart/service/OrderService.java:71-75 | afterwards the cart has no lines, a null shop and total 0; other carts and their lines are unchanged |
| OrderService.PlacedKeepsValid | src/main/java/com/food/cart/service/OrderService.java:35-76 | placing an order keeps the store invariant |
| OrderService.PlacedJoinsHistory | src/main/java/com/food/cart/service/OrderService.java:52-56 | the customer's orders after placement are those before plus the new order |
| OrderService.SaveOrderLine | src/main/java/com/food/cart/service/OrderService.java:63-68 | saving one order line appends it with the next key and changes no other table |
| OrderService.SaveOrderLines | src/main/java/com/food/cart/service/OrderService.java:59-69 | the loop saves exactly the lines `OrderLines` describes, or reports a missing menu item |
| OrderService.PlaceOrder | src/main/java/com/food/cart/service/OrderService.java:35-76 | the method does what `Placed` says, or fails with its error and leaves the store unchanged |
| OrderService.OrderItemViewOf | src/main/java/com/food/cart/service/OrderService.java:113-122 | an order line's DTO keeps its id, quantity and price at order and carries the name of the menu item with that id; it fails iff the menu item is gone |
| OrderService.OrderViewFields | src/main/java/com/food/cart/service/OrderService.java:86-111 | an order's DTO carries its id, shop, total, status and line DTOs. The shop name is present iff a shop row has the order's shop id, and is then that shop's name. In the customer's view the username is present iff a user row has the customer id, and is then that user's name; the owner's view has none |
| OrderService.OrderHistoryExact | src/main/java/com/food/cart/service/OrderService.java:78-84 | the history has one DTO per order of the customer, in repository order, each with that order's lines |
| OrderQueries.OrdersBy | src/main/java/com/food/cart/repository/OrderRepository.java:15-17 | `findByCustomerId` and `findByShopId`: holds exactly the orders whose customer id (or shop id) is the key |
| OrderQueries.Revenue | src/main/java/com/food/cart/repository/OrderRepository.java:19-20 | the revenue is null iff the shop has no DELIVERED order |
| OrderQueries.RevenueAppend | src/main/java/com/food/cart/repository/OrderRepository.java:19-20 | a delivered order of the shop adds its total to the revenue, and any other order leaves it unchanged |
| OrderQueries.PendingCount | src/main/java/com/food/cart/repository/OrderRepository.java:22-23 | the count is 0 iff the shop has no PENDING order |
| OrderQueries.PendingCountAppend | src/main/java/com/food/cart/repository/OrderRepository.java:22-23 | each pending order of the shop adds exactly one to the count |
| OrderQueries.GroupKeys | src/main/java/com/food/cart/repository/OrderRepository.java:25-26 | the GROUP BY keys are distinct and are exactly the ordered menu items |
| OrderQueries.Grouped | src/main/java/com/food/cart/repository/OrderRepository.java:25-26 | each group's total is the sum of quantities for its menu item |
| OrderQueries.SortByTotal | src/main/java/com/food/cart/repository/OrderRepository.java:27 | ORDER BY total DESC: the result is non-increasing and a permutation of its input |
| OrderQueries.InsertByTotal | src/main/java/com/food/cart/repository/OrderRepository.java:27 | insertion keeps the rows non-increasing and adds exactly one row |
| OrderQueries.SortKeepsDistinct | src/main/java/com/food/cart/repository/OrderRepository.java:25-27 | sorting keeps one row per menu item |
| OrderQueries.TopSellingRows | src/main/java/com/food/cart/repository/OrderRepository.java:25-28 | top selling gives one row per ordered item, non-increasing by total; the total sums quantities over all the shop's orders whatever their status |
| OwnerOrderService.ShopOrdersExact | src/main/java/com/food/cart/service/OwnerOrderService.java:34-81 | fails with "Shop not found for owner" without a shop; otherwise gives one DTO per order of that shop, in order, with no customer name |
| OwnerOrderService.StatusUpdateOutcome | src/main/java/com/food/cart/service/OwnerOrderService.java:46-55 | errors come in order: no shop, then no order; an existing order is forbidden iff it belongs to another shop |
| OwnerOrderService.StatusUpdateEffect | src/main/java/com/food/cart/service/OwnerOrderService.java:57-58 | a successful update sets that order's status to any requested value; no other field, order or table changes |
| OwnerOrderService.StatusUpdateSameStatus | src/main/java/com/food/cart/service/OwnerOrderService.java:57-58 | setting the status an order already has leaves the store unchanged |
| OwnerOrderService.StatusUpdateIdempotent | src/main/java/com/food/cart/service/OwnerOrderService.java:45-59 | repeating a successful update succeeds and changes nothing more |
| OwnerOrderService.StatusUpdateKeepsValid | src/main/java/com/food/cart/service/OwnerOrderService.java:45-59 | a status update keeps the store invariant |
| OwnerOrderService.DeliverMovesTotal | src/main/java/com/food/cart/service/OwnerOrderService.java:57-58 | delivering a pending order adds its total to the shop's revenue and lowers the pending count by one |
| OwnerOrderService.UpdateOrderStatus | src/main/java/com/food/cart/service/OwnerOrderService.java:45-59 | the method does what `StatusUpdated` says, or fails with its error and leaves the store unchanged |
| MenuService.OwnedItem | src/main/java/com/food/cart/service/MenuService.java:39-47 | the ownership check fails with no shop, then with no item, then with Forbidden iff the item belongs to another shop |
| MenuService.ItemAddedEffect | src/main/java/com/food/cart/service/MenuService.java:24-34 | fails iff the owner has no shop; otherwise exactly one item with the DTO's fields and the owner's shop is appended to that shop's menu |
| MenuService.ItemAddedKeepsValid | src/main/java/com/food/cart/service/MenuService.java:23-35 | adding an item keeps the store invariant |
| MenuService.AddMenuItem | src/main/java/com/food/cart/service/MenuService.java:23-35 | the method does what `ItemAdded` says, or fails and leaves the store unchanged |
| MenuService.ItemUpdatedEffect | src/main/java/com/food/cart/service/MenuService.java:49-53 | the item's name, description, price and imageUrl are overwritten (a null image included); shop, carts and orders are untouched |
| MenuService.PriceUpdateLeavesTotals | src/main/java/com/food/cart/service/MenuService.java:49-53 | a price change leaves every cart's stored total unchanged while the item shows the new price |
| MenuService.ItemUpdatedKeepsValid | src/main/java/com/food/cart/service/MenuService.java:37-54 | updating an item keeps the store invariant |
| MenuService.UpdateMenuItem | src/main/java/com/food/cart/service/MenuService.java:37-54 | the method does what `ItemUpdated` says, or fails and leaves the store unchanged |
| MenuService.ItemDeletedOutcome | src/main/java/com/food/cart/service/MenuService.java:55-73 | an owned item's delete fails iff the item is referenced by an order line or cart line, with the foreign-key violation the commit raises |
| MenuService.ItemDeletedEffect | src/main/java/com/food/cart/service/MenuService.java:56-74 | a successful delete removes exactly that item and keeps the others in order |
| MenuService.DeleteKeepsOthers | src/main/java/com/food/cart/service/MenuService.java:69 | every other menu item survives a delete |
| MenuService.ItemDeletedKeepsValid | src/main/java/com/food/cart/service/MenuService.java:56-74 | deleting an item keeps the store invariant |
| MenuService.DeleteMenuItem | src/main/java/com/food/cart/service/MenuService.java:56-74 | the method does what `ItemDeleted` says, or fails and leaves the store unchanged |
| ShopService.AllShops | src/main/java/com/food/cart/service/ShopService.java:27-31 | one DTO per stored shop, in repository order, with that shop's fields |
| ShopService.MenuViews | src/main/java/com/food/cart/service/ShopService.java:75-82 | one DTO per menu item, in order, with its fields |
| ShopService.ShopMenuExact | src/main/java/com/food/cart/service/ShopService.java:33-41 | fails with "Shop not found" iff no shop has the id; otherwise it holds exactly that shop's items |
| ShopService.AddedItemOnMenu | src/main/java/com/food/cart/service/ShopService.java:38-40 | an item added by the owner appears at the end of that shop's menu |
| ShopService.OwnerShopExact | src/main/java/com/food/cart/service/ShopService.java:60-64 | fails iff no shop has that owner; otherwise gives the DTO of the owner's first shop, which in a valid store is the owner's only shop |
| ShopService.ShopUpdatedEffect | src/main/java/com/food/cart/service/ShopService.java:44-57 | fails iff the owner has no shop; otherwise name, description and address are overwritten and imageUrl only when given |
| ShopService.ShopUpdatedKeepsValid | src/main/java/com/food/cart/service/ShopService.java:43-58 | updating a shop keeps the store invariant |
| ShopService.UpdateShop | src/main/java/com/food/cart/service/ShopService.java:43-58 | the method does what `ShopUpdated` says, or fails and leaves the store unchanged |
| OwnerStatistics.TopItemsKeepOrder | src/main/java/com/food/cart/service/OwnerStatisticsService.java:52-66 | the top items are the query rows whose menu item exists, in the rows' order, each with the row's item id and total and the item's current name |
| OwnerStatistics.DashboardFacts | src/main/java/com/food/cart/service/OwnerStatisticsService.java:30-69 | fails iff the owner has no shop; a null revenue becomes 0; the other fields are the pending count and the distinct top items by non-increasing total |
| OwnerStatistics.GetDashboardStats | src/main/java/com/food/cart/service/OwnerStatisticsService.java:30-69 | the method with its null guards and its loop over the rows computes `Dashboard` |
| AuthService.CustomerRegisteredEffect | src/main/java/com/food/cart/service/AuthService.java:39-52 | appends one ROLE_CUSTOMER user with the encoded password, and one empty cart for that user with total 0 and a null shop |
| AuthService.CustomerRegisteredKeepsValid | src/main/java/com/food/cart/service/AuthService.java:38-53 | registering a customer keeps the store invariant |
| AuthService.RegisterThenGetCart | src/main/java/com/food/cart/service/AuthService.java:48-52 | a new customer's cart reads back empty, with no shop and total 0 |
| AuthService.RegisterCustomer | src/main/java/com/food/cart/service/AuthService.java:38-53 | the method does what `CustomerRegistered` says |
| AuthService.OwnerRegisteredEffect | src/main/java/com/food/cart/service/AuthService.java:56-71 | appends one ROLE_OWNER user and one shop owned by it with the DTO's name, description and address; no cart is created |
| AuthService.OwnerRegisteredKeepsValid | src/main/java/com/food/cart/service/AuthService.java:55-72 | registering an owner keeps the store invariant |
| AuthService.RegisterOwner | src/main/java/com/food/cart/service/AuthService.java:55-72 | the method does what `OwnerRegistered` says |
| AuthService.Login | src/main/java/com/food/cart/service/AuthService.java:74-85 | succeeds iff the user exists and the password matches; an unknown user and a wrong password fail with the same Unauthorized error; success returns the token, username and role name |
| AuthService.RegisterThenLogin | src/main/java/com/food/cart/service/AuthService.java:38-85 | a newly registered customer can log in with their password as ROLE_CUSTOMER |
| Utils.GetAuthState | target/classes/static/js/utils.js:67-76 | authenticated iff the token is non-empty; customer iff the role is ROLE_CUSTOMER; owner iff it is ROLE_OWNER |
| Utils.RequireRole | target/classes/static/js/utils.js:102-109 | stays iff authenticated with exactly the required role; otherwise it redirects to "/" |
| Utils.RequireRoleFlags | target/classes/static/js/utils.js:67-109 | the role guard agrees with the auth-state flags, and no record passes both guards |
| Utils.RequestHeaders | target/classes/static/js/utils.js:17-33 | Content-Type is always present, Authorization is "Bearer token" only with a token, and caller headers override both |
| Utils.HandleResponse | target/classes/static/js/utils.js:35-56 | 401 gives null; another non-ok status throws the body, or "Request failed with status N" for an empty body; an ok status gives the parsed body iff the body is JSON, and otherwise throws the parse error; a network failure is rethrown |
| Utils.LocationAfter | target/classes/static/js/utils.js:39-43 | the browser is sent to "/login" exactly when the call gives null, that is after a 401 |
| Utils.StorageAfter | target/classes/static/js/utils.js:39-43 | a 401 clears the stored record, which is then signed out; any other reply leaves it |
| Utils.IsValidEmailMatchesPattern | target/classes/static/js/utils.js:120-123 | the scanning definition accepts exactly the strings the regular expression matches |
| Utils.ValidatePassword | target/classes/static/js/utils.js:130-142 | invalid iff the password is empty, with the matching message |
| Utils.ValidateUsername | target/classes/static/js/utils.js:149-168 | valid iff the length in UTF-16 code units is 3 to 50, with a message for too short and for too long |
| Utils.ValidateUsernameBmp | target/classes/static/js/utils.js:149-168 | for text without supplementary characters the bounds are 3 to 50 characters |
| Utils.ValidateUsernameCountsCodeUnits | target/classes/static/js/utils.js:150 | two emoji are four code units, so they pass the minimum of 3 |
| Utils.Truncate | target/classes/static/js/utils.js:278-281 | unchanged within maxLength code units; otherwise the first maxLength-3 code units plus "...", which is exactly maxLength long when maxLength is at least 3 |
| Utils.TruncateIdempotent | target/classes/static/js/utils.js:278-281 | truncating twice equals truncating once |
| Utils.TruncateCountsCodeUnits | target/classes/static/js/utils.js:279-280 | four emoji are eight code units: truncated to 5 they keep the first emoji and gain "..." |
| Utils.Clamp | target/classes/static/js/utils.js:359-361 | within [lo, hi] when lo <= hi; unchanged inside the range; hi when lo > hi |
| Utils.ClampIdempotent | target/classes/static/js/utils.js:359-361 | clamping twice equals clamping once |
| Utils.RelativeTimeBuckets | target/classes/static/js/utils.js:332-346 | "Just now" under a minute (future dates included); then minutes, hours and days ago with their bounds; otherwise the formatted date |
| Utils.AgoPlural | target/classes/static/js/utils.js:341-343 | the unit is singular exactly when N is 1 |
| Text.ParseDecimalString | src/main/resources/static/js/cart-overlay.js:92 | parseInt reads back the integer the badge's text was set to |
| Text.NumberTextWhole | src/main/resources/static/js/cart-overlay.js:326 | a whole amount is printed with no decimal point |
| Page.JsonOf | src/main/java/com/food/cart/service/CartService.java:48-53 | the cart JSON has one item per line DTO with its name, price and quantity, and the cart's total |
| Page.BadgeCountIsCartUnits | src/main/resources/static/js/cart-overlay.js:75-78 | the count computed from the cart JSON is the number of units in the user's cart |
| CartOverlay.UpdatedCount | src/main/resources/static/js/cart-overlay.js:44-58 | after update the badge reads back as count, is shown iff count > 0, and pops iff count > 0 |
| CartOverlay.IncrementedCount | src/main/resources/static/js/cart-overlay.js:89-94 | increment sets the count to the current count plus amount |
| CartOverlay.DecrementedCount | src/main/resources/static/js/cart-overlay.js:100-105 | decrement sets the count to max(0, current - amount), is never negative, and hides the badge iff amount covers the count |
| CartOverlay.IncrementThenDecrement | src/main/resources/static/js/cart-overlay.js:89-105 | incrementing then decrementing by the same amount restores the count and its text |
| CartOverlay.RefreshShowsCartUnits | src/main/resources/static/js/cart-overlay.js:70-79 | a successful refresh shows the units in the user's cart, and shows the badge iff there are any |
| CartOverlay.CartBadgeManager.constructor | src/main/resources/static/js/cart-overlay.js:19-37 | without a /cart link there is no badge; otherwise the existing badge is adopted or an empty, hidden one is created |
| CartOverlay.CartBadgeManager.Update | src/main/resources/static/js/cart-overlay.js:44-58 | without a badge nothing changes; otherwise the badge becomes `Updated(badge, count)` |
| CartOverlay.CartBadgeManager.Increment | src/main/resources/static/js/cart-overlay.js:89-94 | without a badge nothing changes; otherwise the badge becomes `Incremented(badge, amount)` |
| CartOverlay.CartBadgeManager.Decrement | src/main/resources/static/js/cart-overlay.js:100-105 | without a badge nothing changes; otherwise the badge becomes `Decremented(badge, amount)` |
| CartOverlay.CartBadgeManager.Refresh | src/main/resources/static/js/cart-overlay.js:63-83 | a request is made iff authenticated as a customer; only a fetched cart updates the badge, to its unit count (0 without items) |
| CartOverlay.Rendered | src/main/resources/static/js/cart-overlay.js:299-327 | empty state and "₹0.00" iff items are absent or empty; otherwise row i shows item i's name, "₹price × quantity" and the line total with two decimals, and the total is the cart's totalAmount as JavaScript prints a number (12.50 shows as "₹12.5") |
| CartOverlay.LoadErrorOnlyWhenThrown | src/main/resources/static/js/cart-overlay.js:273-293 | the error text appears iff the user is signed in and the fetch threw; a non-ok status leaves the spinner |
| CartOverlay.RowOfLine | src/main/resources/static/js/cart-overlay.js:313-320 | row i of the rendered cart shows line i's quantity with the current name and price of its menu item, and their product with two decimals |
| CartOverlay.OverlayShowsCart | src/main/resources/static/js/cart-overlay.js:299-327 | for the user's cart the overlay is empty iff the cart has no lines; otherwise row i shows line i's menu item name and current price, the line's quantity and their product, and the total is the stored total |
| CartOverlay.CartOverlay.constructor | src/main/resources/static/js/cart-overlay.js:191-195 | a new overlay has no element and is closed |
| CartOverlay.CartOverlay.Create | src/main/resources/static/js/cart-overlay.js:199-232 | creates the element once; a second call changes nothing |
| CartOverlay.CartOverlay.RenderCart | src/main/resources/static/js/cart-overlay.js:299-327 | the overlay shows `Rendered(cart)` and its open state is unchanged |
| CartOverlay.CartOverlay.LoadCart | src/main/resources/static/js/cart-overlay.js:273-293 | the overlay shows `AfterLoad` of what it showed, the auth record and how the fetch ended |
| CartOverlay.CartOverlay.Open | src/main/resources/static/js/cart-overlay.js:237-246 | the overlay is created if needed, becomes open and reloads the cart on every call |
| CartOverlay.CartOverlay.Close | src/main/resources/static/js/cart-overlay.js:251-257 | isOpen is cleared, nothing else changes, and it is a no-op before creation |
| CartOverlay.CartOverlay.Toggle | src/main/resources/static/js/cart-overlay.js:262-268 | isOpen flips: an open overlay closes untouched, and a closed one opens and reloads |
| Toast.Icon | target/classes/static/js/toast.js:74-81 | each known type has its icon, and every other type gets the info icon |
| Toast.IconsDistinct | target/classes/static/js/toast.js:74-81 | a type shares the info icon iff it is not success, error or warning |
| Toast.IndexOf | target/classes/static/js/toast.js:114 | indexOf gives -1 or a position holding the element |
| Toast.IndexOfFirst | target/classes/static/js/toast.js:114-115 | indexOf is -1 iff the element is absent, and otherwise it is the first position |
| Toast.RemoveFirstCuts | target/classes/static/js/toast.js:114-117 | the splice cuts exactly the first occurrence out, or nothing if absent |
| Toast.RemoveFirstFacts | target/classes/static/js/toast.js:114-117 | the splice keeps the array duplicate-free and removes exactly that element |
| Toast.ShowAppends | target/classes/static/js/toast.js:36-61 | show appends a new element at the end and keeps earlier toasts in order; auto-dismiss is scheduled iff duration > 0 |
| Toast.DismissDetachedNoOp | target/classes/static/js/toast.js:102-103 | dismissing a null or detached toast changes nothing |
| Toast.FiredKeepsValid | target/classes/static/js/toast.js:54-118 | any timer firing keeps the toast-state invariant |
| Toast.FinishRemovesOnce | target/classes/static/js/toast.js:108-118 | the removal timer detaches the toast and removes it from the array at most once, keeping the others in order |
| Toast.DismissTwiceSameAsOnce | target/classes/static/js/toast.js:103-118 | dismissing twice leaves the same array, attached set and pending timers as dismissing once |
| Toast.DismissAllDismissesEvery | target/classes/static/js/toast.js:124-126 | dismissAll starts the removal of every toast present at call time, in order |
| Toast.ToastNotification.constructor | target/classes/static/js/toast.js:10-28 | a new manager has no toasts and no timers |
| Toast.ToastNotification.Show | target/classes/static/js/toast.js:36-61 | the state becomes `Shown` and the new element is returned |
| Toast.ToastNotification.Dismiss | target/classes/static/js/toast.js:102-119 | the state becomes `Dismissed` |
| Toast.ToastNotification.Fire | target/classes/static/js/toast.js:54-118 | the state becomes `Fired` for that timer: the auto-dismiss timer of `show` (lines 54-58) dismisses its toast, and the removal timer of `dismiss` (lines 108-118) detaches it and splices it out |
| Toast.ToastNotification.DismissAll | target/classes/static/js/toast.js:124-126 | the loop dismisses each toast of the array as it was at call time |
| Toast.ToastNotification.ShowSuccess | target/classes/static/js/toast.js:133-135 | shows a success toast, for 3000 ms by default |
| Toast.ToastNotification.ShowError | target/classes/static/js/toast.js:142-144 | shows an error toast, for 4000 ms by default |
| Toast.ToastNotification.ShowWarning | target/classes/static/js/toast.js:151-153 | shows a warning toast, for 3500 ms by default |
| Toast.ToastNotification.ShowInfo | target/classes/static/js/toast.js:160-162 | shows an info toast, for 3000 ms by default |
| Animations.BadgeAfterUpdate | target/classes/static/js/animations.js:113-125 | nothing happens iff there is neither a badge nor a /cart link |
| Animations.BumpedCount | target/classes/static/js/animations.js:127-140 | the badge reads back as count, is hidden iff count is 0, and pops on every call |
| Animations.BumpedVersusUpdated | target/classes/static/js/animations.js:127-140 | same text as the overlay's update; same visibility iff count >= 0; same pop iff count > 0 |
| Animations.RefreshGuardsAgree | target/classes/static/js/animations.js:147-152 | the token-and-role guard is the same as the overlay's auth-state guard |
| Animations.Document.constructor | target/classes/static/js/animations.js:113-125 | the page starts with the given link and badge and no badge made |
| Animations.Document.UpdateCartBadge | target/classes/static/js/animations.js:113-141 | the badge becomes `BadgeAfterUpdate`, and exactly one badge is created when the link exists without one |
| Animations.Document.RefreshCartBadge | target/classes/static/js/animations.js:146-167 | a request is made iff a token exists and the role is ROLE_CUSTOMER; only a fetched cart updates the badge, to its unit count |
| Animations.RepeatBlocks | target/classes/static/js/animations.js:318-333 | n copies are n times as long, and copy i sits at offset i times the template's length |
| Animations.CreateSkeletonCards | target/classes/static/js/animations.js:318-333 | the loop returns count copies of the card template, and "" for count <= 0 |

## Left out

- Controllers, Spring wiring, JPA mapping and transaction mechanics are not modelled. Each service call is one atomic step, and a failure restores the store.
- `User.java`, `Order.java`, `OrderStatus.java`, `UserRepository.java`, `MenuItemRepository.java`, `CartRepository.java`, `CartItemRepository.java` and `OrderItemRepository.java` are not part of this model. Their fields and derived queries are inferred from their uses in the services.
- The order status values PENDING, PREPARING, READY, DELIVERED and CANCELLED are taken from the status colours of the dashboard charts.
- The database's unique constraints on username and email are not modelled, so registering a duplicate user does not fail.
- BCrypt and the JWT library are foreign code. They are the parameters `encode`, `matches` and `generateToken`.
- Created and updated timestamps are not modelled, because nothing in the modelled logic reads them.
- DTO constructor arity is not modelled: several DTO constructors are called with a different number of arguments than their classes declare. Only the fields the logic reads are modelled.
- `Shop.imageUrl` is kept even though `Shop.java` does not declare it, because `updateShop` writes it.
- SQL leaves the order of top-selling rows with equal totals unspecified. The model fixes one order for ties; the proved properties do not depend on it.
- `countPendingOrders` is a COUNT and never returns null. The null guard in `getDashboardStats` is dead code and is modelled as such.
- The deletion of a menu item that is still referenced fails, as the foreign key makes it do. Cart lines count as references too. `MenuItem.java`'s mapping and the schema's foreign keys are not part of this model.
- BigDecimal arithmetic is exact integer cents, so precision and rounding modes are not modelled.
- AddItemMerges: the merged quantity is an unbounded integer. In the source `CartItem.quantity` is a 32-bit `Integer`, and `AddToCartDTO` bounds the request only from below, so adding 1 unit to a line of 2147483647 saves -2147483648 units. The model grows the line by 1.
- AddItemAddsQuantity: the unit count grows by exactly the requested quantity only while the sum fits in a 32-bit `Integer`; past that the source wraps and the model does not.
- AddItemKeepsValid: `PositiveQuantities` holds in the model because its integers do not wrap. The source can save a wrapped negative line, which breaks it.
- The `precision = 10, scale = 2` bound on the cart's `total_amount` column is not modelled either. A total above 99,999,999.99 fails when the source flushes the cart, but `AddItem` succeeds in the model.
- JavaScript numbers are exact integers and exact cents in the model. Floating-point rounding of `price * quantity` and `toFixed(2)` beyond two decimals is not modelled.
- Front-end text is a Dafny string of Unicode characters. Only `validateUsername` and `truncate` measure or cut text, and they work on UTF-16 code units, as JavaScript's `length` and `substring` do.
- `escapeHtml` depends on the browser's HTML serialisation. Item names and toast messages are carried unescaped.
- `formatDate`, `formatDateTime` and `formatCurrency` are locale- or float-dependent. `getRelativeTime` takes the formatted date as a parameter.
- The clock is the parameter `diffMs` of `getRelativeTime`.
- `localStorage` and `fetch` are inputs: the stored record, the status, body and JSON validity of a response, and the `CartFetch` outcome.
- Writes to `window.location` are results: the `Guard` of `requireRole` and `LocationAfter` of `fetchWithAuth`. The overlay's button that navigates to `/cart` is markup and is not modelled. `console.error` logging is left out.
- Async interleaving is not modelled: each refresh or load is one step with its fetch's outcome. The spinner shown before the fetch is overwritten within the same step.
- The refresh that the `CartBadgeManager` constructor starts is the separate `Refresh` step.
- The overlay's badge and the `animations.js` badge are the same DOM element on a real page. They are two separate objects here, so aliasing between them is not modelled.
- The wiggle timer, the `requestAnimationFrame` slide-in and the 300 ms animation durations are not modelled; only the state changes they lead to are.
- The toast container's lookup-or-create is not modelled: the manager always has a container.
- `icons[type]` for a type named like an `Object.prototype` member (such as `"constructor"`) is not modelled. Every unknown type gets the info icon.
- For `maxLength` below 3, `truncate` cannot meet the length bound: `substring` clamps a negative end to 0 and the result is `"..."`. The model states this case as it is.
- `charts.js`, `debounce`, `throttle`, `randomInt`, `animateCounter`, the modals, lazy loading, the ripple and fly-to-cart animations, and the other `utils.js` and `animations.js` helpers are not part of the core and are not modelled.

Behaviours of the code the model keeps:
- `open()` reloads the cart on every call, even when the overlay is already open.
- A load that completes after `close()` still renders into the closed overlay.
- A non-ok status leaves the spinner up. Only a thrown fetch shows "Error loading cart".
- A dismissed toast stays in `toasts` until its 300 ms removal timer fires, so right after `dismissAll()` and `show()` the array still holds the dismissed toasts.
- `deleteMenuItem` catches `DataIntegrityViolationException` around `delete`, but `delete` only schedules the `DELETE`. The foreign-key violation is raised when the transaction commits, after the method has returned, so the caller gets that violation and never the "Cannot delete menu item" message.
