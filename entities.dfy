/** The relational store behind the services: one datatype per JPA entity
    (`Cart`, `CartItem`, `MenuItem`, `Shop`, `Order`, `OrderItem`, `User`),
    the tables as sequences of rows in id order, the repository look-ups
    the services use, and the invariants the cart operations keep. */
module Entities {
  import opened Common

  datatype Role = RoleCustomer | RoleOwner

  /** `UserRole.name()`. */
  function RoleName(r: Role): string {
    match r
    case RoleCustomer => "ROLE_CUSTOMER"
    case RoleOwner => "ROLE_OWNER"
  }

  datatype OrderStatus = Pending | Preparing | Ready | Delivered | Cancelled

  datatype User = User(id: Id, username: string, email: string, password: string, role: Role)

  datatype Shop = Shop(id: Id, shopName: string, description: string, address: string,
                       ownerId: Id, imageUrl: Option<string>)

  datatype MenuItem = MenuItem(id: Id, name: string, description: string, price: Cents,
                               imageUrl: Option<string>, shopId: Id)

  /** `shopId` is null while the cart is empty. */
  datatype Cart = Cart(id: Id, userId: Id, shopId: Option<Id>, totalAmount: Cents)

  datatype CartItem = CartItem(id: Id, cartId: Id, menuItemId: Id, quantity: int)

  datatype Order = Order(id: Id, customerId: Id, shopId: Id, totalAmount: Cents, status: OrderStatus)

  datatype OrderItem = OrderItem(id: Id, orderId: Id, menuItemId: Id, quantity: int,
                                 priceAtOrder: Cents)

  /** Every table of the database; `nextId` is the next generated key. */
  datatype Store = Store(
    users: seq<User>,
    shops: seq<Shop>,
    menuItems: seq<MenuItem>,
    carts: seq<Cart>,
    cartItems: seq<CartItem>,
    orders: seq<Order>,
    orderItems: seq<OrderItem>,
    nextId: Id)

  /** Index of the first element of `xs` that satisfies `p`. */
  function FirstIndex<T>(xs: seq<T>, p: T -> bool): (r: Option<nat>)
    ensures r.Some? ==> r.value < |xs| && p(xs[r.value])
    ensures r.Some? ==> forall j :: 0 <= j < r.value ==> !p(xs[j])
    ensures r.None? ==> forall i :: 0 <= i < |xs| ==> !p(xs[i])
  {
    if xs == [] then None
    else if p(xs[0]) then Some(0)
    else match FirstIndex(xs[1..], p)
      case None => None
      case Some(k) => Some(k + 1)
  }

  // ---- repository look-ups -------------------------------------------

  /** `userRepository.findByUsername`. */
  function FindUserByUsername(users: seq<User>, username: string): (r: Option<User>)
    ensures r.Some? ==> r.value in users && r.value.username == username
    ensures r.None? ==> forall i :: 0 <= i < |users| ==> users[i].username != username
  {
    FindFirst(users, (u: User) => u.username == username)
  }

  /** The message every owner operation fails with when the owner has no shop. */
  const ShopNotFoundForOwner := "Shop not found for owner"

  /** `shopRepository.findByOwnerId`, as the index of the row. */
  function ShopIndexOfOwner(shops: seq<Shop>, ownerId: Id): (r: Option<nat>)
    ensures r.Some? ==> r.value < |shops| && shops[r.value].ownerId == ownerId
    ensures r.None? ==> forall i :: 0 <= i < |shops| ==> shops[i].ownerId != ownerId
  {
    FirstIndex(shops, (sh: Shop) => sh.ownerId == ownerId)
  }

  function FindShopByOwner(shops: seq<Shop>, ownerId: Id): (r: Option<Shop>)
    ensures r.Some? ==> r.value in shops && r.value.ownerId == ownerId
    ensures r.None? ==> forall i :: 0 <= i < |shops| ==> shops[i].ownerId != ownerId
  {
    match ShopIndexOfOwner(shops, ownerId)
    case None => None
    case Some(k) => Some(shops[k])
  }

  /** `shopRepository.findById`, used through the lazy `getShop()` relations. */
  function FindShop(shops: seq<Shop>, id: Id): (r: Option<Shop>)
    ensures r.Some? ==> r.value in shops && r.value.id == id
    ensures r.None? ==> forall i :: 0 <= i < |shops| ==> shops[i].id != id
  {
    FindFirst(shops, (sh: Shop) => sh.id == id)
  }

  /** `menuItemRepository.findById`, as the index of the row. */
  function MenuItemIndex(items: seq<MenuItem>, id: Id): (r: Option<nat>)
    ensures r.Some? ==> r.value < |items| && items[r.value].id == id
    ensures r.None? ==> forall i :: 0 <= i < |items| ==> items[i].id != id
  {
    FirstIndex(items, (m: MenuItem) => m.id == id)
  }

  function FindMenuItem(items: seq<MenuItem>, id: Id): (r: Option<MenuItem>)
    ensures r.Some? ==> r.value in items && r.value.id == id
    ensures r.None? ==> forall i :: 0 <= i < |items| ==> items[i].id != id
  {
    match MenuItemIndex(items, id)
    case None => None
    case Some(k) => Some(items[k])
  }

  /** `menuItemRepository.findByShopId`. */
  function MenuOfShop(items: seq<MenuItem>, shopId: Id): (r: seq<MenuItem>)
    ensures forall i :: 0 <= i < |r| ==> r[i] in items && r[i].shopId == shopId
    ensures forall i :: 0 <= i < |items| && items[i].shopId == shopId ==> items[i] in r
  {
    Filter(items, (m: MenuItem) => m.shopId == shopId)
  }

  /** `cartRepository.findByUserId`, as the index of the row. */
  function CartIndexOfUser(carts: seq<Cart>, userId: Id): (r: Option<nat>)
    ensures r.Some? ==> r.value < |carts| && carts[r.value].userId == userId
    ensures r.None? ==> forall i :: 0 <= i < |carts| ==> carts[i].userId != userId
  {
    FirstIndex(carts, (c: Cart) => c.userId == userId)
  }

  /** `cartItemRepository.findById`, as the index of the row. */
  function CartItemIndex(lines: seq<CartItem>, id: Id): (r: Option<nat>)
    ensures r.Some? ==> r.value < |lines| && lines[r.value].id == id
    ensures r.None? ==> forall i :: 0 <= i < |lines| ==> lines[i].id != id
  {
    FirstIndex(lines, (l: CartItem) => l.id == id)
  }

  predicate InCart(l: CartItem, cartId: Id) {
    l.cartId == cartId
  }

  /** `cartItemRepository.findByCartId`. */
  function LinesOf(lines: seq<CartItem>, cartId: Id): (r: seq<CartItem>)
    ensures forall i :: 0 <= i < |r| ==> r[i] in lines && r[i].cartId == cartId
    ensures forall i :: 0 <= i < |lines| && lines[i].cartId == cartId ==> lines[i] in r
  {
    Filter(lines, (l: CartItem) => InCart(l, cartId))
  }

  /** Index in the whole table of the first line of cart `cartId` for menu
      item `menuItemId` (the `existingItem` of `addItemToCart`). */
  function LineIndexFor(lines: seq<CartItem>, cartId: Id, menuItemId: Id): (r: Option<nat>)
    ensures r.Some? ==> r.value < |lines| && lines[r.value].cartId == cartId &&
                        lines[r.value].menuItemId == menuItemId
    ensures r.None? ==> forall i :: 0 <= i < |lines| ==>
                          !(lines[i].cartId == cartId && lines[i].menuItemId == menuItemId)
  {
    FirstIndex(lines, (l: CartItem) => l.cartId == cartId && l.menuItemId == menuItemId)
  }

  /** `orderRepository.findById`, as the index of the row. */
  function OrderIndex(orders: seq<Order>, id: Id): (r: Option<nat>)
    ensures r.Some? ==> r.value < |orders| && orders[r.value].id == id
    ensures r.None? ==> forall i :: 0 <= i < |orders| ==> orders[i].id != id
  {
    FirstIndex(orders, (o: Order) => o.id == id)
  }

  /** `orderItemRepository.findByOrderId`. */
  function ItemsOfOrder(items: seq<OrderItem>, orderId: Id): (r: seq<OrderItem>)
    ensures forall i :: 0 <= i < |r| ==> r[i] in items && r[i].orderId == orderId
    ensures forall i :: 0 <= i < |items| && items[i].orderId == orderId ==> items[i] in r
  {
    Filter(items, (oi: OrderItem) => oi.orderId == orderId)
  }

  /** The lines of an order saved after every earlier line are exactly
      the lines saved with it. */
  lemma ItemsOfNewOrder(prior: seq<OrderItem>, added: seq<OrderItem>, orderId: Id)
    requires forall i :: 0 <= i < |prior| ==> prior[i].orderId != orderId
    requires forall i :: 0 <= i < |added| ==> added[i].orderId == orderId
    ensures ItemsOfOrder(prior + added, orderId) == added
  {
    var p := (oi: OrderItem) => oi.orderId == orderId;
    FilterAppend(prior, added, p);
    FilterEmpty(prior, p);
    FilterAll(added, p);
  }

  lemma LinesOfAppend(a: seq<CartItem>, b: seq<CartItem>, cartId: Id)
    ensures LinesOf(a + b, cartId) == LinesOf(a, cartId) + LinesOf(b, cartId)
  {
    FilterAppend(a, b, (l: CartItem) => InCart(l, cartId));
  }

  /** The lines of a cart, split around row `j` of the table. */
  lemma LinesOfSplit(lines: seq<CartItem>, j: nat, cartId: Id)
    requires j < |lines|
    ensures LinesOf(lines, cartId) ==
            LinesOf(lines[..j], cartId) + (if lines[j].cartId == cartId then [lines[j]] else [])
            + LinesOf(lines[j + 1..], cartId)
  {
    assert lines == lines[..j] + ([lines[j]] + lines[j + 1..]);
    LinesOfAppend(lines[..j], [lines[j]] + lines[j + 1..], cartId);
    LinesOfAppend([lines[j]], lines[j + 1..], cartId);
  }

  // ---- invariants of the cart tables ----------------------------------

  /** The menu item `menuItemId` exists and belongs to the shop `shopId`. */
  ghost predicate ItemOfShop(items: seq<MenuItem>, menuItemId: Id, shopId: Option<Id>) {
    exists m :: m in items && m.id == menuItemId && shopId == Some(m.shopId)
  }

  /** Keys of the user table are unique and below `next`. */
  ghost predicate UserKeys(users: seq<User>, next: Id) {
    && (forall i, j :: 0 <= i < j < |users| ==> users[i].id != users[j].id)
    && (forall i :: 0 <= i < |users| ==> users[i].id < next)
  }

  /** A shop's owner is a key already handed out, and owns no other shop
      (`owner_id` is unique). */
  ghost predicate ShopKeys(shops: seq<Shop>, next: Id) {
    && (forall i, j :: 0 <= i < j < |shops| ==> shops[i].id != shops[j].id)
    && (forall i, j :: 0 <= i < j < |shops| ==> shops[i].ownerId != shops[j].ownerId)
    && (forall i :: 0 <= i < |shops| ==> shops[i].id < next && shops[i].ownerId < next)
  }

  ghost predicate MenuKeys(items: seq<MenuItem>, next: Id) {
    && (forall i, j :: 0 <= i < j < |items| ==> items[i].id != items[j].id)
    && (forall i :: 0 <= i < |items| ==> items[i].id < next)
  }

  /** One cart per user (`user_id` is unique). */
  ghost predicate CartKeys(carts: seq<Cart>, next: Id) {
    && (forall i, j :: 0 <= i < j < |carts| ==> carts[i].id != carts[j].id)
    && (forall i, j :: 0 <= i < j < |carts| ==> carts[i].userId != carts[j].userId)
    && (forall i :: 0 <= i < |carts| ==> carts[i].id < next && carts[i].userId < next)
  }

  /** A cart line's cart is a key already handed out. */
  ghost predicate LineKeys(lines: seq<CartItem>, next: Id) {
    && (forall i, j :: 0 <= i < j < |lines| ==> lines[i].id != lines[j].id)
    && (forall i :: 0 <= i < |lines| ==> lines[i].id < next && lines[i].cartId < next)
  }

  /** An order line's order is a key already handed out. */
  ghost predicate OrderKeys(orders: seq<Order>, items: seq<OrderItem>, next: Id) {
    && (forall i, j :: 0 <= i < j < |orders| ==> orders[i].id != orders[j].id)
    && (forall i :: 0 <= i < |orders| ==> orders[i].id < next)
    && (forall i, j :: 0 <= i < j < |items| ==> items[i].id != items[j].id)
    && (forall i :: 0 <= i < |items| ==> items[i].id < next && items[i].orderId < next)
  }

  /** Keys are unique in every table and below `nextId`. */
  ghost predicate KeysFresh(s: Store) {
    && UserKeys(s.users, s.nextId)
    && ShopKeys(s.shops, s.nextId)
    && MenuKeys(s.menuItems, s.nextId)
    && CartKeys(s.carts, s.nextId)
    && LineKeys(s.cartItems, s.nextId)
    && OrderKeys(s.orders, s.orderItems, s.nextId)
  }

  /** Handing out a key keeps every other table's keys below the counter. */
  lemma KeysGrow(s: Store, next: Id)
    requires KeysFresh(s) && s.nextId <= next
    ensures UserKeys(s.users, next) && ShopKeys(s.shops, next) && MenuKeys(s.menuItems, next)
    ensures CartKeys(s.carts, next) && LineKeys(s.cartItems, next)
    ensures OrderKeys(s.orders, s.orderItems, next)
  {
  }

  /** At most one line per menu item in every cart. */
  ghost predicate OneLinePerItem(lines: seq<CartItem>) {
    forall i, j :: 0 <= i < j < |lines| && lines[i].cartId == lines[j].cartId ==>
      lines[i].menuItemId != lines[j].menuItemId
  }

  /** Every line of a cart is for a menu item of the cart's shop. */
  ghost predicate SingleShop(s: Store) {
    forall c, l :: c in s.carts && l in s.cartItems && l.cartId == c.id ==>
      ItemOfShop(s.menuItems, l.menuItemId, c.shopId)
  }

  /** A cart's shop is null exactly when the cart has no line. */
  ghost predicate ShopIffLines(s: Store) {
    forall c :: c in s.carts ==> (c.shopId.None? <==> LinesOf(s.cartItems, c.id) == [])
  }

  /** `ShopIffLines`, checked row by row. */
  lemma ShopIffLinesByRow(s: Store)
    requires forall i :: 0 <= i < |s.carts| ==>
               (s.carts[i].shopId.None? <==> LinesOf(s.cartItems, s.carts[i].id) == [])
    ensures ShopIffLines(s)
  {
    forall c | c in s.carts ensures c.shopId.None? <==> LinesOf(s.cartItems, c.id) == [] {
      var i :| 0 <= i < |s.carts| && s.carts[i] == c;
    }
  }

  /** Every line holds at least one unit. */
  ghost predicate PositiveQuantities(lines: seq<CartItem>) {
    forall i :: 0 <= i < |lines| ==> lines[i].quantity >= 1
  }

  /** The invariant the cart, order and menu operations preserve. */
  ghost predicate Valid(s: Store) {
    && KeysFresh(s)
    && OneLinePerItem(s.cartItems)
    && SingleShop(s)
    && ShopIffLines(s)
    && PositiveQuantities(s.cartItems)
  }

  /** An empty database satisfies the invariant. */
  function EmptyStore(): (s: Store)
    ensures Valid(s)
  {
    Store([], [], [], [], [], [], [], 0)
  }
}
