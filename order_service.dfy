/** `OrderService`: turning the customer's cart into an order, and the
    customer's order history. */
module OrderService {
  import opened Common
  import opened Entities
  import opened Repositories
  import opened OrderQueries
  import CartService

  const EmptyCart := "Cannot place order with empty cart"
  const NoShop := "Cart has no shop associated"

  /** The order lines `placeOrder` saves for the cart lines, one per line
      in the same order, with keys from `firstId` on and the menu item's
      current price; `None` when a menu item is gone. */
  function OrderLines(lines: seq<CartItem>, menu: seq<MenuItem>, orderId: Id, firstId: Id)
    : (r: Option<seq<OrderItem>>)
    ensures r.Some? ==> |r.value| == |lines|
  {
    if lines == [] then Some([])
    else
      var last := lines[|lines| - 1];
      match OrderLines(lines[..|lines| - 1], menu, orderId, firstId)
      case None => None
      case Some(front) =>
        match FindMenuItem(menu, last.menuItemId)
        case None => None
        case Some(m) => Some(front + [OrderItem(firstId + |lines| - 1, orderId, last.menuItemId,
                                                 last.quantity, m.price)])
  }

  /** The cart lines that remain once the cart's own are deleted. */
  function WithoutCart(lines: seq<CartItem>, cartId: Id): seq<CartItem> {
    Filter(lines, (l: CartItem) => !InCart(l, cartId))
  }

  /** The new order of the cart in row `k`. */
  function NewOrder(s: Store, k: nat, userId: Id): Order
    requires k < |s.carts| && s.carts[k].shopId.Some?
  {
    Order(s.nextId, userId, s.carts[k].shopId.value, s.carts[k].totalAmount, Pending)
  }

  /** The store once the order, its lines `items`, and the emptied cart in
      row `k` are saved. */
  function PlacedStore(s: Store, k: nat, userId: Id, items: seq<OrderItem>): Store
    requires k < |s.carts| && s.carts[k].shopId.Some?
  {
    var cart := s.carts[k];
    s.(orders := s.orders + [NewOrder(s, k, userId)],
       orderItems := s.orderItems + items,
       nextId := s.nextId + 1 + |items|,
       cartItems := WithoutCart(s.cartItems, cart.id),
       carts := s.carts[k := cart.(shopId := None, totalAmount := 0)])
  }

  /** The store after `placeOrder(userId)`, or the exception. */
  function Placed(s: Store, userId: Id): Result<Store> {
    match CartIndexOfUser(s.carts, userId)
    case None => Err(ResourceNotFound(CartService.CartNotFound))
    case Some(k) =>
      var cart := s.carts[k];
      var lines := LinesOf(s.cartItems, cart.id);
      if lines == [] then Err(BusinessRule(EmptyCart))
      else if cart.shopId.None? then Err(BusinessRule(NoShop))
      else
        match OrderLines(lines, s.menuItems, s.nextId, s.nextId + 1)
        case None => Err(ResourceNotFound(CartService.MenuItemNotFound))
        case Some(items) => Ok(PlacedStore(s, k, userId, items))
  }

  /** What a successful `placeOrder` did. */
  lemma PlacedShape(s: Store, userId: Id) returns (k: nat, items: seq<OrderItem>)
    requires Placed(s, userId).Ok?
    ensures CartIndexOfUser(s.carts, userId) == Some(k)
    ensures LinesOf(s.cartItems, s.carts[k].id) != [] && s.carts[k].shopId.Some?
    ensures OrderLines(LinesOf(s.cartItems, s.carts[k].id), s.menuItems, s.nextId, s.nextId + 1) == Some(items)
    ensures Placed(s, userId) == Ok(PlacedStore(s, k, userId, items))
  {
    k := CartIndexOfUser(s.carts, userId).value;
    items := OrderLines(LinesOf(s.cartItems, s.carts[k].id), s.menuItems, s.nextId, s.nextId + 1).value;
  }

  // ---- properties of placeOrder -----------------------------------------

  /** Line `i` of the order copies menu item and quantity from cart line
      `i` and takes the menu item's price at the time of the order. */
  lemma {:induction false} OrderLinesCopy(lines: seq<CartItem>, menu: seq<MenuItem>, orderId: Id, firstId: Id)
    requires OrderLines(lines, menu, orderId, firstId).Some?
    ensures forall i :: 0 <= i < |lines| ==>
              var oi := OrderLines(lines, menu, orderId, firstId).value[i];
              && oi.id == firstId + i && oi.orderId == orderId
              && oi.menuItemId == lines[i].menuItemId && oi.quantity == lines[i].quantity
              && Some(oi.priceAtOrder) == (match FindMenuItem(menu, lines[i].menuItemId)
                                           case Some(m) => Some(m.price)
                                           case None => None)
  {
    if lines != [] {
      OrderLinesCopy(lines[..|lines| - 1], menu, orderId, firstId);
    }
  }

  /** One more cart line copied: the step `placeOrder`'s loop takes. */
  lemma OrderLinesStep(front: seq<CartItem>, x: CartItem, menu: seq<MenuItem>, orderId: Id, firstId: Id,
                       prev: seq<OrderItem>, m: MenuItem)
    requires FindMenuItem(menu, x.menuItemId) == Some(m)
    requires OrderLines(front, menu, orderId, firstId) == Some(prev)
    ensures OrderLines(front + [x], menu, orderId, firstId) ==
              Some(prev + [OrderItem(firstId + |front|, orderId, x.menuItemId, x.quantity, m.price)])
  {
    var l := front + [x];
    assert l[..|l| - 1] == front;
  }

  /** The cart lines convert exactly when every line's menu item exists. */
  lemma {:induction false} OrderLinesDefined(lines: seq<CartItem>, menu: seq<MenuItem>, orderId: Id, firstId: Id)
    ensures OrderLines(lines, menu, orderId, firstId).Some? <==>
              forall i :: 0 <= i < |lines| ==> FindMenuItem(menu, lines[i].menuItemId).Some?
  {
    if lines != [] {
      var front := lines[..|lines| - 1];
      OrderLinesDefined(front, menu, orderId, firstId);
      assert forall i :: 0 <= i < |front| ==> front[i] == lines[i];
    }
  }

  /** A cart line whose menu item is gone makes the whole conversion fail. */
  lemma OrderLinesStop(lines: seq<CartItem>, i: nat, menu: seq<MenuItem>, orderId: Id, firstId: Id)
    requires i < |lines| && FindMenuItem(menu, lines[i].menuItemId).None?
    ensures OrderLines(lines, menu, orderId, firstId).None?
  {
    OrderLinesDefined(lines, menu, orderId, firstId);
  }

  /** Deleting a cart's lines empties that cart and leaves the others alone. */
  lemma {:induction false} WithoutCartLines(lines: seq<CartItem>, cartId: Id)
    ensures LinesOf(WithoutCart(lines, cartId), cartId) == []
    ensures forall other :: other != cartId ==>
              LinesOf(WithoutCart(lines, cartId), other) == LinesOf(lines, other)
  {
    if lines != [] {
      WithoutCartLines(lines[1..], cartId);
      var head := lines[0];
      var rest := WithoutCart(lines[1..], cartId);
      if head.cartId == cartId {
        assert WithoutCart(lines, cartId) == rest;
      } else {
        assert WithoutCart(lines, cartId) == [head] + rest;
        LinesOfAppend([head], rest, cartId);
        forall other | other != cartId
          ensures LinesOf(WithoutCart(lines, cartId), other) == LinesOf(lines, other)
        {
          LinesOfAppend([head], rest, other);
          LinesOfAppend([head], lines[1..], other);
          assert lines == [head] + lines[1..];
        }
      }
    }
  }

  /** `placeOrder` checks, in order: the cart exists, it has lines, it has a
      shop. Under the invariant these are the only ways it fails. */
  lemma PlacedOutcome(s: Store, userId: Id)
    ensures CartIndexOfUser(s.carts, userId).None? ==>
              Placed(s, userId) == Err(ResourceNotFound(CartService.CartNotFound))
    ensures CartIndexOfUser(s.carts, userId).Some? ==>
              var c := s.carts[CartIndexOfUser(s.carts, userId).value];
              && (LinesOf(s.cartItems, c.id) == [] ==> Placed(s, userId) == Err(BusinessRule(EmptyCart)))
              && (LinesOf(s.cartItems, c.id) != [] && c.shopId.None? ==>
                    Placed(s, userId) == Err(BusinessRule(NoShop)))
              && (Valid(s) && LinesOf(s.cartItems, c.id) != [] ==> Placed(s, userId).Ok?)
  {
    if CartIndexOfUser(s.carts, userId).Some? {
      var k := CartIndexOfUser(s.carts, userId).value;
      if Valid(s) && LinesOf(s.cartItems, s.carts[k].id) != [] {
        PlacedSucceeds(s, k, userId);
      }
    }
  }

  /** Under the invariant a cart with lines has a shop and its lines'
      menu items exist, so the order is placed. */
  lemma PlacedSucceeds(s: Store, k: nat, userId: Id)
    requires SingleShop(s) && ShopIffLines(s) && CartIndexOfUser(s.carts, userId) == Some(k)
    requires LinesOf(s.cartItems, s.carts[k].id) != []
    ensures Placed(s, userId).Ok?
  {
    var c := s.carts[k];
    var lines := LinesOf(s.cartItems, c.id);
    assert c.shopId.Some? by {
      assert c in s.carts;
    }
    assert OrderLines(lines, s.menuItems, s.nextId, s.nextId + 1).Some? by {
      CartService.TotalDefined(s, k);
      OrderLinesDefined(lines, s.menuItems, s.nextId, s.nextId + 1);
    }
  }

  /** A placed order belongs to the user and the cart's shop, starts
      PENDING, and carries the cart's stored total as it stood (it is not
      recomputed from the prices the lines are ordered at). */
  lemma PlacedOrder(s: Store, userId: Id)
    requires Placed(s, userId).Ok?
    ensures var c := s.carts[CartIndexOfUser(s.carts, userId).value];
            && c.shopId.Some?
            && Placed(s, userId).value.orders ==
                 s.orders + [Order(s.nextId, userId, c.shopId.value, c.totalAmount, Pending)]
  {
    var k, items := PlacedShape(s, userId);
  }

  /** A placed order has exactly one line per cart line, in order, with
      the same menu item and quantity and the menu item's current price. */
  lemma PlacedLines(s: Store, userId: Id)
    requires OrderKeys(s.orders, s.orderItems, s.nextId) && Placed(s, userId).Ok?
    ensures var t := Placed(s, userId).value;
            var lines := LinesOf(s.cartItems, s.carts[CartIndexOfUser(s.carts, userId).value].id);
            var items := ItemsOfOrder(t.orderItems, s.nextId);
            && |items| == |lines|
            && forall i :: 0 <= i < |lines| ==>
                 && items[i].menuItemId == lines[i].menuItemId
                 && items[i].quantity == lines[i].quantity
                 && (exists m :: m in s.menuItems && m.id == lines[i].menuItemId &&
                                 items[i].priceAtOrder == m.price)
  {
    var k, created := PlacedShape(s, userId);
    var lines := LinesOf(s.cartItems, s.carts[k].id);
    OrderLinesCopy(lines, s.menuItems, s.nextId, s.nextId + 1);
    assert forall i :: 0 <= i < |s.orderItems| ==> s.orderItems[i].orderId < s.nextId;
    ItemsOfNewOrder(s.orderItems, created, s.nextId);
    forall i | 0 <= i < |lines|
      ensures exists m :: m in s.menuItems && m.id == lines[i].menuItemId && created[i].priceAtOrder == m.price
    {
      var m := FindMenuItem(s.menuItems, lines[i].menuItemId).value;
    }
  }

  /** After a placed order the cart has no line, no shop and a zero total;
      no other cart loses a line. */
  lemma PlacedClearsCart(s: Store, userId: Id)
    requires Placed(s, userId).Ok?
    ensures var t := Placed(s, userId).value;
            var k := CartIndexOfUser(s.carts, userId).value;
            && |t.carts| == |s.carts|
            && LinesOf(t.cartItems, s.carts[k].id) == []
            && t.carts[k] == s.carts[k].(shopId := None, totalAmount := 0)
            && (forall i :: 0 <= i < |s.carts| && i != k ==> t.carts[i] == s.carts[i])
            && (forall other :: other != s.carts[k].id ==>
                  LinesOf(t.cartItems, other) == LinesOf(s.cartItems, other))
  {
    var k, items := PlacedShape(s, userId);
    WithoutCartLines(s.cartItems, s.carts[k].id);
  }

  lemma PlacedKeepsCartKeys(s: Store, userId: Id)
    requires Valid(s) && Placed(s, userId).Ok?
    ensures var t := Placed(s, userId).value;
            && CartKeys(t.carts, t.nextId) && LineKeys(t.cartItems, t.nextId)
            && OneLinePerItem(t.cartItems) && PositiveQuantities(t.cartItems)
  {
    var k, items := PlacedShape(s, userId);
    var t := Placed(s, userId).value;
    KeysGrow(s, t.nextId);
    EmptiedCartKeys(s.carts, k, t.nextId);
    WithoutCartKeepsRules(s.cartItems, s.carts[k].id, t.nextId);
  }

  /** Emptying the cart in row `k` keeps the carts' keys. */
  lemma EmptiedCartKeys(carts: seq<Cart>, k: nat, next: Id)
    requires k < |carts| && CartKeys(carts, next)
    ensures CartKeys(carts[k := carts[k].(shopId := None, totalAmount := 0)], next)
  {
  }

  /** Deleting a cart's lines keeps the rules on the lines that remain. */
  lemma WithoutCartKeepsRules(lines: seq<CartItem>, cartId: Id, next: Id)
    requires LineKeys(lines, next) && OneLinePerItem(lines) && PositiveQuantities(lines)
    ensures var r := WithoutCart(lines, cartId);
            LineKeys(r, next) && OneLinePerItem(r) && PositiveQuantities(r)
  {
    var r := WithoutCart(lines, cartId);
    var keep := (l: CartItem) => !InCart(l, cartId);
    FilterKeepsPairwise(lines, keep, (a: CartItem, b: CartItem) => a.id != b.id);
    FilterKeepsPairwise(lines, keep,
      (a: CartItem, b: CartItem) => a.cartId == b.cartId ==> a.menuItemId != b.menuItemId);
    forall i | 0 <= i < |r|
      ensures r[i].id < next && r[i].cartId < next && r[i].quantity >= 1
    {
      assert r[i] in lines;
    }
  }

  /** An order keyed `next`, saved with lines keyed `next + 1` on, keeps
      every key distinct and below the advanced counter. */
  lemma AppendKeepsOrderKeys(orders: seq<Order>, items: seq<OrderItem>, o: Order,
                             added: seq<OrderItem>, next: Id)
    requires OrderKeys(orders, items, next) && o.id == next
    requires forall i :: 0 <= i < |added| ==> added[i].id == next + 1 + i && added[i].orderId == next
    ensures OrderKeys(orders + [o], items + added, next + 1 + |added|)
  {
    var all := items + added;
    var n := |items|;
    assert forall i :: 0 <= i < n ==> all[i] == items[i];
    assert forall i :: n <= i < |all| ==> all[i] == added[i - n];
    forall i, j | 0 <= i < j < |all| ensures all[i].id != all[j].id {
      if i < n && j >= n {
        assert all[i].id < next;
      }
    }
    var os := orders + [o];
    forall i, j | 0 <= i < j < |os| ensures os[i].id != os[j].id {
      if j == |orders| {
        assert os[i] == orders[i];
      }
    }
  }

  lemma PlacedKeepsOrderKeys(s: Store, userId: Id)
    requires OrderKeys(s.orders, s.orderItems, s.nextId) && Placed(s, userId).Ok?
    ensures var t := Placed(s, userId).value;
            OrderKeys(t.orders, t.orderItems, t.nextId)
  {
    var k, items := PlacedShape(s, userId);
    var lines := LinesOf(s.cartItems, s.carts[k].id);
    OrderLinesCopy(lines, s.menuItems, s.nextId, s.nextId + 1);
    AppendKeepsOrderKeys(s.orders, s.orderItems, NewOrder(s, k, userId), items, s.nextId);
  }

  lemma PlacedKeepsKeys(s: Store, userId: Id)
    requires Valid(s) && Placed(s, userId).Ok?
    ensures KeysFresh(Placed(s, userId).value)
    ensures OneLinePerItem(Placed(s, userId).value.cartItems)
    ensures PositiveQuantities(Placed(s, userId).value.cartItems)
  {
    var k, items := PlacedShape(s, userId);
    var t := Placed(s, userId).value;
    KeysGrow(s, t.nextId);
    PlacedKeepsCartKeys(s, userId);
    PlacedKeepsOrderKeys(s, userId);
  }

  lemma PlacedKeepsShops(s: Store, userId: Id)
    requires Valid(s) && Placed(s, userId).Ok?
    ensures SingleShop(Placed(s, userId).value) && ShopIffLines(Placed(s, userId).value)
  {
    var k, items := PlacedShape(s, userId);
    var t := Placed(s, userId).value;
    var cid := s.carts[k].id;
    PlacedClearsCart(s, userId);
    forall c, l | c in t.carts && l in t.cartItems && l.cartId == c.id
      ensures ItemOfShop(t.menuItems, l.menuItemId, c.shopId)
    {
      var ci :| 0 <= ci < |t.carts| && t.carts[ci] == c;
      assert l in s.cartItems;
      if ci != k {
        assert s.carts[ci] in s.carts;
      }
    }
    forall c | c in t.carts
      ensures c.shopId.None? <==> LinesOf(t.cartItems, c.id) == []
    {
      var ci :| 0 <= ci < |t.carts| && t.carts[ci] == c;
      if ci != k {
        assert s.carts[ci] in s.carts;
        assert s.carts[ci].id != cid;
      }
    }
  }

  /** Placing an order keeps the invariant. */
  lemma PlacedKeepsValid(s: Store, userId: Id)
    requires Valid(s) && Placed(s, userId).Ok?
    ensures Valid(Placed(s, userId).value)
  {
    PlacedKeepsKeys(s, userId);
    PlacedKeepsShops(s, userId);
  }

  /** The placed order is the newest entry of the customer's history. */
  lemma PlacedJoinsHistory(s: Store, userId: Id)
    requires Placed(s, userId).Ok?
    ensures var c := s.carts[CartIndexOfUser(s.carts, userId).value];
            OrdersBy(Placed(s, userId).value.orders, CustomerColumn, userId) ==
              OrdersBy(s.orders, CustomerColumn, userId) + [Order(s.nextId, userId, c.shopId.value, c.totalAmount, Pending)]
  {
    var k, items := PlacedShape(s, userId);
    var o := NewOrder(s, k, userId);
    FilterAppend(s.orders, [o], (x: Order) => ColumnOf(x, CustomerColumn) == userId);
  }

  // ---- the service method -----------------------------------------------

  /** The loop of `placeOrder`: one order line saved per cart line, in
      order, each under a fresh key and at the menu item's current price.
      It stops at the first line whose menu item is gone; the caller's
      transaction then rolls back what it saved. */
  method SaveOrderLines(db: Database, lines: seq<CartItem>, orderId: Id) returns (ok: bool)
    requires db.nextId == orderId + 1
    modifies db
    ensures var expected := OrderLines(lines, old(db.menuItems), orderId, orderId + 1);
            && (ok <==> expected.Some?)
            && (ok ==> db.Snapshot() == old(db.Snapshot()).(orderItems := old(db.orderItems) + expected.value,
                                                            nextId := orderId + 1 + |lines|))
  {
    ghost var saved := db.Snapshot();
    ghost var created: seq<OrderItem> := [];
    assert saved.orderItems + created == saved.orderItems;
    var i := 0;
    assert lines[..i] == [];
    while i < |lines|
      invariant 0 <= i <= |lines|
      invariant OrderLines(lines[..i], saved.menuItems, orderId, orderId + 1) == Some(created)
      invariant db.orderItems == saved.orderItems + created && db.nextId == orderId + 1 + i
      invariant && db.users == saved.users && db.shops == saved.shops && db.menuItems == saved.menuItems
                && db.carts == saved.carts && db.cartItems == saved.cartItems && db.orders == saved.orders
    {
      var item := FindMenuItem(db.menuItems, lines[i].menuItemId);
      if item.None? {
        OrderLinesStop(lines, i, saved.menuItems, orderId, orderId + 1);
        return false;
      }
      assert lines[..i + 1] == lines[..i] + [lines[i]];
      OrderLinesStep(lines[..i], lines[i], saved.menuItems, orderId, orderId + 1, created, item.value);
      var line := SaveOrderLine(db, orderId, lines[i], item.value);
      assert saved.orderItems + (created + [line]) == saved.orderItems + created + [line];
      created := created + [line];
      i := i + 1;
    }
    assert lines[..i] == lines;
    ok := true;
  }

  /** `orderItemRepository.save`: the order line for cart line `l`, at the
      menu item's current price, appended under the next key. */
  method SaveOrderLine(db: Database, orderId: Id, l: CartItem, m: MenuItem) returns (line: OrderItem)
    modifies db
    ensures line == OrderItem(old(db.nextId), orderId, l.menuItemId, l.quantity, m.price)
    ensures db.orderItems == old(db.orderItems) + [line] && db.nextId == old(db.nextId) + 1
    ensures && db.users == old(db.users) && db.shops == old(db.shops) && db.menuItems == old(db.menuItems)
            && db.carts == old(db.carts) && db.cartItems == old(db.cartItems) && db.orders == old(db.orders)
  {
    var id := db.NewId();
    line := OrderItem(id, orderId, l.menuItemId, l.quantity, m.price);
    db.orderItems := db.orderItems + [line];
  }

  /** `placeOrder(userId)` as a transaction: the order is saved, then one
      order line per cart line, then the cart is emptied. */
  method PlaceOrder(db: Database, userId: Id) returns (r: Outcome)
    modifies db
    ensures var expected := Placed(old(db.Snapshot()), userId);
            && (r.Pass? <==> expected.Ok?)
            && (r.Pass? ==> db.Snapshot() == expected.value)
            && (r.Fail? ==> r == Fail(expected.error) && db.Snapshot() == old(db.Snapshot()))
  {
    var saved := db.Snapshot();
    var k := CartIndexOfUser(db.carts, userId);
    if k.None? {
      return Fail(ResourceNotFound(CartService.CartNotFound));
    }
    var cart := db.carts[k.value];
    var lines := LinesOf(db.cartItems, cart.id);
    if lines == [] {
      return Fail(BusinessRule(EmptyCart));
    }
    if cart.shopId.None? {
      return Fail(BusinessRule(NoShop));
    }
    var orderId := db.NewId();
    db.orders := db.orders + [Order(orderId, userId, cart.shopId.value, cart.totalAmount, Pending)];
    assert db.Snapshot() == saved.(orders := saved.orders + [NewOrder(saved, k.value, userId)],
                                   nextId := orderId + 1);
    var ok := SaveOrderLines(db, lines, orderId);
    if !ok {
      db.Restore(saved);
      return Fail(ResourceNotFound(CartService.MenuItemNotFound));
    }
    ghost var created := OrderLines(lines, saved.menuItems, orderId, orderId + 1).value;
    db.cartItems := WithoutCart(db.cartItems, cart.id);
    db.carts := db.carts[k.value := cart.(shopId := None, totalAmount := 0)];
    assert db.Snapshot() == PlacedStore(saved, k.value, userId, created);
    r := Pass;
  }

  // ---- getOrderHistory --------------------------------------------------

  /** `OrderItemDTO`. */
  datatype OrderItemView = OrderItemView(id: Id, menuItemName: string, quantity: int, priceAtOrder: Cents)

  /** `OrderDTO` (the creation time is left out). */
  datatype OrderView = OrderView(id: Id, shopId: Id, shopName: Option<string>,
                                 customerUsername: Option<string>, totalAmount: Cents,
                                 status: OrderStatus, items: seq<OrderItemView>)

  /** `convertToOrderItemDTO`: the line as ordered, named after the menu
      item as it is now. */
  function OrderItemViewOf(oi: OrderItem, menu: seq<MenuItem>): (r: Result<OrderItemView>)
    ensures r.Ok? <==> FindMenuItem(menu, oi.menuItemId).Some?
    ensures r.Err? ==> r.error == ResourceNotFound(CartService.MenuItemNotFound)
    ensures r.Ok? ==> r.value.id == oi.id && r.value.quantity == oi.quantity &&
                      r.value.priceAtOrder == oi.priceAtOrder
    ensures r.Ok? ==> exists m :: m in menu && m.id == oi.menuItemId && m.name == r.value.menuItemName
  {
    match FindMenuItem(menu, oi.menuItemId)
    case None => Err(ResourceNotFound(CartService.MenuItemNotFound))
    case Some(m) => Ok(OrderItemView(oi.id, m.name, oi.quantity, oi.priceAtOrder))
  }

  function OrderItemViews(items: seq<OrderItem>, menu: seq<MenuItem>): Result<seq<OrderItemView>> {
    MapAll(items, (oi: OrderItem) => OrderItemViewOf(oi, menu))
  }

  /** `convertToOrderDTO`: the order with its lines, its shop's name and,
      when `withCustomer` (the customer's view), the customer's username. */
  function OrderViewOf(s: Store, o: Order, withCustomer: bool): Result<OrderView>
  {
    match OrderItemViews(ItemsOfOrder(s.orderItems, o.id), s.menuItems)
    case Err(e) => Err(e)
    case Ok(items) =>
      var shopName := match FindShop(s.shops, o.shopId)
        case None => None
        case Some(sh) => Some(sh.shopName);
      var customer :=
        if !withCustomer then None
        else match FindFirst(s.users, (u: User) => u.id == o.customerId)
          case None => None
          case Some(u) => Some(u.username);
      Ok(OrderView(o.id, o.shopId, shopName, customer, o.totalAmount, o.status, items))
  }

  /** The view of an order reports the order's own key, shop, total and
      status, its lines as `convertToOrderItemDTO` shows them, and the
      customer's name only in the customer's history; it fails exactly
      when a line's menu item is gone. */
  lemma OrderViewFields(s: Store, o: Order, withCustomer: bool)
    ensures var r := OrderViewOf(s, o, withCustomer);
            && (r.Ok? <==> OrderItemViews(ItemsOfOrder(s.orderItems, o.id), s.menuItems).Ok?)
            && (r.Err? ==> r.error == ResourceNotFound(CartService.MenuItemNotFound))
            && (r.Ok? ==> && r.value.id == o.id && r.value.shopId == o.shopId
                          && r.value.totalAmount == o.totalAmount && r.value.status == o.status
                          && Ok(r.value.items) == OrderItemViews(ItemsOfOrder(s.orderItems, o.id), s.menuItems)
                          && (!withCustomer ==> r.value.customerUsername.None?)
                          && (withCustomer ==>
                                (r.value.customerUsername.Some? <==> exists u :: u in s.users && u.id == o.customerId))
                          && (r.value.customerUsername.Some? ==>
                                exists u :: u in s.users && u.id == o.customerId &&
                                            u.username == r.value.customerUsername.value)
                          && (r.value.shopName.Some? <==> exists sh :: sh in s.shops && sh.id == o.shopId)
                          && (r.value.shopName.Some? ==>
                                exists sh :: sh in s.shops && sh.id == o.shopId && sh.shopName == r.value.shopName.value))
  {
  }

  /** The orders mapped through `OrderViewOf`; the first failure aborts. */
  function OrderViews(s: Store, orders: seq<Order>, withCustomer: bool): Result<seq<OrderView>> {
    MapAll(orders, (o: Order) => OrderViewOf(s, o, withCustomer))
  }

  /** `getOrderHistory(userId)`. */
  function OrderHistory(s: Store, userId: Id): Result<seq<OrderView>> {
    OrderViews(s, OrdersBy(s.orders, CustomerColumn, userId), true)
  }

  /** The history holds one entry per order of the customer, in the order
      `findByCustomerId` returns them (which holds every order of the
      customer and no other), each entry reporting its own order and
      carrying that order's lines. */
  lemma OrderHistoryExact(s: Store, userId: Id)
    requires OrderHistory(s, userId).Ok?
    ensures var h := OrderHistory(s, userId).value;
            var mine := OrdersBy(s.orders, CustomerColumn, userId);
            && |h| == |mine|
            && forall i :: 0 <= i < |h| ==>
                 && h[i].id == mine[i].id && h[i].status == mine[i].status
                 && h[i].totalAmount == mine[i].totalAmount
                 && Ok(h[i].items) == OrderItemViews(ItemsOfOrder(s.orderItems, mine[i].id), s.menuItems)
  {
    var mine := OrdersBy(s.orders, CustomerColumn, userId);
    var h := OrderHistory(s, userId).value;
    forall i | 0 <= i < |h|
      ensures && h[i].id == mine[i].id && h[i].status == mine[i].status
              && h[i].totalAmount == mine[i].totalAmount
              && Ok(h[i].items) == OrderItemViews(ItemsOfOrder(s.orderItems, mine[i].id), s.menuItems)
    {
      assert OrderViewOf(s, mine[i], true) == Ok(h[i]);
      OrderViewFields(s, mine[i], true);
    }
  }
}
