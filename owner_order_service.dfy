/** `OwnerOrderService`: a shop owner's view of the orders placed at their
    shop, and the status updates the owner makes. */
module OwnerOrderService {
  import opened Common
  import opened Entities
  import opened Repositories
  import opened OrderQueries
  import OrderService

  const OrderNotFound := "Order not found"
  const NotOwnOrder := "You can only update orders from your own shop"

  /** `getShopOrders(ownerId)`: the orders of the owner's shop, in table
      order, without the customer's name. */
  function ShopOrders(s: Store, ownerId: Id): Result<seq<OrderService.OrderView>> {
    match FindShopByOwner(s.shops, ownerId)
    case None => Err(ResourceNotFound(ShopNotFoundForOwner))
    case Some(shop) => OrderService.OrderViews(s, OrdersBy(s.orders, ShopColumn, shop.id), false)
  }

  /** Without a shop the owner gets the not-found error; with one, the
      list holds one entry per order of that shop, in the order
      `findByShopId` returns them, each reporting its own order and
      carrying that order's lines and no customer name. */
  lemma ShopOrdersExact(s: Store, ownerId: Id)
    ensures FindShopByOwner(s.shops, ownerId).None? ==>
              ShopOrders(s, ownerId) == Err(ResourceNotFound(ShopNotFoundForOwner))
    ensures ShopOrders(s, ownerId).Ok? ==>
              var mine := OrdersBy(s.orders, ShopColumn, FindShopByOwner(s.shops, ownerId).value.id);
              var r := ShopOrders(s, ownerId).value;
              && |r| == |mine|
              && forall i :: 0 <= i < |r| ==>
                   && r[i].id == mine[i].id && r[i].shopId == mine[i].shopId
                   && r[i].status == mine[i].status && r[i].totalAmount == mine[i].totalAmount
                   && r[i].customerUsername.None?
                   && Ok(r[i].items) == OrderService.OrderItemViews(ItemsOfOrder(s.orderItems, mine[i].id), s.menuItems)
  {
    if ShopOrders(s, ownerId).Ok? {
      var mine := OrdersBy(s.orders, ShopColumn, FindShopByOwner(s.shops, ownerId).value.id);
      var r := ShopOrders(s, ownerId).value;
      forall i | 0 <= i < |r|
        ensures && r[i].id == mine[i].id && r[i].shopId == mine[i].shopId
                && r[i].status == mine[i].status && r[i].totalAmount == mine[i].totalAmount
                && r[i].customerUsername.None?
                && Ok(r[i].items) == OrderService.OrderItemViews(ItemsOfOrder(s.orderItems, mine[i].id), s.menuItems)
      {
        assert OrderService.OrderViewOf(s, mine[i], false) == Ok(r[i]);
        OrderService.OrderViewFields(s, mine[i], false);
      }
    }
  }

  /** The store after `updateOrderStatus(ownerId, orderId, status)`, or
      the exception. Any status may follow any other. */
  function StatusUpdated(s: Store, ownerId: Id, orderId: Id, status: OrderStatus): Result<Store> {
    match FindShopByOwner(s.shops, ownerId)
    case None => Err(ResourceNotFound(ShopNotFoundForOwner))
    case Some(shop) =>
      match OrderIndex(s.orders, orderId)
      case None => Err(ResourceNotFound(OrderNotFound))
      case Some(j) =>
        if s.orders[j].shopId != shop.id then Err(Forbidden(NotOwnOrder))
        else Ok(s.(orders := s.orders[j := s.orders[j].(status := status)]))
  }

  /** The checks come in order: the owner's shop, then the order, then
      that the order is the shop's; passing all three always succeeds. */
  lemma StatusUpdateOutcome(s: Store, ownerId: Id, orderId: Id, status: OrderStatus)
    ensures FindShopByOwner(s.shops, ownerId).None? ==>
              StatusUpdated(s, ownerId, orderId, status) == Err(ResourceNotFound(ShopNotFoundForOwner))
    ensures FindShopByOwner(s.shops, ownerId).Some? && (forall o :: o in s.orders ==> o.id != orderId) ==>
              StatusUpdated(s, ownerId, orderId, status) == Err(ResourceNotFound(OrderNotFound))
    ensures FindShopByOwner(s.shops, ownerId).Some? && OrderIndex(s.orders, orderId).Some? ==>
              var o := s.orders[OrderIndex(s.orders, orderId).value];
              (StatusUpdated(s, ownerId, orderId, status) == Err(Forbidden(NotOwnOrder)) <==>
                 o.shopId != FindShopByOwner(s.shops, ownerId).value.id)
    ensures StatusUpdated(s, ownerId, orderId, status).Err? ==>
              StatusUpdated(s, ownerId, orderId, status).error in
                {ResourceNotFound(ShopNotFoundForOwner), ResourceNotFound(OrderNotFound), Forbidden(NotOwnOrder)}
  {
    if OrderIndex(s.orders, orderId).Some? {
      var j := OrderIndex(s.orders, orderId).value;
      assert s.orders[j] in s.orders;
    }
  }

  /** A successful update changes the status of the one order with that
      key, which belongs to the owner's shop, and nothing else: no other
      field of it, no other order, no other table. */
  lemma StatusUpdateEffect(s: Store, ownerId: Id, orderId: Id, status: OrderStatus)
    requires StatusUpdated(s, ownerId, orderId, status).Ok?
    ensures var t := StatusUpdated(s, ownerId, orderId, status).value;
            var j := OrderIndex(s.orders, orderId).value;
            && s.orders[j].id == orderId
            && s.orders[j].shopId == FindShopByOwner(s.shops, ownerId).value.id
            && |t.orders| == |s.orders|
            && t.orders[j].status == status
            && t.orders[j].(status := s.orders[j].status) == s.orders[j]
            && (forall i :: 0 <= i < |s.orders| && i != j ==> t.orders[i] == s.orders[i])
            && t.(orders := s.orders) == s
  {
  }

  /** Setting the status an order already has leaves the store as it was. */
  lemma StatusUpdateSameStatus(s: Store, ownerId: Id, orderId: Id)
    requires OrderIndex(s.orders, orderId).Some?
    requires StatusUpdated(s, ownerId, orderId, s.orders[OrderIndex(s.orders, orderId).value].status).Ok?
    ensures StatusUpdated(s, ownerId, orderId, s.orders[OrderIndex(s.orders, orderId).value].status).value == s
  {
    var j := OrderIndex(s.orders, orderId).value;
    assert s.orders[j := s.orders[j]] == s.orders;
  }

  /** Repeating an update changes nothing more. */
  lemma StatusUpdateIdempotent(s: Store, ownerId: Id, orderId: Id, status: OrderStatus)
    requires StatusUpdated(s, ownerId, orderId, status).Ok?
    ensures var t := StatusUpdated(s, ownerId, orderId, status).value;
            StatusUpdated(t, ownerId, orderId, status) == Ok(t)
  {
    var t := StatusUpdated(s, ownerId, orderId, status).value;
    var j := OrderIndex(s.orders, orderId).value;
    assert forall i :: 0 <= i < |t.orders| ==> t.orders[i].id == s.orders[i].id;
    assert OrderIndex(t.orders, orderId) == Some(j);
    assert t.orders[j := t.orders[j]] == t.orders;
  }

  /** A status update keeps the invariant of the store. */
  lemma StatusUpdateKeepsValid(s: Store, ownerId: Id, orderId: Id, status: OrderStatus)
    requires Valid(s) && StatusUpdated(s, ownerId, orderId, status).Ok?
    ensures Valid(StatusUpdated(s, ownerId, orderId, status).value)
  {
    var t := StatusUpdated(s, ownerId, orderId, status).value;
    assert forall i :: 0 <= i < |t.orders| ==> t.orders[i].id == s.orders[i].id;
  }

  /** Delivering a pending order of the shop moves its total into the
      shop's revenue and takes it out of the pending count. */
  lemma DeliverMovesTotal(s: Store, ownerId: Id, orderId: Id)
    requires StatusUpdated(s, ownerId, orderId, Delivered).Ok?
    requires s.orders[OrderIndex(s.orders, orderId).value].status == Pending
    ensures var t := StatusUpdated(s, ownerId, orderId, Delivered).value;
            var shopId := FindShopByOwner(s.shops, ownerId).value.id;
            var o := s.orders[OrderIndex(s.orders, orderId).value];
            && Revenue(t.orders, shopId).Some?
            && Revenue(t.orders, shopId).value == Revenue(s.orders, shopId).GetOr(0) + o.totalAmount
            && PendingCount(t.orders, shopId) + 1 == PendingCount(s.orders, shopId)
  {
    var t := StatusUpdated(s, ownerId, orderId, Delivered).value;
    var shopId := FindShopByOwner(s.shops, ownerId).value.id;
    var j := OrderIndex(s.orders, orderId).value;
    var o := s.orders[j];
    var before := s.orders[..j];
    var after := s.orders[j + 1..];
    assert s.orders == before + [o] + after;
    assert t.orders == before + [o.(status := Delivered)] + after;
    RevenueSplice(before, o, o.(status := Delivered), after, shopId);
    PendingSplice(before, o, o.(status := Delivered), after, shopId);
  }

  /** Revenue over `before + [x] + after`, split at `x`. */
  lemma RevenueSplice(before: seq<Order>, x: Order, y: Order, after: seq<Order>, shopId: Id)
    requires !DeliveredBy(x, shopId) && DeliveredBy(y, shopId)
    ensures Revenue(before + [y] + after, shopId).Some?
    ensures Revenue(before + [y] + after, shopId).value ==
              Revenue(before + [x] + after, shopId).GetOr(0) + y.totalAmount
  {
    var d := DeliveredOrders(before, shopId);
    var e := DeliveredOrders(after, shopId);
    DeliveredSplit(before, x, after, shopId);
    DeliveredSplit(before, y, after, shopId);
    assert DeliveredOrders(before + [x] + after, shopId) == d + e by {
      assert d + [] + e == d + e;
    }
    RevenueOrZero(before + [x] + after, shopId);
    RevenueOrZero(before + [y] + after, shopId);
    SumTotalsInsert(d, y, e);
  }

  /** A null revenue reads as the empty sum. */
  lemma RevenueOrZero(orders: seq<Order>, shopId: Id)
    ensures Revenue(orders, shopId).GetOr(0) == SumTotals(DeliveredOrders(orders, shopId))
  {
  }

  /** One more order in the middle adds its total. */
  lemma SumTotalsInsert(d: seq<Order>, y: Order, e: seq<Order>)
    ensures SumTotals(d + [y] + e) == SumTotals(d + e) + y.totalAmount
  {
    SumTotalsAppend(d, e);
    SumTotalsAppend(d + [y], e);
    SumTotalsAppend(d, [y]);
    assert SumTotals([y]) == y.totalAmount by {
      assert [y][..0] == [];
    }
  }

  /** The delivered orders of `before + [x] + after`, in three parts. */
  lemma DeliveredSplit(before: seq<Order>, x: Order, after: seq<Order>, shopId: Id)
    ensures DeliveredOrders(before + [x] + after, shopId) ==
              DeliveredOrders(before, shopId) + (if DeliveredBy(x, shopId) then [x] else []) +
              DeliveredOrders(after, shopId)
  {
    var p := (o: Order) => DeliveredBy(o, shopId);
    FilterAppend(before + [x], after, p);
    FilterAppend(before, [x], p);
  }

  /** The pending count over `before + [x] + after`, split at `x`. */
  lemma PendingSplice(before: seq<Order>, x: Order, y: Order, after: seq<Order>, shopId: Id)
    requires PendingAt(x, shopId) && !PendingAt(y, shopId)
    ensures PendingCount(before + [y] + after, shopId) + 1 == PendingCount(before + [x] + after, shopId)
  {
    PendingCountAppend(before, x, shopId);
    PendingCountAppend(before, y, shopId);
    PendingCountConcat(before + [x], after, shopId);
    PendingCountConcat(before + [y], after, shopId);
  }

  // ---- the service method -----------------------------------------------

  /** `updateOrderStatus(ownerId, orderId, status)`. */
  method UpdateOrderStatus(db: Database, ownerId: Id, orderId: Id, status: OrderStatus) returns (r: Outcome)
    modifies db
    ensures var expected := StatusUpdated(old(db.Snapshot()), ownerId, orderId, status);
            && (r.Pass? <==> expected.Ok?)
            && (r.Pass? ==> db.Snapshot() == expected.value)
            && (r.Fail? ==> r == Fail(expected.error) && db.Snapshot() == old(db.Snapshot()))
  {
    var shop := FindShopByOwner(db.shops, ownerId);
    if shop.None? {
      return Fail(ResourceNotFound(ShopNotFoundForOwner));
    }
    var j := OrderIndex(db.orders, orderId);
    if j.None? {
      return Fail(ResourceNotFound(OrderNotFound));
    }
    var order := db.orders[j.value];
    if order.shopId != shop.value.id {
      return Fail(Forbidden(NotOwnOrder));
    }
    db.orders := db.orders[j.value := order.(status := status)];
    r := Pass;
  }
}
