/** The queries of `OrderRepository` as functions over the order tables:
    the derived finders `findByCustomerId` and `findByShopId`, and the
    three JPQL aggregates behind the owner's dashboard. */
module OrderQueries {
  import opened Common
  import opened Entities

  /** The two foreign keys of `orders` that the derived finders search. */
  datatype OrderColumn = CustomerColumn | ShopColumn

  /** The value of `column` in the row `o`. */
  function ColumnOf(o: Order, column: OrderColumn): Id {
    match column
    case CustomerColumn => o.customerId
    case ShopColumn => o.shopId
  }

  /** `findByCustomerId` and `findByShopId`: the rows whose `column` holds
      `key`, and every such row. */
  function OrdersBy(orders: seq<Order>, column: OrderColumn, key: Id): (r: seq<Order>)
    ensures forall i :: 0 <= i < |r| ==> r[i] in orders && ColumnOf(r[i], column) == key
    ensures forall i :: 0 <= i < |orders| && ColumnOf(orders[i], column) == key ==> orders[i] in r
  {
    Filter(orders, (o: Order) => ColumnOf(o, column) == key)
  }

  predicate DeliveredBy(o: Order, shopId: Id) {
    o.shopId == shopId && o.status == Delivered
  }

  predicate PendingAt(o: Order, shopId: Id) {
    o.shopId == shopId && o.status == Pending
  }

  /** The sum of `totalAmount` over the orders. */
  function SumTotals(orders: seq<Order>): Cents {
    if orders == [] then 0 else SumTotals(orders[..|orders| - 1]) + orders[|orders| - 1].totalAmount
  }

  /** The shop's delivered orders, in table order. */
  function DeliveredOrders(orders: seq<Order>, shopId: Id): (r: seq<Order>)
    ensures r == [] <==> forall i :: 0 <= i < |orders| ==> !DeliveredBy(orders[i], shopId)
  {
    FilterEmpty(orders, (o: Order) => DeliveredBy(o, shopId));
    Filter(orders, (o: Order) => DeliveredBy(o, shopId))
  }

  /** `calculateTotalRevenue`: `SUM` over the shop's delivered orders, which
      SQL makes null (`None`) when there is no such order. */
  function Revenue(orders: seq<Order>, shopId: Id): (r: Option<Cents>)
    ensures r.None? <==> forall i :: 0 <= i < |orders| ==> !DeliveredBy(orders[i], shopId)
  {
    var delivered := DeliveredOrders(orders, shopId);
    if delivered == [] then None else Some(SumTotals(delivered))
  }

  /** `countPendingOrders`: `COUNT` of the shop's pending orders. */
  function PendingCount(orders: seq<Order>, shopId: Id): (r: nat)
    ensures r <= |orders|
    ensures r == 0 <==> forall i :: 0 <= i < |orders| ==> !PendingAt(orders[i], shopId)
  {
    FilterEmpty(orders, (o: Order) => PendingAt(o, shopId));
    |Filter(orders, (o: Order) => PendingAt(o, shopId))|
  }

  lemma DeliveredAppend(orders: seq<Order>, next: Order, shopId: Id)
    ensures DeliveredOrders(orders + [next], shopId) ==
            DeliveredOrders(orders, shopId) + (if DeliveredBy(next, shopId) then [next] else [])
  {
    FilterAppend(orders, [next], (o: Order) => DeliveredBy(o, shopId));
  }

  /** A new order adds its total to the revenue exactly when it is a
      delivered order of the shop; a first delivered order turns the null
      sum into its own total. */
  lemma RevenueAppend(orders: seq<Order>, next: Order, shopId: Id)
    ensures Revenue(orders + [next], shopId) ==
            if !DeliveredBy(next, shopId) then Revenue(orders, shopId)
            else Some(Revenue(orders, shopId).GetOr(0) + next.totalAmount)
  {
    var before := DeliveredOrders(orders, shopId);
    var after := DeliveredOrders(orders + [next], shopId);
    DeliveredAppend(orders, next, shopId);
    if DeliveredBy(next, shopId) {
      assert after == before + [next];
      assert after[..|after| - 1] == before;
      assert SumTotals(after) == SumTotals(before) + next.totalAmount;
      assert Revenue(orders + [next], shopId) == Some(SumTotals(after));
      assert Revenue(orders, shopId).GetOr(0) == SumTotals(before);
    } else {
      assert after == before;
    }
  }

  /** A new order adds one to the count exactly when it is pending at the shop. */
  lemma PendingCountAppend(orders: seq<Order>, o: Order, shopId: Id)
    ensures PendingCount(orders + [o], shopId) ==
            PendingCount(orders, shopId) + (if PendingAt(o, shopId) then 1 else 0)
  {
    FilterAppend(orders, [o], (x: Order) => PendingAt(x, shopId));
  }

  /** The pending count splits over concatenation. */
  lemma PendingCountConcat(a: seq<Order>, b: seq<Order>, shopId: Id)
    ensures PendingCount(a + b, shopId) == PendingCount(a, shopId) + PendingCount(b, shopId)
  {
    FilterAppend(a, b, (x: Order) => PendingAt(x, shopId));
  }

  /** Sums split over concatenation. */
  lemma {:induction false} SumTotalsAppend(a: seq<Order>, b: seq<Order>)
    ensures SumTotals(a + b) == SumTotals(a) + SumTotals(b)
  {
    if b == [] {
      assert a + b == a;
    } else {
      SumTotalsAppend(a, b[..|b| - 1]);
      assert (a + b)[..|a + b| - 1] == a + b[..|b| - 1];
      assert (a + b)[|a + b| - 1] == b[|b| - 1];
    }
  }

  // ---- findTopSellingItems ---------------------------------------------

  /** The order lines that survive `JOIN Order o ON oi.orderId = o.id
      WHERE o.shopId = :shopId`: those whose order is one of the shop's. */
  function ShopLines(orders: seq<Order>, items: seq<OrderItem>, shopId: Id): (r: seq<OrderItem>)
    ensures forall i :: 0 <= i < |r| ==> r[i] in items
  {
    Filter(items, (oi: OrderItem) => exists o :: o in orders && o.id == oi.orderId && o.shopId == shopId)
  }

  /** `SUM(oi.quantity)` over the lines for one menu item. */
  function QuantityOf(lines: seq<OrderItem>, menuItemId: Id): int {
    if lines == [] then 0
    else QuantityOf(lines[..|lines| - 1], menuItemId) +
         (if lines[|lines| - 1].menuItemId == menuItemId then lines[|lines| - 1].quantity else 0)
  }

  /** The distinct menu items of the lines, in order of first appearance:
      the `GROUP BY oi.menuItemId` keys. */
  function GroupKeys(lines: seq<OrderItem>): (r: seq<Id>)
    ensures forall i, j :: 0 <= i < j < |r| ==> r[i] != r[j]
    ensures forall x :: x in r <==> exists i :: 0 <= i < |lines| && lines[i].menuItemId == x
  {
    if lines == [] then []
    else
      var front := GroupKeys(lines[..|lines| - 1]);
      var last := lines[|lines| - 1].menuItemId;
      assert forall i :: 0 <= i < |lines| - 1 ==> lines[..|lines| - 1][i] == lines[i];
      if last in front then front else front + [last]
  }

  /** One result row of the query: `[menuItemId, total]`. */
  datatype TopRow = TopRow(menuItemId: Id, total: int)

  function Grouped(keys: seq<Id>, lines: seq<OrderItem>): (r: seq<TopRow>)
    ensures |r| == |keys|
    ensures forall i :: 0 <= i < |r| ==> r[i] == TopRow(keys[i], QuantityOf(lines, keys[i]))
  {
    if keys == [] then [] else [TopRow(keys[0], QuantityOf(lines, keys[0]))] + Grouped(keys[1..], lines)
  }

  predicate NonIncreasing(rows: seq<TopRow>) {
    forall i, j :: 0 <= i < j < |rows| ==> rows[i].total >= rows[j].total
  }

  /** No two rows are for the same menu item. */
  predicate DistinctItems(rows: seq<TopRow>) {
    forall i, j :: 0 <= i < j < |rows| ==> rows[i].menuItemId != rows[j].menuItemId
  }

  /** Places `row` after every row whose total is at least its own. */
  function InsertByTotal(row: TopRow, rows: seq<TopRow>): (r: seq<TopRow>)
    requires NonIncreasing(rows)
    ensures NonIncreasing(r)
    ensures multiset(r) == multiset(rows) + multiset{row}
    ensures r[0] == row || (rows != [] && r[0] == rows[0])
  {
    if rows == [] then [row]
    else if rows[0].total >= row.total then
      var rest := InsertByTotal(row, rows[1..]);
      assert rows == [rows[0]] + rows[1..];
      ConsNonIncreasing(rows[0], rest);
      [rows[0]] + rest
    else
      assert rows == [rows[0]] + rows[1..];
      ConsNonIncreasing(row, rows);
      [row] + rows
  }

  /** A row in front of non-increasing rows whose first total is no larger. */
  lemma ConsNonIncreasing(x: TopRow, rest: seq<TopRow>)
    requires NonIncreasing(rest) && (rest == [] || rest[0].total <= x.total)
    ensures NonIncreasing([x] + rest)
  {
    var r := [x] + rest;
    forall i, j | 0 <= i < j < |r| ensures r[i].total >= r[j].total {
      if i == 0 {
        assert r[j] == rest[j - 1];
      } else {
        assert r[i] == rest[i - 1] && r[j] == rest[j - 1];
      }
    }
  }

  /** `ORDER BY total DESC`, stable: rows with equal totals keep the order
      of their keys' first appearance, where SQL leaves it unspecified. */
  function SortByTotal(rows: seq<TopRow>): (r: seq<TopRow>)
    ensures NonIncreasing(r)
    ensures multiset(r) == multiset(rows)
  {
    if rows == [] then []
    else
      assert rows == rows[..|rows| - 1] + [rows[|rows| - 1]];
      InsertByTotal(rows[|rows| - 1], SortByTotal(rows[..|rows| - 1]))
  }

  lemma {:induction false} InsertKeepsDistinct(row: TopRow, rows: seq<TopRow>)
    requires NonIncreasing(rows) && DistinctItems(rows)
    requires forall i :: 0 <= i < |rows| ==> rows[i].menuItemId != row.menuItemId
    ensures DistinctItems(InsertByTotal(row, rows))
  {
    var r := InsertByTotal(row, rows);
    if rows != [] && rows[0].total >= row.total {
      InsertKeepsDistinct(row, rows[1..]);
      var rest := InsertByTotal(row, rows[1..]);
      forall j | 0 <= j < |rest| ensures rest[j].menuItemId != rows[0].menuItemId {
        assert rest[j] in multiset(rest);
        assert rest[j] in rows[1..] || rest[j] == row;
      }
    }
  }

  lemma {:induction false} SortKeepsDistinct(rows: seq<TopRow>)
    requires DistinctItems(rows)
    ensures DistinctItems(SortByTotal(rows))
  {
    if rows != [] {
      var front := rows[..|rows| - 1];
      var last := rows[|rows| - 1];
      SortKeepsDistinct(front);
      var sorted := SortByTotal(front);
      forall i | 0 <= i < |sorted| ensures sorted[i].menuItemId != last.menuItemId {
        assert sorted[i] in multiset(front);
      }
      InsertKeepsDistinct(last, sorted);
    }
  }

  /** `findTopSellingItems(shopId)`. */
  function TopSelling(orders: seq<Order>, items: seq<OrderItem>, shopId: Id): seq<TopRow> {
    var lines := ShopLines(orders, items, shopId);
    SortByTotal(Grouped(GroupKeys(lines), lines))
  }

  /** Sorting keeps exactly the rows it was given. */
  lemma SortedMembers(rows: seq<TopRow>)
    ensures forall x :: x in SortByTotal(rows) <==> x in rows
  {
    var r := SortByTotal(rows);
    forall x ensures x in r <==> x in rows {
      assert x in r <==> x in multiset(r);
      assert x in rows <==> x in multiset(rows);
    }
  }

  /** Every grouped row is for a key of the shop's lines, with that key's sum;
      every key of the lines has a row. */
  lemma GroupedRows(lines: seq<OrderItem>)
    ensures var g := Grouped(GroupKeys(lines), lines);
            && DistinctItems(g)
            && (forall x :: x in g ==> x.total == QuantityOf(lines, x.menuItemId) &&
                                       exists l :: l in lines && l.menuItemId == x.menuItemId)
            && (forall l :: l in lines ==> TopRow(l.menuItemId, QuantityOf(lines, l.menuItemId)) in g)
  {
    var keys := GroupKeys(lines);
    var g := Grouped(keys, lines);
    forall x | x in g
      ensures x.total == QuantityOf(lines, x.menuItemId)
      ensures exists l :: l in lines && l.menuItemId == x.menuItemId
    {
      var a :| 0 <= a < |g| && g[a] == x;
      assert keys[a] in keys;
      var li :| 0 <= li < |lines| && lines[li].menuItemId == keys[a];
      assert lines[li] in lines;
    }
    forall l | l in lines
      ensures TopRow(l.menuItemId, QuantityOf(lines, l.menuItemId)) in g
    {
      var li :| 0 <= li < |lines| && lines[li] == l;
      assert l.menuItemId in keys;
      var a :| 0 <= a < |keys| && keys[a] == l.menuItemId;
      assert g[a] == TopRow(l.menuItemId, QuantityOf(lines, l.menuItemId));
    }
  }

  /** The query returns one row per menu item ordered from the shop, under
      any status, with the quantity summed over all of the shop's orders,
      and the rows come by non-increasing total. */
  lemma TopSellingRows(orders: seq<Order>, items: seq<OrderItem>, shopId: Id)
    ensures var r := TopSelling(orders, items, shopId);
            var lines := ShopLines(orders, items, shopId);
            && NonIncreasing(r)
            && DistinctItems(r)
            && (forall x :: x in r ==> x.total == QuantityOf(lines, x.menuItemId) &&
                                       exists l :: l in lines && l.menuItemId == x.menuItemId)
            && (forall l :: l in lines ==> TopRow(l.menuItemId, QuantityOf(lines, l.menuItemId)) in r)
  {
    var lines := ShopLines(orders, items, shopId);
    var g := Grouped(GroupKeys(lines), lines);
    GroupedRows(lines);
    SortKeepsDistinct(g);
    SortedMembers(g);
  }
}
