/** `OwnerStatisticsService`: the owner's dashboard, built from the three
    aggregate queries of `OrderRepository`. */
module OwnerStatistics {
  import opened Common
  import opened Entities
  import opened Repositories
  import opened OrderQueries

  /** `TopItemDTO`. */
  datatype TopItem = TopItem(menuItemId: Id, menuItemName: string, totalQuantity: int)

  /** `DashboardStatsDTO`. */
  datatype DashboardStats = DashboardStats(totalRevenue: Cents, pendingOrdersCount: nat,
                                           topSellingItems: seq<TopItem>)

  /** The query rows, in their order, named after the current menu item;
      a row whose menu item is gone is skipped. */
  function TopItems(rows: seq<TopRow>, menu: seq<MenuItem>): (r: seq<TopItem>)
    ensures |r| <= |rows|
  {
    if rows == [] then []
    else
      var last := rows[|rows| - 1];
      TopItems(rows[..|rows| - 1], menu) +
        match FindMenuItem(menu, last.menuItemId)
        case None => []
        case Some(m) => [TopItem(last.menuItemId, m.name, last.total)]
  }

  /** The item a row becomes when its menu item exists. */
  ghost predicate ShowsRow(t: TopItem, row: TopRow, menu: seq<MenuItem>) {
    && t.menuItemId == row.menuItemId && t.totalQuantity == row.total
    && FindMenuItem(menu, row.menuItemId).Some?
    && t.menuItemName == FindMenuItem(menu, row.menuItemId).value.name
  }

  /** The top items are the rows whose menu item exists, in the rows'
      order: item `i` shows row `idx[i]`, the indices increase, and every
      row left out is one whose menu item is gone. */
  lemma {:induction false} TopItemsKeepOrder(rows: seq<TopRow>, menu: seq<MenuItem>) returns (idx: seq<nat>)
    ensures |idx| == |TopItems(rows, menu)|
    ensures forall i :: 0 <= i < |idx| ==> idx[i] < |rows| && ShowsRow(TopItems(rows, menu)[i], rows[idx[i]], menu)
    ensures forall i, j :: 0 <= i < j < |idx| ==> idx[i] < idx[j]
    ensures forall k :: 0 <= k < |rows| && FindMenuItem(menu, rows[k].menuItemId).Some? ==> k in idx
  {
    if rows == [] {
      idx := [];
    } else {
      var n := |rows| - 1;
      var front := rows[..n];
      var prior := TopItemsKeepOrder(front, menu);
      idx := TopItemsExtend(rows, menu, prior);
    }
  }

  /** `idx` says which row each of `items` shows: item `i` shows row
      `idx[i]`, the indices increase, and every row whose menu item exists
      is among them. */
  ghost predicate Tracks(items: seq<TopItem>, rows: seq<TopRow>, menu: seq<MenuItem>, idx: seq<nat>) {
    && |idx| == |items|
    && (forall i :: 0 <= i < |idx| ==> idx[i] < |rows| && ShowsRow(items[i], rows[idx[i]], menu))
    && (forall i, j :: 0 <= i < j < |idx| ==> idx[i] < idx[j])
    && (forall k :: 0 <= k < |rows| && FindMenuItem(menu, rows[k].menuItemId).Some? ==> k in idx)
  }

  /** The induction step of `TopItemsKeepOrder`: the indices for all rows
      but the last extend to all rows. */
  lemma TopItemsExtend(rows: seq<TopRow>, menu: seq<MenuItem>, prior: seq<nat>) returns (idx: seq<nat>)
    requires |rows| > 0
    requires Tracks(TopItems(rows[..|rows| - 1], menu), rows[..|rows| - 1], menu, prior)
    ensures Tracks(TopItems(rows, menu), rows, menu, idx)
  {
    var n := |rows| - 1;
    if FindMenuItem(menu, rows[n].menuItemId).None? {
      TopItemsSkipRow(rows, menu, prior);
      idx := prior;
    } else {
      idx := TopItemsAddRow(rows, menu, prior);
    }
  }

  /** A last row whose menu item is gone adds no item. */
  lemma TopItemsSkipRow(rows: seq<TopRow>, menu: seq<MenuItem>, prior: seq<nat>)
    requires |rows| > 0 && FindMenuItem(menu, rows[|rows| - 1].menuItemId).None?
    requires Tracks(TopItems(rows[..|rows| - 1], menu), rows[..|rows| - 1], menu, prior)
    ensures Tracks(TopItems(rows, menu), rows, menu, prior)
  {
    var n := |rows| - 1;
    var front := rows[..n];
    var r := TopItems(rows, menu);
    assert r == TopItems(front, menu);
    forall i | 0 <= i < |prior| ensures prior[i] < |rows| && ShowsRow(r[i], rows[prior[i]], menu) {
      assert front[prior[i]] == rows[prior[i]];
    }
    forall k | 0 <= k < |rows| && FindMenuItem(menu, rows[k].menuItemId).Some? ensures k in prior {
      assert k < n && front[k] == rows[k];
    }
  }

  /** A last row whose menu item exists adds one item, showing it. */
  lemma TopItemsAddRow(rows: seq<TopRow>, menu: seq<MenuItem>, prior: seq<nat>) returns (idx: seq<nat>)
    requires |rows| > 0 && FindMenuItem(menu, rows[|rows| - 1].menuItemId).Some?
    requires Tracks(TopItems(rows[..|rows| - 1], menu), rows[..|rows| - 1], menu, prior)
    ensures Tracks(TopItems(rows, menu), rows, menu, idx)
  {
    var n := |rows| - 1;
    var front := rows[..n];
    assert forall k :: 0 <= k < n ==> front[k] == rows[k];
    var r := TopItems(rows, menu);
    var rf := TopItems(front, menu);
    var m := FindMenuItem(menu, rows[n].menuItemId).value;
    assert r == rf + [TopItem(rows[n].menuItemId, m.name, rows[n].total)];
    idx := prior + [n];
    forall i | 0 <= i < |idx|
      ensures idx[i] < |rows| && ShowsRow(r[i], rows[idx[i]], menu)
    {
      if i < |prior| {
        assert r[i] == rf[i];
      }
    }
  }

  /** `getDashboardStats(ownerId)`: a null revenue reads as zero. */
  function Dashboard(s: Store, ownerId: Id): Result<DashboardStats> {
    match FindShopByOwner(s.shops, ownerId)
    case None => Err(ResourceNotFound(ShopNotFoundForOwner))
    case Some(shop) =>
      Ok(DashboardStats(Revenue(s.orders, shop.id).GetOr(0),
                        PendingCount(s.orders, shop.id),
                        TopItems(TopSelling(s.orders, s.orderItems, shop.id), s.menuItems)))
  }

  /** The dashboard fails exactly when the owner has no shop. Otherwise its
      revenue is the delivered orders' sum, or zero when there is none;
      its pending count is the shop's pending orders; and its top items
      are distinct menu items, by non-increasing total, each total being
      everything ordered of that item at the shop whatever the status. */
  lemma DashboardFacts(s: Store, ownerId: Id)
    ensures Dashboard(s, ownerId).Err? <==> FindShopByOwner(s.shops, ownerId).None?
    ensures Dashboard(s, ownerId).Err? ==> Dashboard(s, ownerId).error == ResourceNotFound(ShopNotFoundForOwner)
    ensures Dashboard(s, ownerId).Ok? ==>
              var d := Dashboard(s, ownerId).value;
              var shopId := FindShopByOwner(s.shops, ownerId).value.id;
              var lines := ShopLines(s.orders, s.orderItems, shopId);
              var items := d.topSellingItems;
              && (d.totalRevenue == 0 <== forall i :: 0 <= i < |s.orders| ==> !DeliveredBy(s.orders[i], shopId))
              && (Revenue(s.orders, shopId).Some? ==> d.totalRevenue == Revenue(s.orders, shopId).value)
              && d.pendingOrdersCount == PendingCount(s.orders, shopId)
              && (forall i, j :: 0 <= i < j < |items| ==>
                    items[i].totalQuantity >= items[j].totalQuantity && items[i].menuItemId != items[j].menuItemId)
              && (forall i :: 0 <= i < |items| ==>
                    items[i].totalQuantity == QuantityOf(lines, items[i].menuItemId) &&
                    FindMenuItem(s.menuItems, items[i].menuItemId).Some?)
  {
    if Dashboard(s, ownerId).Ok? {
      var shopId := FindShopByOwner(s.shops, ownerId).value.id;
      var rows := TopSelling(s.orders, s.orderItems, shopId);
      var items := Dashboard(s, ownerId).value.topSellingItems;
      TopSellingRows(s.orders, s.orderItems, shopId);
      var idx := TopItemsKeepOrder(rows, s.menuItems);
      forall i | 0 <= i < |items|
        ensures items[i].totalQuantity == QuantityOf(ShopLines(s.orders, s.orderItems, shopId), items[i].menuItemId)
      {
        assert rows[idx[i]] in rows;
      }
    }
  }

  /** The top items of one more row. */
  lemma TopItemsStep(rows: seq<TopRow>, i: nat, menu: seq<MenuItem>)
    requires i < |rows|
    ensures TopItems(rows[..i + 1], menu) ==
              TopItems(rows[..i], menu) +
                match FindMenuItem(menu, rows[i].menuItemId)
                case None => []
                case Some(m) => [TopItem(rows[i].menuItemId, m.name, rows[i].total)]
  {
    assert rows[..i + 1][..i] == rows[..i];
  }

  /** `getDashboardStats(ownerId)` as written: the two aggregates with
      their null guards, then a loop over the top-selling rows that keeps
      those whose menu item is still found. */
  method GetDashboardStats(db: Database, ownerId: Id) returns (r: Result<DashboardStats>)
    ensures r == Dashboard(db.Snapshot(), ownerId)
  {
    var shop := FindShopByOwner(db.shops, ownerId);
    if shop.None? {
      return Err(ResourceNotFound(ShopNotFoundForOwner));
    }
    var shopId := shop.value.id;
    var revenue := Revenue(db.orders, shopId);
    var totalRevenue := if revenue.None? then 0 else revenue.value;
    var pending := PendingCount(db.orders, shopId);
    var rows := TopSelling(db.orders, db.orderItems, shopId);
    var items: seq<TopItem> := [];
    var i := 0;
    while i < |rows|
      invariant 0 <= i <= |rows|
      invariant items == TopItems(rows[..i], db.menuItems)
    {
      TopItemsStep(rows, i, db.menuItems);
      var menuItem := FindMenuItem(db.menuItems, rows[i].menuItemId);
      if menuItem.Some? {
        items := items + [TopItem(rows[i].menuItemId, menuItem.value.name, rows[i].total)];
      }
      i := i + 1;
    }
    assert rows[..i] == rows;
    r := Ok(DashboardStats(totalRevenue, pending, items));
  }
}
