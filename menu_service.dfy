/** `MenuService`: an owner adds, edits and deletes the menu items of
    their own shop. */
module MenuService {
  import opened Common
  import opened Entities
  import opened Repositories
  import CartService

  const NotOwnItemUpdate := "You can only update menu items from your own shop"
  const NotOwnItemDelete := "You can only delete menu items from your own shop"

  /** `MenuItemDTO`: the fields an owner sets; `imageUrl` may be null. */
  datatype MenuItemRequest = MenuItemRequest(name: string, description: string, price: Cents,
                                             imageUrl: Option<string>)

  /** The row the owner may change: the owner's shop is found, then the
      item, then the item must be the shop's (`forbidden` names the
      operation in the message). */
  function OwnedItem(s: Store, ownerId: Id, itemId: Id, forbidden: string): (r: Result<nat>)
    ensures r.Ok? ==> r.value < |s.menuItems| && s.menuItems[r.value].id == itemId
    ensures FindShopByOwner(s.shops, ownerId).None? <==> r == Err(ResourceNotFound(ShopNotFoundForOwner))
    ensures FindShopByOwner(s.shops, ownerId).Some? ==>
              && (MenuItemIndex(s.menuItems, itemId).None? <==>
                    r == Err(ResourceNotFound(CartService.MenuItemNotFound)))
              && (MenuItemIndex(s.menuItems, itemId).Some? ==>
                    (r.Ok? <==> s.menuItems[MenuItemIndex(s.menuItems, itemId).value].shopId ==
                                FindShopByOwner(s.shops, ownerId).value.id) &&
                    (r.Err? ==> r.error == Forbidden(forbidden)))
  {
    match FindShopByOwner(s.shops, ownerId)
    case None => Err(ResourceNotFound(ShopNotFoundForOwner))
    case Some(shop) =>
      match MenuItemIndex(s.menuItems, itemId)
      case None => Err(ResourceNotFound(CartService.MenuItemNotFound))
      case Some(j) =>
        if s.menuItems[j].shopId != shop.id then Err(Forbidden(forbidden)) else Ok(j)
  }

  /** An order line or a cart line still points at the menu item: the
      foreign keys that make the row's `DELETE` fail. */
  predicate Referenced(s: Store, itemId: Id) {
    || (exists i :: 0 <= i < |s.orderItems| && s.orderItems[i].menuItemId == itemId)
    || (exists i :: 0 <= i < |s.cartItems| && s.cartItems[i].menuItemId == itemId)
  }

  // ---- addMenuItem --------------------------------------------------------

  /** The store after `addMenuItem(ownerId, dto)`, or the exception. */
  function ItemAdded(s: Store, ownerId: Id, dto: MenuItemRequest): Result<Store> {
    match FindShopByOwner(s.shops, ownerId)
    case None => Err(ResourceNotFound(ShopNotFoundForOwner))
    case Some(shop) =>
      var item := MenuItem(s.nextId, dto.name, dto.description, dto.price, dto.imageUrl, shop.id);
      Ok(s.(menuItems := s.menuItems + [item], nextId := s.nextId + 1))
  }

  /** Adding fails exactly when the owner has no shop; otherwise the one
      new row carries a fresh key, the owner's shop and the request's
      fields, it joins the end of that shop's menu, and no other table
      changes. */
  lemma ItemAddedEffect(s: Store, ownerId: Id, dto: MenuItemRequest)
    ensures ItemAdded(s, ownerId, dto).Err? <==> FindShopByOwner(s.shops, ownerId).None?
    ensures ItemAdded(s, ownerId, dto).Err? ==>
              ItemAdded(s, ownerId, dto).error == ResourceNotFound(ShopNotFoundForOwner)
    ensures ItemAdded(s, ownerId, dto).Ok? ==>
              var t := ItemAdded(s, ownerId, dto).value;
              var shop := FindShopByOwner(s.shops, ownerId).value;
              && |t.menuItems| == |s.menuItems| + 1
              && t.menuItems[..|s.menuItems|] == s.menuItems
              && t.menuItems[|s.menuItems|] ==
                   MenuItem(s.nextId, dto.name, dto.description, dto.price, dto.imageUrl, shop.id)
              && MenuOfShop(t.menuItems, shop.id) == MenuOfShop(s.menuItems, shop.id) + [t.menuItems[|s.menuItems|]]
              && t.nextId == s.nextId + 1
              && t.(menuItems := s.menuItems, nextId := s.nextId) == s
  {
    if ItemAdded(s, ownerId, dto).Ok? {
      var t := ItemAdded(s, ownerId, dto).value;
      var shop := FindShopByOwner(s.shops, ownerId).value;
      var item := t.menuItems[|s.menuItems|];
      assert t.menuItems == s.menuItems + [item];
      FilterAppend(s.menuItems, [item], (m: MenuItem) => m.shopId == shop.id);
    }
  }

  lemma ItemAddedKeepsValid(s: Store, ownerId: Id, dto: MenuItemRequest)
    requires Valid(s) && ItemAdded(s, ownerId, dto).Ok?
    ensures Valid(ItemAdded(s, ownerId, dto).value)
  {
    var t := ItemAdded(s, ownerId, dto).value;
    KeysGrow(s, t.nextId);
    assert forall i :: 0 <= i < |s.menuItems| ==> t.menuItems[i] == s.menuItems[i];
    forall c, l | c in t.carts && l in t.cartItems && l.cartId == c.id
      ensures ItemOfShop(t.menuItems, l.menuItemId, c.shopId)
    {
      var m :| m in s.menuItems && m.id == l.menuItemId && c.shopId == Some(m.shopId);
      assert m in t.menuItems;
    }
  }

  // ---- updateMenuItem -----------------------------------------------------

  /** The store after `updateMenuItem(ownerId, itemId, dto)`, or the
      exception. */
  function ItemUpdated(s: Store, ownerId: Id, itemId: Id, dto: MenuItemRequest): Result<Store> {
    match OwnedItem(s, ownerId, itemId, NotOwnItemUpdate)
    case Err(e) => Err(e)
    case Ok(j) =>
      var m := s.menuItems[j];
      Ok(s.(menuItems := s.menuItems[j := m.(name := dto.name, description := dto.description,
                                            price := dto.price, imageUrl := dto.imageUrl)]))
  }

  /** A successful update overwrites the item's name, description, price
      and image (a null image clears it), keeps its key and shop, and
      changes nothing else: in particular no cart total and no order is
      touched by a new price. */
  lemma ItemUpdatedEffect(s: Store, ownerId: Id, itemId: Id, dto: MenuItemRequest)
    requires ItemUpdated(s, ownerId, itemId, dto).Ok?
    ensures var t := ItemUpdated(s, ownerId, itemId, dto).value;
            var j := MenuItemIndex(s.menuItems, itemId).value;
            && |t.menuItems| == |s.menuItems|
            && t.menuItems[j] == MenuItem(itemId, dto.name, dto.description, dto.price, dto.imageUrl,
                                          s.menuItems[j].shopId)
            && s.menuItems[j].shopId == FindShopByOwner(s.shops, ownerId).value.id
            && (forall i :: 0 <= i < |s.menuItems| && i != j ==> t.menuItems[i] == s.menuItems[i])
            && t.carts == s.carts && t.cartItems == s.cartItems
            && t.orders == s.orders && t.orderItems == s.orderItems
            && t.(menuItems := s.menuItems) == s
  {
  }

  lemma ItemUpdatedKeepsValid(s: Store, ownerId: Id, itemId: Id, dto: MenuItemRequest)
    requires Valid(s) && ItemUpdated(s, ownerId, itemId, dto).Ok?
    ensures Valid(ItemUpdated(s, ownerId, itemId, dto).value)
  {
    var t := ItemUpdated(s, ownerId, itemId, dto).value;
    var j := MenuItemIndex(s.menuItems, itemId).value;
    assert forall i :: 0 <= i < |s.menuItems| ==>
      t.menuItems[i].id == s.menuItems[i].id && t.menuItems[i].shopId == s.menuItems[i].shopId;
    forall c, l | c in t.carts && l in t.cartItems && l.cartId == c.id
      ensures ItemOfShop(t.menuItems, l.menuItemId, c.shopId)
    {
      var m :| m in s.menuItems && m.id == l.menuItemId && c.shopId == Some(m.shopId);
      var i :| 0 <= i < |s.menuItems| && s.menuItems[i] == m;
      assert t.menuItems[i] in t.menuItems;
    }
  }

  /** A new price reaches a cart's stored total only through the next cart
      operation: right after the update the stored total is as it was,
      while the sum at current prices already uses the new price. */
  lemma PriceUpdateLeavesTotals(s: Store, ownerId: Id, itemId: Id, dto: MenuItemRequest, k: nat)
    requires ItemUpdated(s, ownerId, itemId, dto).Ok? && k < |s.carts|
    ensures var t := ItemUpdated(s, ownerId, itemId, dto).value;
            && t.carts[k].totalAmount == s.carts[k].totalAmount
            && FindMenuItem(t.menuItems, itemId).Some?
            && FindMenuItem(t.menuItems, itemId).value.price == dto.price
  {
    var t := ItemUpdated(s, ownerId, itemId, dto).value;
    var j := MenuItemIndex(s.menuItems, itemId).value;
    assert forall i :: 0 <= i < |s.menuItems| ==> t.menuItems[i].id == s.menuItems[i].id;
    assert MenuItemIndex(t.menuItems, itemId) == Some(j);
  }

  // ---- deleteMenuItem -----------------------------------------------------

  /** The store after `deleteMenuItem(ownerId, itemId)`, or the exception;
      a row still referenced by an order or cart line cannot go. The
      `delete` only schedules the `DELETE`, which runs when the commit
      flushes, after the method has left its `try`: the caller gets the
      foreign-key violation itself, not the `RuntimeException` of the
      `catch`. */
  function ItemDeleted(s: Store, ownerId: Id, itemId: Id): Result<Store> {
    match OwnedItem(s, ownerId, itemId, NotOwnItemDelete)
    case Err(e) => Err(e)
    case Ok(j) =>
      if Referenced(s, itemId) then Err(IntegrityViolation)
      else Ok(s.(menuItems := s.menuItems[..j] + s.menuItems[j + 1..]))
  }

  /** Once the ownership checks pass, deleting fails exactly when the item
      is still referenced, with the violation the commit raises. */
  lemma ItemDeletedOutcome(s: Store, ownerId: Id, itemId: Id)
    requires OwnedItem(s, ownerId, itemId, NotOwnItemDelete).Ok?
    ensures ItemDeleted(s, ownerId, itemId).Err? <==> Referenced(s, itemId)
    ensures ItemDeleted(s, ownerId, itemId).Err? ==> ItemDeleted(s, ownerId, itemId).error == IntegrityViolation
  {
  }

  /** A successful delete removes the one row with that key and keeps the
      other rows in order; no other table changes. */
  lemma ItemDeletedEffect(s: Store, ownerId: Id, itemId: Id)
    requires MenuKeys(s.menuItems, s.nextId) && ItemDeleted(s, ownerId, itemId).Ok?
    ensures var t := ItemDeleted(s, ownerId, itemId).value;
            var j := MenuItemIndex(s.menuItems, itemId).value;
            && !Referenced(s, itemId)
            && |t.menuItems| + 1 == |s.menuItems|
            && (forall i :: 0 <= i < |t.menuItems| ==> t.menuItems[i].id != itemId)
            && (forall i :: 0 <= i < j ==> t.menuItems[i] == s.menuItems[i])
            && (forall i :: j < i < |s.menuItems| ==> t.menuItems[i - 1] == s.menuItems[i])
            && t.(menuItems := s.menuItems) == s
  {
    var t := ItemDeleted(s, ownerId, itemId).value;
    var j := MenuItemIndex(s.menuItems, itemId).value;
    forall i | 0 <= i < |t.menuItems| ensures t.menuItems[i].id != itemId {
      if i < j {
        assert t.menuItems[i] == s.menuItems[i];
      } else {
        assert t.menuItems[i] == s.menuItems[i + 1];
      }
    }
  }

  /** Every row but the deleted one survives a delete. */
  lemma DeleteKeepsOthers(s: Store, ownerId: Id, itemId: Id, m: MenuItem)
    requires ItemDeleted(s, ownerId, itemId).Ok? && m in s.menuItems && m.id != itemId
    ensures m in ItemDeleted(s, ownerId, itemId).value.menuItems
  {
    var t := ItemDeleted(s, ownerId, itemId).value;
    var j := MenuItemIndex(s.menuItems, itemId).value;
    var i :| 0 <= i < |s.menuItems| && s.menuItems[i] == m;
    if i < j {
      assert t.menuItems[i] == m;
    } else {
      assert t.menuItems[i - 1] == m;
    }
  }

  lemma ItemDeletedKeepsKeys(s: Store, ownerId: Id, itemId: Id)
    requires MenuKeys(s.menuItems, s.nextId) && ItemDeleted(s, ownerId, itemId).Ok?
    ensures MenuKeys(ItemDeleted(s, ownerId, itemId).value.menuItems, s.nextId)
  {
    var t := ItemDeleted(s, ownerId, itemId).value;
    var j := MenuItemIndex(s.menuItems, itemId).value;
    assert t.menuItems == s.menuItems[..j] + s.menuItems[j + 1..];
    assert forall i :: 0 <= i < |t.menuItems| ==>
      t.menuItems[i] == s.menuItems[if i < j then i else i + 1];
  }

  lemma ItemDeletedKeepsValid(s: Store, ownerId: Id, itemId: Id)
    requires Valid(s) && ItemDeleted(s, ownerId, itemId).Ok?
    ensures Valid(ItemDeleted(s, ownerId, itemId).value)
  {
    var t := ItemDeleted(s, ownerId, itemId).value;
    ItemDeletedKeepsKeys(s, ownerId, itemId);
    assert !Referenced(s, itemId);
    forall c, l | c in t.carts && l in t.cartItems && l.cartId == c.id
      ensures ItemOfShop(t.menuItems, l.menuItemId, c.shopId)
    {
      var m :| m in s.menuItems && m.id == l.menuItemId && c.shopId == Some(m.shopId);
      var li :| 0 <= li < |s.cartItems| && s.cartItems[li] == l;
      DeleteKeepsOthers(s, ownerId, itemId, m);
    }
  }

  // ---- the service methods ----------------------------------------------

  /** `addMenuItem(ownerId, dto)`. */
  method AddMenuItem(db: Database, ownerId: Id, dto: MenuItemRequest) returns (r: Outcome)
    modifies db
    ensures var expected := ItemAdded(old(db.Snapshot()), ownerId, dto);
            && (r.Pass? <==> expected.Ok?)
            && (r.Pass? ==> db.Snapshot() == expected.value)
            && (r.Fail? ==> r == Fail(expected.error) && db.Snapshot() == old(db.Snapshot()))
  {
    var shop := FindShopByOwner(db.shops, ownerId);
    if shop.None? {
      return Fail(ResourceNotFound(ShopNotFoundForOwner));
    }
    var id := db.NewId();
    db.menuItems := db.menuItems + [MenuItem(id, dto.name, dto.description, dto.price, dto.imageUrl,
                                             shop.value.id)];
    r := Pass;
  }

  /** `updateMenuItem(ownerId, itemId, dto)`. */
  method UpdateMenuItem(db: Database, ownerId: Id, itemId: Id, dto: MenuItemRequest) returns (r: Outcome)
    modifies db
    ensures var expected := ItemUpdated(old(db.Snapshot()), ownerId, itemId, dto);
            && (r.Pass? <==> expected.Ok?)
            && (r.Pass? ==> db.Snapshot() == expected.value)
            && (r.Fail? ==> r == Fail(expected.error) && db.Snapshot() == old(db.Snapshot()))
  {
    var owned := OwnedItem(db.Snapshot(), ownerId, itemId, NotOwnItemUpdate);
    if owned.Err? {
      return Fail(owned.error);
    }
    var j := owned.value;
    var item := db.menuItems[j];
    item := item.(name := dto.name, description := dto.description);
    item := item.(price := dto.price, imageUrl := dto.imageUrl);
    db.menuItems := db.menuItems[j := item];
    r := Pass;
  }

  /** `deleteMenuItem(ownerId, itemId)`. */
  method DeleteMenuItem(db: Database, ownerId: Id, itemId: Id) returns (r: Outcome)
    modifies db
    ensures var expected := ItemDeleted(old(db.Snapshot()), ownerId, itemId);
            && (r.Pass? <==> expected.Ok?)
            && (r.Pass? ==> db.Snapshot() == expected.value)
            && (r.Fail? ==> r == Fail(expected.error) && db.Snapshot() == old(db.Snapshot()))
  {
    var owned := OwnedItem(db.Snapshot(), ownerId, itemId, NotOwnItemDelete);
    if owned.Err? {
      return Fail(owned.error);
    }
    if Referenced(db.Snapshot(), itemId) {
      return Fail(IntegrityViolation);
    }
    var j := owned.value;
    db.menuItems := db.menuItems[..j] + db.menuItems[j + 1..];
    r := Pass;
  }
}
