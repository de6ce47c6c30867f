/** `ShopService`: the shop list and menus customers browse, and the
    owner's view and edit of their own shop. */
module ShopService {
  import opened Common
  import opened Entities
  import opened Repositories
  import opened Text
  import MenuService

  /** `ShopDTO`, as `convertToShopDTO` fills it. */
  datatype ShopView = ShopView(id: Id, shopName: string, description: string, address: string,
                               imageUrl: Option<string>)

  /** `MenuItemResponseDTO`. */
  datatype MenuItemView = MenuItemView(id: Id, name: string, description: string, price: Cents,
                                       imageUrl: Option<string>)

  /** `UpdateShopDTO`; a null `imageUrl` keeps the current image. */
  datatype ShopRequest = ShopRequest(shopName: string, description: string, address: string,
                                     imageUrl: Option<string>)

  function ShopViewOf(sh: Shop): ShopView {
    ShopView(sh.id, sh.shopName, sh.description, sh.address, sh.imageUrl)
  }

  function MenuItemViewOf(m: MenuItem): MenuItemView {
    MenuItemView(m.id, m.name, m.description, m.price, m.imageUrl)
  }

  /** The message of `getShopMenu` for an unknown shop. */
  function ShopNotFound(shopId: Id): string {
    "Shop not found with id: " + DecimalString(shopId)
  }

  /** `getAllShops()`: every stored shop, in repository order. */
  function AllShops(shops: seq<Shop>): (r: seq<ShopView>)
    ensures |r| == |shops|
    ensures forall i :: 0 <= i < |shops| ==>
              r[i].id == shops[i].id && r[i].shopName == shops[i].shopName &&
              r[i].description == shops[i].description && r[i].address == shops[i].address &&
              r[i].imageUrl == shops[i].imageUrl
  {
    if shops == [] then [] else [ShopViewOf(shops[0])] + AllShops(shops[1..])
  }

  /** The menu items, shown. */
  function MenuViews(items: seq<MenuItem>): (r: seq<MenuItemView>)
    ensures |r| == |items|
    ensures forall i :: 0 <= i < |items| ==>
              r[i].id == items[i].id && r[i].name == items[i].name &&
              r[i].description == items[i].description && r[i].price == items[i].price &&
              r[i].imageUrl == items[i].imageUrl
  {
    if items == [] then [] else [MenuItemViewOf(items[0])] + MenuViews(items[1..])
  }

  lemma MenuViewsAppend(a: seq<MenuItem>, b: seq<MenuItem>)
    ensures MenuViews(a + b) == MenuViews(a) + MenuViews(b)
  {
    var l := MenuViews(a + b);
    var r := MenuViews(a) + MenuViews(b);
    forall i | 0 <= i < |l| ensures l[i] == r[i] {
      if i < |a| {
        assert (a + b)[i] == a[i];
      } else {
        assert (a + b)[i] == b[i - |a|];
      }
    }
  }

  /** `getShopMenu(shopId)`. */
  function ShopMenu(s: Store, shopId: Id): Result<seq<MenuItemView>> {
    if FindShop(s.shops, shopId).None? then Err(ResourceNotFound(ShopNotFound(shopId)))
    else Ok(MenuViews(MenuOfShop(s.menuItems, shopId)))
  }

  /** An unknown shop is an error naming its key; a known shop's menu is
      every item of that shop and no other, in table order. */
  lemma ShopMenuExact(s: Store, shopId: Id)
    ensures ShopMenu(s, shopId).Err? <==> forall i :: 0 <= i < |s.shops| ==> s.shops[i].id != shopId
    ensures ShopMenu(s, shopId).Err? ==> ShopMenu(s, shopId).error == ResourceNotFound(ShopNotFound(shopId))
    ensures ShopMenu(s, shopId).Ok? ==>
              var r := ShopMenu(s, shopId).value;
              && (forall i :: 0 <= i < |r| ==>
                    exists m :: m in s.menuItems && m.shopId == shopId && r[i] == MenuItemViewOf(m))
              && (forall m :: m in s.menuItems && m.shopId == shopId ==> MenuItemViewOf(m) in r)
  {
    if ShopMenu(s, shopId).Ok? {
      var items := MenuOfShop(s.menuItems, shopId);
      var r := ShopMenu(s, shopId).value;
      forall i | 0 <= i < |r|
        ensures exists m :: m in s.menuItems && m.shopId == shopId && r[i] == MenuItemViewOf(m)
      {
        assert r[i] == MenuItemViewOf(items[i]);
      }
      forall m | m in s.menuItems && m.shopId == shopId
        ensures MenuItemViewOf(m) in r
      {
        var j :| 0 <= j < |s.menuItems| && s.menuItems[j] == m;
        var i :| 0 <= i < |items| && items[i] == m;
        assert r[i] == MenuItemViewOf(m);
      }
    } else {
      assert FindShop(s.shops, shopId).None?;
    }
  }

  /** An item the owner adds shows up last on their shop's menu. */
  lemma AddedItemOnMenu(s: Store, ownerId: Id, dto: MenuService.MenuItemRequest)
    requires MenuService.ItemAdded(s, ownerId, dto).Ok?
    ensures var t := MenuService.ItemAdded(s, ownerId, dto).value;
            var shopId := FindShopByOwner(s.shops, ownerId).value.id;
            && ShopMenu(t, shopId).Ok?
            && ShopMenu(t, shopId).value ==
                 ShopMenu(s, shopId).value + [MenuItemView(s.nextId, dto.name, dto.description, dto.price, dto.imageUrl)]
  {
    var t := MenuService.ItemAdded(s, ownerId, dto).value;
    var shop := FindShopByOwner(s.shops, ownerId).value;
    MenuService.ItemAddedEffect(s, ownerId, dto);
    assert FindShop(s.shops, shop.id).Some? by {
      var i :| 0 <= i < |s.shops| && s.shops[i] == shop;
    }
    var item := t.menuItems[|s.menuItems|];
    MenuViewsAppend(MenuOfShop(s.menuItems, shop.id), [item]);
  }

  // ---- the owner's shop -------------------------------------------------

  /** `getOwnerShop(ownerId)`. */
  function OwnerShop(s: Store, ownerId: Id): Result<ShopView> {
    match FindShopByOwner(s.shops, ownerId)
    case None => Err(ResourceNotFound(ShopNotFoundForOwner))
    case Some(shop) => Ok(ShopViewOf(shop))
  }

  /** The owner's shop is the first shop they own, and the not-found error
      exactly when they own none; in a valid store (`owner_id` unique) it
      is the owner's only shop. */
  lemma OwnerShopExact(s: Store, ownerId: Id)
    ensures OwnerShop(s, ownerId).Err? <==> forall i :: 0 <= i < |s.shops| ==> s.shops[i].ownerId != ownerId
    ensures OwnerShop(s, ownerId).Err? ==> OwnerShop(s, ownerId).error == ResourceNotFound(ShopNotFoundForOwner)
    ensures OwnerShop(s, ownerId).Ok? ==>
              exists i :: && 0 <= i < |s.shops| && s.shops[i].ownerId == ownerId
                          && (forall j :: 0 <= j < i ==> s.shops[j].ownerId != ownerId)
                          && OwnerShop(s, ownerId).value == ShopViewOf(s.shops[i])
    ensures Valid(s) && OwnerShop(s, ownerId).Ok? ==>
              forall i :: 0 <= i < |s.shops| && s.shops[i].ownerId == ownerId ==>
                OwnerShop(s, ownerId).value == ShopViewOf(s.shops[i])
  {
    if OwnerShop(s, ownerId).Ok? {
      var i := ShopIndexOfOwner(s.shops, ownerId).value;
      assert OwnerShop(s, ownerId).value == ShopViewOf(s.shops[i]);
    } else {
      assert ShopIndexOfOwner(s.shops, ownerId).None?;
    }
  }

  /** The store after `updateShop(ownerId, dto)`, or the exception. */
  function ShopUpdated(s: Store, ownerId: Id, dto: ShopRequest): Result<Store> {
    match ShopIndexOfOwner(s.shops, ownerId)
    case None => Err(ResourceNotFound(ShopNotFoundForOwner))
    case Some(k) =>
      var shop := s.shops[k];
      var named := shop.(shopName := dto.shopName, description := dto.description, address := dto.address);
      var pictured := if dto.imageUrl.Some? then named.(imageUrl := dto.imageUrl) else named;
      Ok(s.(shops := s.shops[k := pictured]))
  }

  /** Updating fails exactly when the owner has no shop. Otherwise it
      overwrites name, description and address, replaces the image only
      when the request carries one (unlike a menu item's update), keeps
      key and owner, and changes no other row; the owner then sees the
      new values. */
  lemma ShopUpdatedEffect(s: Store, ownerId: Id, dto: ShopRequest)
    ensures ShopUpdated(s, ownerId, dto).Err? <==> FindShopByOwner(s.shops, ownerId).None?
    ensures ShopUpdated(s, ownerId, dto).Err? ==>
              ShopUpdated(s, ownerId, dto).error == ResourceNotFound(ShopNotFoundForOwner)
    ensures ShopUpdated(s, ownerId, dto).Ok? ==>
              var t := ShopUpdated(s, ownerId, dto).value;
              var k := ShopIndexOfOwner(s.shops, ownerId).value;
              && |t.shops| == |s.shops|
              && t.shops[k].id == s.shops[k].id && t.shops[k].ownerId == ownerId
              && t.shops[k].shopName == dto.shopName && t.shops[k].description == dto.description
              && t.shops[k].address == dto.address
              && t.shops[k].imageUrl == (if dto.imageUrl.Some? then dto.imageUrl else s.shops[k].imageUrl)
              && (forall i :: 0 <= i < |s.shops| && i != k ==> t.shops[i] == s.shops[i])
              && t.(shops := s.shops) == s
              && OwnerShop(t, ownerId) == Ok(ShopViewOf(t.shops[k]))
  {
    if ShopUpdated(s, ownerId, dto).Ok? {
      var t := ShopUpdated(s, ownerId, dto).value;
      var k := ShopIndexOfOwner(s.shops, ownerId).value;
      assert forall i :: 0 <= i < |s.shops| ==> t.shops[i].ownerId == s.shops[i].ownerId;
      assert ShopIndexOfOwner(t.shops, ownerId) == Some(k);
    }
  }

  lemma ShopUpdatedKeepsValid(s: Store, ownerId: Id, dto: ShopRequest)
    requires Valid(s) && ShopUpdated(s, ownerId, dto).Ok?
    ensures Valid(ShopUpdated(s, ownerId, dto).value)
  {
    var t := ShopUpdated(s, ownerId, dto).value;
    assert forall i :: 0 <= i < |s.shops| ==> t.shops[i].id == s.shops[i].id;
  }

  /** `updateShop(ownerId, dto)`. */
  method UpdateShop(db: Database, ownerId: Id, dto: ShopRequest) returns (r: Outcome)
    modifies db
    ensures var expected := ShopUpdated(old(db.Snapshot()), ownerId, dto);
            && (r.Pass? <==> expected.Ok?)
            && (r.Pass? ==> db.Snapshot() == expected.value)
            && (r.Fail? ==> r == Fail(expected.error) && db.Snapshot() == old(db.Snapshot()))
  {
    var k := ShopIndexOfOwner(db.shops, ownerId);
    if k.None? {
      return Fail(ResourceNotFound(ShopNotFoundForOwner));
    }
    var shop := db.shops[k.value];
    shop := shop.(shopName := dto.shopName, description := dto.description, address := dto.address);
    if dto.imageUrl.Some? {
      shop := shop.(imageUrl := dto.imageUrl);
    }
    db.shops := db.shops[k.value := shop];
    r := Pass;
  }
}
