/** `CartService`: reading the cart, adding a menu item to it, removing a
    line, and recomputing the stored total. The functions give the effect
    of each call on the store; the methods perform it step by step on the
    `Database` and are proved to have that effect. */
module CartService {
  import opened Common
  import opened Entities
  import opened Repositories

  const CartNotFound := "Cart not found for user"
  const MenuItemNotFound := "Menu item not found"
  const DifferentShops := "Cannot add items from different shops to cart"
  const CartItemNotFound := "Cart item not found"
  const NotUsersLine := "Cart item does not belong to user's cart"

  /** `AddToCartDTO`. */
  datatype AddToCart = AddToCart(menuItemId: Id, quantity: int)

  /** The bean-validation constraint `@Min(1)` on the quantity, checked
      before the service is called. */
  predicate ValidRequest(dto: AddToCart) {
    dto.quantity >= 1
  }

  /** `CartItemDTO`. */
  datatype CartItemView = CartItemView(id: Id, menuItemId: Id, menuItemName: string,
                                       price: Cents, quantity: int)

  /** `CartDTO`. */
  datatype CartView = CartView(id: Id, shopId: Option<Id>, shopName: Option<string>,
                               items: seq<CartItemView>, totalAmount: Cents)

  /** Number of units over the lines. */
  function TotalQuantity(lines: seq<CartItem>): int {
    if lines == [] then 0 else TotalQuantity(lines[..|lines| - 1]) + lines[|lines| - 1].quantity
  }

  /** The sum `recalculateCartTotal` computes: the current price of each
      line's menu item times its quantity, added up; `None` when a line's
      menu item no longer exists (the loop throws "Menu item not found"). */
  function CartTotal(lines: seq<CartItem>, menu: seq<MenuItem>): (r: Option<Cents>)
    ensures r.Some? <==> forall i :: 0 <= i < |lines| ==> FindMenuItem(menu, lines[i].menuItemId).Some?
    ensures lines == [] ==> r == Some(0)
  {
    if lines == [] then Some(0)
    else
      var last := lines[|lines| - 1];
      match CartTotal(lines[..|lines| - 1], menu)
      case None => None
      case Some(t) =>
        match FindMenuItem(menu, last.menuItemId)
        case None => None
        case Some(m) => Some(t + m.price * last.quantity)
  }

  /** `recalculateCartTotal(cart)` for the cart in row `k`: only that cart's
      stored total changes, and it becomes the sum over the cart's lines. */
  function Recalculated(s: Store, k: nat): (r: Result<Store>)
    requires k < |s.carts|
    ensures r.Ok? <==> CartTotal(LinesOf(s.cartItems, s.carts[k].id), s.menuItems).Some?
    ensures r.Err? ==> r.error == ResourceNotFound(MenuItemNotFound)
    ensures r.Ok? ==> |r.value.carts| == |s.carts| &&
                      r.value.carts[k].totalAmount ==
                        CartTotal(LinesOf(s.cartItems, s.carts[k].id), s.menuItems).value &&
                      r.value.carts[k].(totalAmount := s.carts[k].totalAmount) == s.carts[k] &&
                      (forall i :: 0 <= i < |s.carts| && i != k ==> r.value.carts[i] == s.carts[i]) &&
                      r.value.(carts := s.carts) == s
  {
    match CartTotal(LinesOf(s.cartItems, s.carts[k].id), s.menuItems)
    case None => Err(ResourceNotFound(MenuItemNotFound))
    case Some(t) => Ok(s.(carts := s.carts[k := s.carts[k].(totalAmount := t)]))
  }

  /** The cart takes the shop of its first item: `shopId` is set only while null. */
  function AdoptShop(cart: Cart, shopId: Id): Cart {
    if cart.shopId.None? then cart.(shopId := Some(shopId)) else cart
  }

  /** The line step of `addItemToCart`: the quantity is added to the cart's
      existing line for the item, or a new line is inserted. */
  function MergeLine(s: Store, cartId: Id, menuItemId: Id, quantity: int): Store {
    match LineIndexFor(s.cartItems, cartId, menuItemId)
    case Some(j) =>
      var line := s.cartItems[j];
      s.(cartItems := s.cartItems[j := line.(quantity := line.quantity + quantity)])
    case None =>
      s.(cartItems := s.cartItems + [CartItem(s.nextId, cartId, menuItemId, quantity)],
         nextId := s.nextId + 1)
  }

  /** The store after `addItemToCart(userId, dto)`, or the exception. */
  function AddItem(s: Store, userId: Id, dto: AddToCart): Result<Store> {
    match CartIndexOfUser(s.carts, userId)
    case None => Err(ResourceNotFound(CartNotFound))
    case Some(k) =>
      var cart := s.carts[k];
      match FindMenuItem(s.menuItems, dto.menuItemId)
      case None => Err(ResourceNotFound(MenuItemNotFound))
      case Some(item) =>
        if cart.shopId.Some? && cart.shopId.value != item.shopId then
          Err(BusinessRule(DifferentShops))
        else
          var s1 := s.(carts := s.carts[k := AdoptShop(cart, item.shopId)]);
          Recalculated(MergeLine(s1, cart.id, dto.menuItemId, dto.quantity), k)
  }

  /** The table without row `j` (`cartItemRepository.delete`). */
  function DeleteRow(lines: seq<CartItem>, j: nat): (r: seq<CartItem>)
    requires j < |lines|
    ensures |r| == |lines| - 1
    ensures forall i :: 0 <= i < |r| ==> r[i] == lines[if i < j then i else i + 1]
  {
    lines[..j] + lines[j + 1..]
  }

  /** The last step of `removeItemFromCart`: the cart forgets its shop once
      it has no line left. */
  function ClearShopIfEmpty(s: Store, k: nat): Store
    requires k < |s.carts|
  {
    if LinesOf(s.cartItems, s.carts[k].id) == [] then s.(carts := s.carts[k := s.carts[k].(shopId := None)])
    else s
  }

  /** The store after `removeItemFromCart(userId, cartItemId)`, or the exception. */
  function RemoveItem(s: Store, userId: Id, cartItemId: Id): Result<Store> {
    match CartIndexOfUser(s.carts, userId)
    case None => Err(ResourceNotFound(CartNotFound))
    case Some(k) =>
      match CartItemIndex(s.cartItems, cartItemId)
      case None => Err(ResourceNotFound(CartItemNotFound))
      case Some(j) =>
        if s.cartItems[j].cartId != s.carts[k].id then Err(BusinessRule(NotUsersLine))
        else
          match Recalculated(s.(cartItems := DeleteRow(s.cartItems, j)), k)
          case Err(e) => Err(e)
          case Ok(s2) => Ok(ClearShopIfEmpty(s2, k))
  }

  /** The line of `convertToCartItemDTO`, with the menu item's current name
      and price. */
  function LineView(l: CartItem, menu: seq<MenuItem>): (r: Result<CartItemView>)
    ensures r.Ok? <==> FindMenuItem(menu, l.menuItemId).Some?
    ensures r.Err? ==> r.error == ResourceNotFound(MenuItemNotFound)
    ensures r.Ok? ==> r.value.id == l.id && r.value.menuItemId == l.menuItemId &&
                      r.value.quantity == l.quantity &&
                      exists m :: m in menu && m.id == l.menuItemId &&
                                  r.value.menuItemName == m.name && r.value.price == m.price
  {
    match FindMenuItem(menu, l.menuItemId)
    case None => Err(ResourceNotFound(MenuItemNotFound))
    case Some(m) => Ok(CartItemView(l.id, l.menuItemId, m.name, m.price, l.quantity))
  }

  /** The lines mapped through `LineView`; the first missing menu item aborts. */
  function LineViews(lines: seq<CartItem>, menu: seq<MenuItem>): (r: Result<seq<CartItemView>>)
    ensures r.Ok? <==> forall i :: 0 <= i < |lines| ==> FindMenuItem(menu, lines[i].menuItemId).Some?
    ensures r.Ok? ==> |r.value| == |lines| &&
                      forall i :: 0 <= i < |lines| ==> LineView(lines[i], menu) == Ok(r.value[i])
  {
    if lines == [] then Ok([])
    else
      match LineViews(lines[..|lines| - 1], menu)
      case Err(e) => Err(e)
      case Ok(front) =>
        match LineView(lines[|lines| - 1], menu)
        case Err(e) => Err(e)
        case Ok(v) => Ok(front + [v])
  }

  /** `getCart(userId)`: the cart's lines in table order, its shop's name
      when the shop row exists, and the stored total. */
  function GetCart(s: Store, userId: Id): (r: Result<CartView>)
    ensures CartIndexOfUser(s.carts, userId).None? ==> r == Err(ResourceNotFound(CartNotFound))
    ensures CartIndexOfUser(s.carts, userId).Some? ==>
              var c := s.carts[CartIndexOfUser(s.carts, userId).value];
              && (r.Ok? <==> LineViews(LinesOf(s.cartItems, c.id), s.menuItems).Ok?)
              && (r.Err? ==> r == Err(LineViews(LinesOf(s.cartItems, c.id), s.menuItems).error))
    ensures r.Ok? ==> var c := s.carts[CartIndexOfUser(s.carts, userId).value];
                      && r.value.id == c.id && r.value.shopId == c.shopId
                      && r.value.totalAmount == c.totalAmount
                      && LineViews(LinesOf(s.cartItems, c.id), s.menuItems) == Ok(r.value.items)
                      && (r.value.shopName.Some? <==>
                            c.shopId.Some? && exists sh :: sh in s.shops && sh.id == c.shopId.value)
                      && (r.value.shopName.Some? ==>
                            exists sh :: sh in s.shops && sh.id == c.shopId.value &&
                                         sh.shopName == r.value.shopName.value)
  {
    match CartIndexOfUser(s.carts, userId)
    case None => Err(ResourceNotFound(CartNotFound))
    case Some(k) =>
      var c := s.carts[k];
      match LineViews(LinesOf(s.cartItems, c.id), s.menuItems)
      case Err(e) => Err(e)
      case Ok(items) =>
        var shopName :=
          if c.shopId.None? then None
          else match FindShop(s.shops, c.shopId.value)
            case None => None
            case Some(sh) => Some(sh.shopName);
        Ok(CartView(c.id, c.shopId, shopName, items, c.totalAmount))
  }

  /** What the view's lines cost at the prices they show. */
  function ViewTotal(items: seq<CartItemView>): Cents {
    if items == [] then 0
    else ViewTotal(items[..|items| - 1]) + items[|items| - 1].price * items[|items| - 1].quantity
  }

  // ---- properties of the cart operations ------------------------------

  lemma {:induction false} TotalQuantityAppend(a: seq<CartItem>, b: seq<CartItem>)
    ensures TotalQuantity(a + b) == TotalQuantity(a) + TotalQuantity(b)
  {
    if b != [] {
      assert (a + b)[..|a + b| - 1] == a + b[..|b| - 1];
      TotalQuantityAppend(a, b[..|b| - 1]);
    } else {
      assert a + b == a;
    }
  }

  /** Units in the lines of cart `cartId`, split around row `j`. */
  lemma QuantitySplit(lines: seq<CartItem>, j: nat, cartId: Id)
    requires j < |lines| && lines[j].cartId == cartId
    ensures TotalQuantity(LinesOf(lines, cartId)) ==
            TotalQuantity(LinesOf(lines[..j], cartId)) + lines[j].quantity
            + TotalQuantity(LinesOf(lines[j + 1..], cartId))
  {
    LinesOfSplit(lines, j, cartId);
    TotalQuantityAppend(LinesOf(lines[..j], cartId) + [lines[j]], LinesOf(lines[j + 1..], cartId));
    TotalQuantityAppend(LinesOf(lines[..j], cartId), [lines[j]]);
  }

  /** The line step adds exactly `quantity` units to the cart `cartId`. */
  lemma MergeLineAddsQuantity(s: Store, cartId: Id, menuItemId: Id, quantity: int)
    ensures TotalQuantity(LinesOf(MergeLine(s, cartId, menuItemId, quantity).cartItems, cartId))
            == TotalQuantity(LinesOf(s.cartItems, cartId)) + quantity
  {
    var after := MergeLine(s, cartId, menuItemId, quantity).cartItems;
    match LineIndexFor(s.cartItems, cartId, menuItemId)
    case Some(j) =>
      QuantitySplit(s.cartItems, j, cartId);
      QuantitySplit(after, j, cartId);
      assert after[..j] == s.cartItems[..j] && after[j + 1..] == s.cartItems[j + 1..];
    case None =>
      var added := CartItem(s.nextId, cartId, menuItemId, quantity);
      LinesOfAppend(s.cartItems, [added], cartId);
      assert LinesOf([added], cartId) == [added];
      TotalQuantityAppend(LinesOf(s.cartItems, cartId), [added]);
  }

  /** What a successful `addItemToCart` did: the cart, the item, and the steps. */
  lemma AddItemSteps(s: Store, userId: Id, dto: AddToCart) returns (k: nat, item: MenuItem)
    requires AddItem(s, userId, dto).Ok?
    ensures CartIndexOfUser(s.carts, userId) == Some(k)
    ensures FindMenuItem(s.menuItems, dto.menuItemId) == Some(item)
    ensures s.carts[k].shopId.None? || s.carts[k].shopId == Some(item.shopId)
    ensures Recalculated(MergeLine(s.(carts := s.carts[k := AdoptShop(s.carts[k], item.shopId)]),
                                   s.carts[k].id, dto.menuItemId, dto.quantity), k)
            == AddItem(s, userId, dto)
  {
    k := CartIndexOfUser(s.carts, userId).value;
    item := FindMenuItem(s.menuItems, dto.menuItemId).value;
  }

  /** A successful add puts exactly `dto.quantity` more units in the user's
      cart, whether it merges into an existing line or adds a new one. */
  lemma AddItemAddsQuantity(s: Store, userId: Id, dto: AddToCart)
    requires AddItem(s, userId, dto).Ok?
    ensures var c := s.carts[CartIndexOfUser(s.carts, userId).value].id;
            TotalQuantity(LinesOf(AddItem(s, userId, dto).value.cartItems, c))
            == TotalQuantity(LinesOf(s.cartItems, c)) + dto.quantity
  {
    var k, item := AddItemSteps(s, userId, dto);
    var s1 := s.(carts := s.carts[k := AdoptShop(s.carts[k], item.shopId)]);
    MergeLineAddsQuantity(s1, s.carts[k].id, dto.menuItemId, dto.quantity);
  }

  // ---- the invariant is preserved -------------------------------------

  /** Recomputing a cart's total touches no field the invariant reads. */
  lemma RecalculatedKeepsValid(s: Store, k: nat)
    requires Valid(s) && k < |s.carts| && Recalculated(s, k).Ok?
    ensures Valid(Recalculated(s, k).value)
  {
    var t := Recalculated(s, k).value;
    assert forall i :: 0 <= i < |s.carts| ==>
      t.carts[i].id == s.carts[i].id && t.carts[i].userId == s.carts[i].userId &&
      t.carts[i].shopId == s.carts[i].shopId;
    forall c | c in t.carts
      ensures exists d :: d in s.carts && d.id == c.id && d.shopId == c.shopId
    {
      var i :| 0 <= i < |t.carts| && t.carts[i] == c;
      assert s.carts[i] in s.carts;
    }
  }

  /** The line step keeps every line's key, cart and menu item, and gives
      cart `cartId` a line for `menuItemId`; no other cart's lines change. */
  lemma MergeLineLines(s: Store, cartId: Id, menuItemId: Id, quantity: int)
    ensures var t := MergeLine(s, cartId, menuItemId, quantity);
            && t.(cartItems := s.cartItems, nextId := s.nextId) == s
            && t.nextId >= s.nextId
            && |s.cartItems| <= |t.cartItems| <= |s.cartItems| + 1
            && (forall i :: 0 <= i < |s.cartItems| ==>
                  t.cartItems[i].(quantity := s.cartItems[i].quantity) == s.cartItems[i] &&
                  t.cartItems[i].quantity >= s.cartItems[i].quantity + (if quantity >= 0 then 0 else quantity))
            && (|t.cartItems| > |s.cartItems| ==>
                  t.cartItems[|s.cartItems|] == CartItem(s.nextId, cartId, menuItemId, quantity) &&
                  t.nextId == s.nextId + 1 &&
                  forall i :: 0 <= i < |s.cartItems| ==>
                    !(s.cartItems[i].cartId == cartId && s.cartItems[i].menuItemId == menuItemId))
            && (exists i :: 0 <= i < |t.cartItems| && t.cartItems[i].cartId == cartId &&
                  t.cartItems[i].menuItemId == menuItemId)
            && (forall other :: other != cartId ==>
                  LinesOf(t.cartItems, other) == LinesOf(s.cartItems, other))
  {
    var t := MergeLine(s, cartId, menuItemId, quantity);
    match LineIndexFor(s.cartItems, cartId, menuItemId)
    case Some(j) =>
      forall other | other != cartId
        ensures LinesOf(t.cartItems, other) == LinesOf(s.cartItems, other)
      {
        LinesOfSplit(s.cartItems, j, other);
        LinesOfSplit(t.cartItems, j, other);
        assert t.cartItems[..j] == s.cartItems[..j] && t.cartItems[j + 1..] == s.cartItems[j + 1..];
      }
    case None =>
      var added := CartItem(s.nextId, cartId, menuItemId, quantity);
      assert t.cartItems[|s.cartItems|] == added;
      forall other | other != cartId
        ensures LinesOf(t.cartItems, other) == LinesOf(s.cartItems, other)
      {
        LinesOfAppend(s.cartItems, [added], other);
        assert LinesOf([added], other) == [];
        assert s.cartItems + [] == s.cartItems;
      }
  }

  /** The store after the first two steps of a successful add. */
  function Merged(s: Store, k: nat, item: MenuItem, quantity: int): Store
    requires k < |s.carts|
  {
    MergeLine(s.(carts := s.carts[k := AdoptShop(s.carts[k], item.shopId)]),
              s.carts[k].id, item.id, quantity)
  }

  lemma MergedLineKeys(s: Store, k: nat, item: MenuItem, quantity: int)
    requires Valid(s) && k < |s.carts|
    ensures LineKeys(Merged(s, k, item, quantity).cartItems, Merged(s, k, item, quantity).nextId)
  {
    var cart := s.carts[k];
    var s1 := s.(carts := s.carts[k := AdoptShop(cart, item.shopId)]);
    var t := Merged(s, k, item, quantity);
    MergeLineLines(s1, cart.id, item.id, quantity);
    var n := |s.cartItems|;
    forall i, j | 0 <= i < j < |t.cartItems| ensures t.cartItems[i].id != t.cartItems[j].id {
      if j == n {
        assert s.cartItems[i].id < s.nextId;
      }
    }
    assert cart in s.carts;
    forall i | 0 <= i < |t.cartItems| ensures t.cartItems[i].id < t.nextId && t.cartItems[i].cartId < t.nextId {
      if i < n {
        assert t.cartItems[i].cartId == s.cartItems[i].cartId && t.cartItems[i].id == s.cartItems[i].id;
      }
    }
  }

  lemma MergedCartKeys(s: Store, k: nat, item: MenuItem, quantity: int)
    requires CartKeys(s.carts, s.nextId) && k < |s.carts|
    ensures CartKeys(Merged(s, k, item, quantity).carts, Merged(s, k, item, quantity).nextId)
  {
    var s1 := s.(carts := s.carts[k := AdoptShop(s.carts[k], item.shopId)]);
    var t := Merged(s, k, item, quantity);
    MergeLineLines(s1, s.carts[k].id, item.id, quantity);
    assert forall i :: 0 <= i < |s.carts| ==> t.carts[i].id == s.carts[i].id && t.carts[i].userId == s.carts[i].userId;
  }

  lemma MergedLineRules(s: Store, k: nat, item: MenuItem, quantity: int)
    requires OneLinePerItem(s.cartItems) && PositiveQuantities(s.cartItems) && k < |s.carts| && quantity >= 1
    ensures OneLinePerItem(Merged(s, k, item, quantity).cartItems)
    ensures PositiveQuantities(Merged(s, k, item, quantity).cartItems)
  {
    var s1 := s.(carts := s.carts[k := AdoptShop(s.carts[k], item.shopId)]);
    MergeLineLines(s1, s.carts[k].id, item.id, quantity);
  }

  lemma MergedKeepsKeys(s: Store, k: nat, item: MenuItem, quantity: int)
    requires Valid(s) && k < |s.carts| && quantity >= 1
    ensures KeysFresh(Merged(s, k, item, quantity))
    ensures OneLinePerItem(Merged(s, k, item, quantity).cartItems)
    ensures PositiveQuantities(Merged(s, k, item, quantity).cartItems)
  {
    var s1 := s.(carts := s.carts[k := AdoptShop(s.carts[k], item.shopId)]);
    var t := Merged(s, k, item, quantity);
    MergeLineLines(s1, s.carts[k].id, item.id, quantity);
    MergedLineKeys(s, k, item, quantity);
    MergedCartKeys(s, k, item, quantity);
    MergedLineRules(s, k, item, quantity);
    KeysGrow(s, t.nextId);
  }

  lemma MergedSingleShop(s: Store, k: nat, item: MenuItem, quantity: int)
    requires Valid(s) && k < |s.carts| && item in s.menuItems
    requires s.carts[k].shopId.None? || s.carts[k].shopId == Some(item.shopId)
    ensures SingleShop(Merged(s, k, item, quantity))
  {
    var cart := s.carts[k];
    var s1 := s.(carts := s.carts[k := AdoptShop(cart, item.shopId)]);
    var t := Merged(s, k, item, quantity);
    MergeLineLines(s1, cart.id, item.id, quantity);
    var n := |s.cartItems|;
    forall c, l | c in t.carts && l in t.cartItems && l.cartId == c.id
      ensures ItemOfShop(t.menuItems, l.menuItemId, c.shopId)
    {
      var ci :| 0 <= ci < |t.carts| && t.carts[ci] == c;
      var li :| 0 <= li < |t.cartItems| && t.cartItems[li] == l;
      if li < n {
        var prior := s.cartItems[li];
        assert prior in s.cartItems && prior.cartId == l.cartId && prior.menuItemId == l.menuItemId;
        if ci != k {
          assert s.carts[ci] in s.carts;
        } else {
          assert cart in s.carts;
          assert prior in LinesOf(s.cartItems, cart.id);
          assert ItemOfShop(s.menuItems, l.menuItemId, cart.shopId);
        }
      } else {
        assert t.cartItems[n].cartId == cart.id;
        if ci != k {
          assert s.carts[ci].id != s.carts[k].id;
        }
      }
    }
  }

  lemma MergedShopIffLines(s: Store, k: nat, item: MenuItem, quantity: int)
    requires Valid(s) && k < |s.carts|
    ensures ShopIffLines(Merged(s, k, item, quantity))
  {
    var cart := s.carts[k];
    var s1 := s.(carts := s.carts[k := AdoptShop(cart, item.shopId)]);
    var t := Merged(s, k, item, quantity);
    MergeLineLines(s1, cart.id, item.id, quantity);
    forall c | c in t.carts
      ensures c.shopId.None? <==> LinesOf(t.cartItems, c.id) == []
    {
      var ci :| 0 <= ci < |t.carts| && t.carts[ci] == c;
      if ci == k {
        var li :| 0 <= li < |t.cartItems| && t.cartItems[li].cartId == cart.id &&
                  t.cartItems[li].menuItemId == item.id;
        assert t.cartItems[li] in LinesOf(t.cartItems, c.id);
      } else {
        assert s.carts[ci] in s.carts;
        assert c.id != cart.id;
      }
    }
  }

  /** A successful add keeps the invariant: keys stay unique, a cart keeps
      one line per item, all of one shop, and has a shop iff it has lines. */
  lemma AddItemKeepsValid(s: Store, userId: Id, dto: AddToCart)
    requires Valid(s) && ValidRequest(dto) && AddItem(s, userId, dto).Ok?
    ensures Valid(AddItem(s, userId, dto).value)
  {
    var k, item := AddItemSteps(s, userId, dto);
    MergedKeepsKeys(s, k, item, dto.quantity);
    MergedSingleShop(s, k, item, dto.quantity);
    MergedShopIffLines(s, k, item, dto.quantity);
    RecalculatedKeepsValid(Merged(s, k, item, dto.quantity), k);
  }

  /** Under the invariant every line of a cart names an existing menu item,
      so the cart's total can always be computed. */
  lemma TotalDefined(s: Store, k: nat)
    requires SingleShop(s) && k < |s.carts|
    ensures CartTotal(LinesOf(s.cartItems, s.carts[k].id), s.menuItems).Some?
    ensures LineViews(LinesOf(s.cartItems, s.carts[k].id), s.menuItems).Ok?
  {
    var lines := LinesOf(s.cartItems, s.carts[k].id);
    forall i | 0 <= i < |lines| ensures FindMenuItem(s.menuItems, lines[i].menuItemId).Some? {
      assert s.carts[k] in s.carts && lines[i] in s.cartItems;
      var m :| m in s.menuItems && m.id == lines[i].menuItemId && s.carts[k].shopId == Some(m.shopId);
    }
  }

  /** `addItemToCart` fails exactly in its three checks, in their order;
      on a store that satisfies the invariant nothing else can fail. */
  lemma AddItemOutcome(s: Store, userId: Id, dto: AddToCart)
    ensures CartIndexOfUser(s.carts, userId).None? ==>
              AddItem(s, userId, dto) == Err(ResourceNotFound(CartNotFound))
    ensures CartIndexOfUser(s.carts, userId).Some? && FindMenuItem(s.menuItems, dto.menuItemId).None? ==>
              AddItem(s, userId, dto) == Err(ResourceNotFound(MenuItemNotFound))
    ensures CartIndexOfUser(s.carts, userId).Some? && FindMenuItem(s.menuItems, dto.menuItemId).Some? ==>
              var shop := s.carts[CartIndexOfUser(s.carts, userId).value].shopId;
              (shop.Some? && shop.value != FindMenuItem(s.menuItems, dto.menuItemId).value.shopId ==>
                 AddItem(s, userId, dto) == Err(BusinessRule(DifferentShops))) &&
              (Valid(s) && ValidRequest(dto) &&
               (shop.None? || shop.value == FindMenuItem(s.menuItems, dto.menuItemId).value.shopId) ==>
                 AddItem(s, userId, dto).Ok?)
  {
    if CartIndexOfUser(s.carts, userId).Some? && FindMenuItem(s.menuItems, dto.menuItemId).Some? {
      var k := CartIndexOfUser(s.carts, userId).value;
      var item := FindMenuItem(s.menuItems, dto.menuItemId).value;
      var shop := s.carts[k].shopId;
      if Valid(s) && ValidRequest(dto) && (shop.None? || shop.value == item.shopId) {
        MergedSingleShop(s, k, item, dto.quantity);
        MergeLineLines(s.(carts := s.carts[k := AdoptShop(s.carts[k], item.shopId)]),
                       s.carts[k].id, item.id, dto.quantity);
        TotalDefined(Merged(s, k, item, dto.quantity), k);
      }
    }
  }

  /** After a successful add the cart belongs to the item's shop, the stored
      total is the sum over its lines at current prices, and every other
      cart, the menu and the order tables are as they were. */
  lemma AddItemEffect(s: Store, userId: Id, dto: AddToCart)
    requires AddItem(s, userId, dto).Ok?
    ensures var t := AddItem(s, userId, dto).value;
            var k := CartIndexOfUser(s.carts, userId).value;
            var item := FindMenuItem(s.menuItems, dto.menuItemId).value;
            && |t.carts| == |s.carts|
            && t.carts[k].id == s.carts[k].id && t.carts[k].userId == s.carts[k].userId
            && t.carts[k].shopId == Some(item.shopId)
            && Some(t.carts[k].totalAmount) == CartTotal(LinesOf(t.cartItems, s.carts[k].id), t.menuItems)
            && (forall i :: 0 <= i < |s.carts| && i != k ==> t.carts[i] == s.carts[i])
            && t.menuItems == s.menuItems && t.shops == s.shops && t.users == s.users
            && t.orders == s.orders && t.orderItems == s.orderItems
  {
    var k, item := AddItemSteps(s, userId, dto);
    MergeLineLines(s.(carts := s.carts[k := AdoptShop(s.carts[k], item.shopId)]),
                   s.carts[k].id, item.id, dto.quantity);
  }

  /** An add merges into the cart's line for the item when there is one
      (the table keeps its size and that line gains the quantity) and
      inserts one new line otherwise. */
  lemma AddItemMerges(s: Store, userId: Id, dto: AddToCart)
    requires AddItem(s, userId, dto).Ok?
    ensures var t := AddItem(s, userId, dto).value;
            var c := s.carts[CartIndexOfUser(s.carts, userId).value].id;
            match LineIndexFor(s.cartItems, c, dto.menuItemId)
            case Some(j) =>
              t.cartItems == s.cartItems[j := s.cartItems[j].(quantity := s.cartItems[j].quantity + dto.quantity)]
              && t.nextId == s.nextId
            case None =>
              t.cartItems == s.cartItems + [CartItem(s.nextId, c, dto.menuItemId, dto.quantity)]
              && t.nextId == s.nextId + 1
  {
    var k, item := AddItemSteps(s, userId, dto);
  }

  /** Deleting a row of cart `cartId` leaves every other cart's lines as
      they were and takes that row's units out of the cart. */
  lemma DeleteRowLines(lines: seq<CartItem>, j: nat)
    requires j < |lines|
    ensures forall other :: other != lines[j].cartId ==>
              LinesOf(DeleteRow(lines, j), other) == LinesOf(lines, other)
    ensures TotalQuantity(LinesOf(DeleteRow(lines, j), lines[j].cartId)) ==
            TotalQuantity(LinesOf(lines, lines[j].cartId)) - lines[j].quantity
  {
    var cid := lines[j].cartId;
    forall other | other != cid
      ensures LinesOf(DeleteRow(lines, j), other) == LinesOf(lines, other)
    {
      LinesOfSplit(lines, j, other);
      LinesOfAppend(lines[..j], lines[j + 1..], other);
    }
    QuantitySplit(lines, j, cid);
    LinesOfAppend(lines[..j], lines[j + 1..], cid);
    TotalQuantityAppend(LinesOf(lines[..j], cid), LinesOf(lines[j + 1..], cid));
  }

  /** Deleting a row leaves rows of the table, none with the deleted key. */
  lemma DeleteRowMembers(lines: seq<CartItem>, j: nat, next: Id)
    requires j < |lines| && LineKeys(lines, next)
    ensures forall i :: 0 <= i < |DeleteRow(lines, j)| ==>
              DeleteRow(lines, j)[i] in lines && DeleteRow(lines, j)[i].id != lines[j].id
  {
    var r := DeleteRow(lines, j);
    forall i | 0 <= i < |r| ensures r[i] in lines && r[i].id != lines[j].id {
      var src := if i < j then i else i + 1;
      assert r[i] == lines[src];
      assert src != j;
    }
  }

  /** What a successful `removeItemFromCart` did. */
  lemma RemoveItemSteps(s: Store, userId: Id, cartItemId: Id) returns (k: nat, j: nat)
    requires RemoveItem(s, userId, cartItemId).Ok?
    ensures CartIndexOfUser(s.carts, userId) == Some(k)
    ensures CartItemIndex(s.cartItems, cartItemId) == Some(j)
    ensures s.cartItems[j].cartId == s.carts[k].id
    ensures Recalculated(s.(cartItems := DeleteRow(s.cartItems, j)), k).Ok?
    ensures RemoveItem(s, userId, cartItemId) ==
            Ok(ClearShopIfEmpty(Recalculated(s.(cartItems := DeleteRow(s.cartItems, j)), k).value, k))
  {
    k := CartIndexOfUser(s.carts, userId).value;
    j := CartItemIndex(s.cartItems, cartItemId).value;
  }

  /** `removeItemFromCart` fails exactly in its three checks, in their
      order; on a store that satisfies the invariant nothing else can fail. */
  lemma RemoveItemOutcome(s: Store, userId: Id, cartItemId: Id)
    ensures CartIndexOfUser(s.carts, userId).None? ==>
              RemoveItem(s, userId, cartItemId) == Err(ResourceNotFound(CartNotFound))
    ensures CartIndexOfUser(s.carts, userId).Some? && CartItemIndex(s.cartItems, cartItemId).None? ==>
              RemoveItem(s, userId, cartItemId) == Err(ResourceNotFound(CartItemNotFound))
    ensures CartIndexOfUser(s.carts, userId).Some? && CartItemIndex(s.cartItems, cartItemId).Some? ==>
              var c := s.carts[CartIndexOfUser(s.carts, userId).value];
              var l := s.cartItems[CartItemIndex(s.cartItems, cartItemId).value];
              (l.cartId != c.id ==> RemoveItem(s, userId, cartItemId) == Err(BusinessRule(NotUsersLine))) &&
              (Valid(s) && l.cartId == c.id ==> RemoveItem(s, userId, cartItemId).Ok?)
  {
    if CartIndexOfUser(s.carts, userId).Some? && CartItemIndex(s.cartItems, cartItemId).Some? {
      var k := CartIndexOfUser(s.carts, userId).value;
      var j := CartItemIndex(s.cartItems, cartItemId).value;
      if Valid(s) && s.cartItems[j].cartId == s.carts[k].id {
        var s1 := s.(cartItems := DeleteRow(s.cartItems, j));
        forall c, l | c in s1.carts && l in s1.cartItems && l.cartId == c.id
          ensures ItemOfShop(s1.menuItems, l.menuItemId, c.shopId)
        {
          var li :| 0 <= li < |s1.cartItems| && s1.cartItems[li] == l;
          assert s.cartItems[if li < j then li else li + 1] in s.cartItems;
        }
        TotalDefined(s1, k);
      }
    }
  }

  /** The cart-line table after a successful removal: the named line is
      gone, its units leave the cart, and no other cart changes its lines. */
  lemma RemoveItemLines(s: Store, userId: Id, cartItemId: Id)
    requires LineKeys(s.cartItems, s.nextId) && RemoveItem(s, userId, cartItemId).Ok?
    ensures var t := RemoveItem(s, userId, cartItemId).value;
            var c := s.carts[CartIndexOfUser(s.carts, userId).value].id;
            var j := CartItemIndex(s.cartItems, cartItemId).value;
            var removed := s.cartItems[j];
            && removed.id == cartItemId
            && t.cartItems == s.cartItems[..j] + s.cartItems[j + 1..]
            && |t.cartItems| == |s.cartItems| - 1
            && (forall i :: 0 <= i < |t.cartItems| ==> t.cartItems[i] in s.cartItems && t.cartItems[i].id != cartItemId)
            && TotalQuantity(LinesOf(t.cartItems, c)) == TotalQuantity(LinesOf(s.cartItems, c)) - removed.quantity
            && (forall other :: other != c ==> LinesOf(t.cartItems, other) == LinesOf(s.cartItems, other))
  {
    var k, j := RemoveItemSteps(s, userId, cartItemId);
    DeleteRowLines(s.cartItems, j);
    DeleteRowMembers(s.cartItems, j, s.nextId);
  }

  /** The other tables after a successful removal: the cart's stored total
      is recomputed over what is left, and nothing else changes. */
  lemma RemoveItemCarts(s: Store, userId: Id, cartItemId: Id)
    requires RemoveItem(s, userId, cartItemId).Ok?
    ensures var t := RemoveItem(s, userId, cartItemId).value;
            var k := CartIndexOfUser(s.carts, userId).value;
            var c := s.carts[k].id;
            && |t.carts| == |s.carts| && t.carts[k].id == c
            && Some(t.carts[k].totalAmount) == CartTotal(LinesOf(t.cartItems, c), t.menuItems)
            && (forall i :: 0 <= i < |s.carts| && i != k ==> t.carts[i] == s.carts[i])
            && t.menuItems == s.menuItems && t.orders == s.orders && t.orderItems == s.orderItems
  {
    var k, j := RemoveItemSteps(s, userId, cartItemId);
  }

  /** After a removal the cart has a shop exactly when it still has lines:
      the last removal clears the shop, any other keeps it. */
  lemma RemoveItemClearsShop(s: Store, userId: Id, cartItemId: Id)
    requires RemoveItem(s, userId, cartItemId).Ok?
    ensures var t := RemoveItem(s, userId, cartItemId).value;
            var k := CartIndexOfUser(s.carts, userId).value;
            (LinesOf(t.cartItems, s.carts[k].id) == [] ==> t.carts[k].shopId.None?) &&
            (LinesOf(t.cartItems, s.carts[k].id) != [] ==> t.carts[k].shopId == s.carts[k].shopId)
  {
    var k, j := RemoveItemSteps(s, userId, cartItemId);
  }

  /** The tables after a successful removal, as the invariant proofs use them. */
  lemma RemoveItemShape(s: Store, userId: Id, cartItemId: Id) returns (k: nat, j: nat)
    requires RemoveItem(s, userId, cartItemId).Ok?
    ensures CartIndexOfUser(s.carts, userId) == Some(k) && j < |s.cartItems|
    ensures s.cartItems[j].cartId == s.carts[k].id
    ensures var t := RemoveItem(s, userId, cartItemId).value;
            && t.cartItems == DeleteRow(s.cartItems, j)
            && t.menuItems == s.menuItems && t.nextId == s.nextId
            && t.users == s.users && t.shops == s.shops
            && t.orders == s.orders && t.orderItems == s.orderItems
            && |t.carts| == |s.carts|
            && (forall i :: 0 <= i < |s.carts| ==> t.carts[i].id == s.carts[i].id &&
                                                   t.carts[i].userId == s.carts[i].userId)
            && (forall i :: 0 <= i < |s.carts| && i != k ==> t.carts[i] == s.carts[i])
            && (LinesOf(t.cartItems, s.carts[k].id) == [] ==> t.carts[k].shopId.None?)
            && (LinesOf(t.cartItems, s.carts[k].id) != [] ==> t.carts[k].shopId == s.carts[k].shopId)
  {
    k, j := RemoveItemSteps(s, userId, cartItemId);
  }

  /** Deleting a row keeps the cart-line table's keys and rules. */
  lemma DeleteRowKeepsLines(lines: seq<CartItem>, j: nat, next: Id)
    requires j < |lines| && LineKeys(lines, next) && OneLinePerItem(lines) && PositiveQuantities(lines)
    ensures LineKeys(DeleteRow(lines, j), next)
    ensures OneLinePerItem(DeleteRow(lines, j)) && PositiveQuantities(DeleteRow(lines, j))
  {
    var r := DeleteRow(lines, j);
    forall a, b | 0 <= a < b < |r|
      ensures r[a].id != r[b].id
      ensures r[a].cartId == r[b].cartId ==> r[a].menuItemId != r[b].menuItemId
    {
      var a', b' := if a < j then a else a + 1, if b < j then b else b + 1;
      assert r[a] == lines[a'] && r[b] == lines[b'] && a' < b';
    }
  }

  lemma RemoveItemKeepsKeys(s: Store, userId: Id, cartItemId: Id)
    requires Valid(s) && RemoveItem(s, userId, cartItemId).Ok?
    ensures var t := RemoveItem(s, userId, cartItemId).value;
            KeysFresh(t) && OneLinePerItem(t.cartItems) && PositiveQuantities(t.cartItems)
  {
    var k, j := RemoveItemShape(s, userId, cartItemId);
    var t := RemoveItem(s, userId, cartItemId).value;
    DeleteRowKeepsLines(s.cartItems, j, s.nextId);
    assert CartKeys(t.carts, t.nextId) by {
      assert forall i :: 0 <= i < |t.carts| ==> t.carts[i].id == s.carts[i].id && t.carts[i].userId == s.carts[i].userId;
    }
  }

  lemma RemoveItemSingleShop(s: Store, userId: Id, cartItemId: Id)
    requires SingleShop(s) && RemoveItem(s, userId, cartItemId).Ok?
    ensures SingleShop(RemoveItem(s, userId, cartItemId).value)
  {
    var k, j := RemoveItemShape(s, userId, cartItemId);
    var t := RemoveItem(s, userId, cartItemId).value;
    var cid := s.carts[k].id;
    forall i | 0 <= i < |t.cartItems| ensures t.cartItems[i] in s.cartItems {
      assert t.cartItems[i] == s.cartItems[if i < j then i else i + 1];
    }
    forall c, l | c in t.carts && l in t.cartItems && l.cartId == c.id
      ensures ItemOfShop(t.menuItems, l.menuItemId, c.shopId)
    {
      var ci :| 0 <= ci < |t.carts| && t.carts[ci] == c;
      assert l in s.cartItems;
      assert s.carts[ci] in s.carts;
      if ci == k {
        DeleteRowLines(s.cartItems, j);
        assert l in LinesOf(t.cartItems, cid);
      }
    }
  }

  /** After a removal the user's cart has a shop exactly when it has lines. */
  lemma RemoveItemOwnCart(s: Store, userId: Id, cartItemId: Id)
    requires ShopIffLines(s) && RemoveItem(s, userId, cartItemId).Ok?
    ensures var t := RemoveItem(s, userId, cartItemId).value;
            var k := CartIndexOfUser(s.carts, userId).value;
            k < |t.carts| && (t.carts[k].shopId.None? <==> LinesOf(t.cartItems, t.carts[k].id) == [])
  {
    var k, j := RemoveItemShape(s, userId, cartItemId);
    DeleteRowLines(s.cartItems, j);
    var cid := s.carts[k].id;
    assert s.carts[k] in s.carts;
    assert s.cartItems[j] in LinesOf(s.cartItems, cid);
  }

  /** A removal leaves every other cart's shop and lines as they were. */
  lemma RemoveItemOtherCarts(s: Store, userId: Id, cartItemId: Id)
    requires ShopIffLines(s) && CartKeys(s.carts, s.nextId) && RemoveItem(s, userId, cartItemId).Ok?
    ensures var t := RemoveItem(s, userId, cartItemId).value;
            var k := CartIndexOfUser(s.carts, userId).value;
            forall i :: 0 <= i < |t.carts| && i != k ==>
              (t.carts[i].shopId.None? <==> LinesOf(t.cartItems, t.carts[i].id) == [])
  {
    var k, j := RemoveItemShape(s, userId, cartItemId);
    DeleteRowLines(s.cartItems, j);
    var t := RemoveItem(s, userId, cartItemId).value;
    var cid := s.carts[k].id;
    forall i | 0 <= i < |t.carts| && i != k
      ensures t.carts[i].shopId.None? <==> LinesOf(t.cartItems, t.carts[i].id) == []
    {
      var c := s.carts[i];
      assert t.carts[i] == c && c in s.carts;
      assert c.id != cid;
      assert LinesOf(t.cartItems, c.id) == LinesOf(s.cartItems, c.id);
    }
  }

  lemma RemoveItemShopIffLines(s: Store, userId: Id, cartItemId: Id)
    requires ShopIffLines(s) && CartKeys(s.carts, s.nextId) && RemoveItem(s, userId, cartItemId).Ok?
    ensures ShopIffLines(RemoveItem(s, userId, cartItemId).value)
  {
    RemoveItemOwnCart(s, userId, cartItemId);
    RemoveItemOtherCarts(s, userId, cartItemId);
    ShopIffLinesByRow(RemoveItem(s, userId, cartItemId).value);
  }

  /** A successful removal keeps the invariant. */
  lemma RemoveItemKeepsValid(s: Store, userId: Id, cartItemId: Id)
    requires Valid(s) && RemoveItem(s, userId, cartItemId).Ok?
    ensures Valid(RemoveItem(s, userId, cartItemId).value)
  {
    RemoveItemKeepsKeys(s, userId, cartItemId);
    RemoveItemSingleShop(s, userId, cartItemId);
    RemoveItemShopIffLines(s, userId, cartItemId);
  }

  /** The sum `recalculateCartTotal` stores is the sum of price times
      quantity over the lines `getCart` shows. */
  lemma {:induction false} ViewTotalMatches(lines: seq<CartItem>, menu: seq<MenuItem>)
    requires LineViews(lines, menu).Ok?
    ensures CartTotal(lines, menu) == Some(ViewTotal(LineViews(lines, menu).value))
  {
    if lines != [] {
      var front := lines[..|lines| - 1];
      ViewTotalMatches(front, menu);
      var vs := LineViews(lines, menu).value;
      assert vs[..|vs| - 1] == LineViews(front, menu).value;
    }
  }

  /** A table with the same user in every row finds the same cart. */
  lemma CartIndexSameUsers(a: seq<Cart>, b: seq<Cart>, userId: Id)
    requires |a| == |b| && forall i :: 0 <= i < |a| ==> a[i].userId == b[i].userId
    ensures CartIndexOfUser(a, userId) == CartIndexOfUser(b, userId)
  {
  }

  /** After a successful add, `getCart` succeeds and the total it reports
      is what its lines cost at the prices it shows. */
  lemma AddThenGetCart(s: Store, userId: Id, dto: AddToCart)
    requires Valid(s) && ValidRequest(dto) && AddItem(s, userId, dto).Ok?
    ensures GetCart(AddItem(s, userId, dto).value, userId).Ok?
    ensures var v := GetCart(AddItem(s, userId, dto).value, userId).value;
            v.totalAmount == ViewTotal(v.items)
  {
    var t := AddItem(s, userId, dto).value;
    var k := CartIndexOfUser(s.carts, userId).value;
    AddItemEffect(s, userId, dto);
    AddItemKeepsValid(s, userId, dto);
    CartIndexSameUsers(s.carts, t.carts, userId);
    TotalDefined(t, k);
    ViewTotalMatches(LinesOf(t.cartItems, t.carts[k].id), t.menuItems);
  }

  /** After a successful removal, `getCart` succeeds and the total it
      reports is what its remaining lines cost. */
  lemma RemoveThenGetCart(s: Store, userId: Id, cartItemId: Id)
    requires Valid(s) && RemoveItem(s, userId, cartItemId).Ok?
    ensures GetCart(RemoveItem(s, userId, cartItemId).value, userId).Ok?
    ensures var v := GetCart(RemoveItem(s, userId, cartItemId).value, userId).value;
            v.totalAmount == ViewTotal(v.items)
  {
    var t := RemoveItem(s, userId, cartItemId).value;
    var k, j := RemoveItemShape(s, userId, cartItemId);
    RemoveItemCarts(s, userId, cartItemId);
    RemoveItemKeepsValid(s, userId, cartItemId);
    CartIndexSameUsers(s.carts, t.carts, userId);
    TotalDefined(t, k);
    ViewTotalMatches(LinesOf(t.cartItems, t.carts[k].id), t.menuItems);
  }

  // ---- the service methods on the database ----------------------------

  /** A missing menu item in a prefix of the lines leaves the whole sum undefined. */
  lemma {:induction false} CartTotalPrefix(lines: seq<CartItem>, i: nat, menu: seq<MenuItem>)
    requires i < |lines| && CartTotal(lines[..i + 1], menu).None?
    ensures CartTotal(lines, menu).None?
  {
    var prefix := lines[..i + 1];
    var x :| 0 <= x < |prefix| && FindMenuItem(menu, prefix[x].menuItemId).None?;
    assert prefix[x] == lines[x];
  }

  /** One more line of the loop in `recalculateCartTotal`. */
  lemma CartTotalStep(lines: seq<CartItem>, i: nat, menu: seq<MenuItem>, total: Cents)
    requires i < |lines| && CartTotal(lines[..i], menu) == Some(total)
    ensures FindMenuItem(menu, lines[i].menuItemId).None? ==> CartTotal(lines, menu).None?
    ensures FindMenuItem(menu, lines[i].menuItemId).Some? ==>
              CartTotal(lines[..i + 1], menu) ==
                Some(total + FindMenuItem(menu, lines[i].menuItemId).value.price * lines[i].quantity)
  {
    assert lines[..i + 1][..i] == lines[..i];
    if FindMenuItem(menu, lines[i].menuItemId).None? {
      CartTotalPrefix(lines, i, menu);
    }
  }

  /** The loop of `recalculateCartTotal`: price times quantity summed
      over the lines, stopping with `None` at the first line whose menu
      item is gone. */
  method SumLines(lines: seq<CartItem>, menu: seq<MenuItem>) returns (r: Option<Cents>)
    ensures r == CartTotal(lines, menu)
  {
    var total: Cents := 0;
    var i := 0;
    while i < |lines|
      invariant 0 <= i <= |lines|
      invariant CartTotal(lines[..i], menu) == Some(total)
    {
      var found := FindMenuItem(menu, lines[i].menuItemId);
      CartTotalStep(lines, i, menu, total);
      if found.None? {
        return None;
      }
      total := total + found.value.price * lines[i].quantity;
      i := i + 1;
    }
    assert lines[..i] == lines;
    r := Some(total);
  }

  /** `recalculateCartTotal`: sums price times quantity over the cart's
      lines, throwing when a line's menu item is gone; the stored total is
      written only once the sum is complete. */
  method RecalculateCartTotal(db: Database, k: nat) returns (r: Outcome)
    requires k < |db.carts|
    modifies db
    ensures var expected := Recalculated(old(db.Snapshot()), k);
            && (r.Pass? <==> expected.Ok?)
            && (r.Pass? ==> db.Snapshot() == expected.value)
            && (r.Fail? ==> r == Fail(expected.error) && db.Snapshot() == old(db.Snapshot()))
  {
    var lines := LinesOf(db.cartItems, db.carts[k].id);
    var total := SumLines(lines, db.menuItems);
    if total.None? {
      return Fail(ResourceNotFound(MenuItemNotFound));
    }
    db.carts := db.carts[k := db.carts[k].(totalAmount := total.value)];
    r := Pass;
  }

  /** `addItemToCart(userId, dto)` as a transaction: on an exception every
      table is rolled back. */
  method AddItemToCart(db: Database, userId: Id, dto: AddToCart) returns (r: Outcome)
    modifies db
    ensures var expected := AddItem(old(db.Snapshot()), userId, dto);
            && (r.Pass? <==> expected.Ok?)
            && (r.Pass? ==> db.Snapshot() == expected.value)
            && (r.Fail? ==> r == Fail(expected.error) && db.Snapshot() == old(db.Snapshot()))
  {
    var saved := db.Snapshot();
    var k := CartIndexOfUser(db.carts, userId);
    if k.None? {
      return Fail(ResourceNotFound(CartNotFound));
    }
    var cart := db.carts[k.value];
    var item := FindMenuItem(db.menuItems, dto.menuItemId);
    if item.None? {
      return Fail(ResourceNotFound(MenuItemNotFound));
    }
    if cart.shopId.None? {
      db.carts := db.carts[k.value := cart.(shopId := Some(item.value.shopId))];
    } else if cart.shopId.value != item.value.shopId {
      return Fail(BusinessRule(DifferentShops));
    }
    var existing := LineIndexFor(db.cartItems, cart.id, dto.menuItemId);
    if existing.Some? {
      var line := db.cartItems[existing.value];
      db.cartItems := db.cartItems[existing.value := line.(quantity := line.quantity + dto.quantity)];
    } else {
      var id := db.NewId();
      db.cartItems := db.cartItems + [CartItem(id, cart.id, dto.menuItemId, dto.quantity)];
    }
    assert db.Snapshot() == Merged(saved, k.value, item.value, dto.quantity);
    r := RecalculateCartTotal(db, k.value);
    if r.Fail? {
      db.Restore(saved);
    }
  }

  /** `removeItemFromCart(userId, cartItemId)` as a transaction. */
  method RemoveItemFromCart(db: Database, userId: Id, cartItemId: Id) returns (r: Outcome)
    modifies db
    ensures var expected := RemoveItem(old(db.Snapshot()), userId, cartItemId);
            && (r.Pass? <==> expected.Ok?)
            && (r.Pass? ==> db.Snapshot() == expected.value)
            && (r.Fail? ==> r == Fail(expected.error) && db.Snapshot() == old(db.Snapshot()))
  {
    var saved := db.Snapshot();
    var k := CartIndexOfUser(db.carts, userId);
    if k.None? {
      return Fail(ResourceNotFound(CartNotFound));
    }
    var cart := db.carts[k.value];
    var j := CartItemIndex(db.cartItems, cartItemId);
    if j.None? {
      return Fail(ResourceNotFound(CartItemNotFound));
    }
    if db.cartItems[j.value].cartId != cart.id {
      return Fail(BusinessRule(NotUsersLine));
    }
    db.cartItems := db.cartItems[..j.value] + db.cartItems[j.value + 1..];
    r := RecalculateCartTotal(db, k.value);
    if r.Fail? {
      db.Restore(saved);
      return;
    }
    var remaining := LinesOf(db.cartItems, cart.id);
    if remaining == [] {
      db.carts := db.carts[k.value := db.carts[k.value].(shopId := None)];
    }
  }
}
