/** `cart-overlay.js`: the cart badge in the navigation bar and the slide-in
    cart overlay. The DOM is reduced to the state these two classes read
    and write; `localStorage` is the stored auth record and each `fetch` of
    `/api/cart` is the way it ended, both given as inputs. */
module CartOverlay {
  import opened Common
  import opened Text
  import opened Entities
  import opened Utils
  import opened Page
  import CartService

  // ---- CartBadgeManager -------------------------------------------------

  /** The badge after `update(count)`: its text is the count, it is shown
      only for a positive count, and only then is the pop animation
      restarted. */
  function Updated(b: Badge, count: int): Badge {
    Badge(DecimalString(count), count > 0, if count > 0 then b.pops + 1 else b.pops)
  }

  /** `parseInt(badge.textContent) || 0`: the count the badge shows. */
  function Count(b: Badge): int {
    ParseIntOrZero(b.text)
  }

  /** The badge after `increment(amount)`. */
  function Incremented(b: Badge, amount: int): Badge {
    Updated(b, Count(b) + amount)
  }

  /** The badge after `decrement(amount)`. */
  function Decremented(b: Badge, amount: int): Badge {
    Updated(b, AtLeastZero(Count(b) - amount))
  }

  /** `Math.max(0, n)`. */
  function AtLeastZero(n: int): nat {
    if n < 0 then 0 else n
  }

  /** After `update(count)` the badge reads back as `count`; it is
      displayed exactly when that count is positive, and the pop animation
      is restarted exactly then. */
  lemma UpdatedCount(b: Badge, count: int)
    ensures Count(Updated(b, count)) == count
    ensures Updated(b, count).shown <==> count > 0
    ensures Updated(b, count).pops > b.pops <==> count > 0
  {
    ParseDecimalString(count);
  }

  /** `increment(amount)` adds `amount` to the count the badge showed. */
  lemma IncrementedCount(b: Badge, amount: int)
    ensures Count(Incremented(b, amount)) == Count(b) + amount
  {
    UpdatedCount(b, Count(b) + amount);
  }

  /** `decrement(amount)` takes `amount` off the count but never below
      zero, and hides the badge exactly when nothing is left. */
  lemma DecrementedCount(b: Badge, amount: int)
    ensures Count(Decremented(b, amount)) >= 0
    ensures Count(Decremented(b, amount)) == if Count(b) - amount < 0 then 0 else Count(b) - amount
    ensures !Decremented(b, amount).shown <==> Count(b) <= amount
  {
    UpdatedCount(b, AtLeastZero(Count(b) - amount));
  }

  /** Taking off what was just added restores the count, and the badge
      text, whenever the count was not negative and the amount is not. */
  lemma IncrementThenDecrement(b: Badge, amount: int)
    requires Count(b) >= 0 && amount >= 0
    ensures Count(Decremented(Incremented(b, amount), amount)) == Count(b)
    ensures Decremented(Incremented(b, amount), amount).text == DecimalString(Count(b))
  {
    var inc := Incremented(b, amount);
    IncrementedCount(b, amount);
    DecrementBack(inc, amount, Count(b));
    UpdatedCount(inc, Count(b));
  }

  /** Taking `amount` off a badge that counts `c + amount` leaves the badge
      `update(c)` would. */
  lemma DecrementBack(x: Badge, amount: int, c: int)
    requires Count(x) == c + amount && c >= 0
    ensures Decremented(x, amount) == Updated(x, c)
  {
  }

  /** The badge a refresh leaves once `/api/cart` answered: it counts the
      units in the user's cart as the server stores it, and is displayed
      exactly when there is at least one. */
  lemma RefreshShowsCartUnits(b: Badge, s: Store, userId: Id)
    requires CartService.GetCart(s, userId).Ok?
    ensures var units := CartService.TotalQuantity(LinesOf(s.cartItems, s.carts[CartIndexOfUser(s.carts, userId).value].id));
            var after := Updated(b, ItemCount(JsonOf(CartService.GetCart(s, userId).value)));
            Count(after) == units && (after.shown <==> units > 0)
  {
    BadgeCountIsCartUnits(s, userId);
    UpdatedCount(b, ItemCount(JsonOf(CartService.GetCart(s, userId).value)));
  }

  /** `CartBadgeManager`: the `/cart` link of the page, if any, and the
      `.cart-badge-count` span under it. */
  class CartBadgeManager {
    var hasCartLink: bool
    var badge: Option<Badge>

    /** There is a badge exactly when the page has a `/cart` link. */
    ghost predicate Valid()
      reads this
    {
      badge.Some? <==> hasCartLink
    }

    /** `new CartBadgeManager()`, that is `init()`: a page without a
        `/cart` link gets no badge; otherwise the link's existing badge is
        adopted, or a new, empty and hidden one is created. The refresh
        `init` starts runs when its fetch completes: the separate
        `Refresh` step. */
    constructor (cartLinkFound: bool, existing: Option<Badge>)
      ensures Valid() && hasCartLink == cartLinkFound
      ensures cartLinkFound && existing.Some? ==> badge == existing
      ensures cartLinkFound && existing.None? ==> badge == Some(Badge("", false, 0))
    {
      hasCartLink := cartLinkFound;
      if !cartLinkFound {
        badge := None;
      } else if existing.Some? {
        badge := existing;
      } else {
        badge := Some(Badge("", false, 0));
      }
    }

    /** `update(count)`. */
    method Update(count: int)
      modifies this
      ensures hasCartLink == old(hasCartLink)
      ensures badge == if old(badge).Some? then Some(Updated(old(badge).value, count)) else None
    {
      if badge.None? {
        return;
      }
      var b := badge.value.(text := DecimalString(count));
      if count > 0 {
        b := b.(shown := true, pops := b.pops + 1);
      } else {
        b := b.(shown := false);
      }
      badge := Some(b);
    }

    /** `increment(amount = 1)`. */
    method Increment(amount: int := 1)
      modifies this
      ensures hasCartLink == old(hasCartLink)
      ensures badge == if old(badge).Some? then Some(Incremented(old(badge).value, amount)) else None
    {
      if badge.None? {
        return;
      }
      var currentCount := Count(badge.value);
      Update(currentCount + amount);
    }

    /** `decrement(amount = 1)`. */
    method Decrement(amount: int := 1)
      modifies this
      ensures hasCartLink == old(hasCartLink)
      ensures badge == if old(badge).Some? then Some(Decremented(old(badge).value, amount)) else None
    {
      if badge.None? {
        return;
      }
      var currentCount := Count(badge.value);
      Update(AtLeastZero(currentCount - amount));
    }

    /** `refresh()` once its fetch has ended as `reply`. It returns the
        `Authorization` header of the request it sent, and sends none
        unless a customer is signed in; only a reply that arrived changes
        the badge, to the number of units in the cart. */
    method Refresh(auth: AuthRecord, reply: CartFetch) returns (request: Option<string>)
      modifies this
      ensures request.Some? <==> GetAuthState(auth).isAuthenticated && GetAuthState(auth).isCustomer
      ensures request.Some? ==> request.value == "Bearer " + auth.token.value
      ensures hasCartLink == old(hasCartLink)
      ensures badge == if request.Some? && reply.Fetched? && old(badge).Some?
                       then Some(Updated(old(badge).value, ItemCount(reply.cart)))
                       else old(badge)
    {
      var a := GetAuthState(auth);
      if !a.isAuthenticated || !a.isCustomer {
        return None;
      }
      request := Some("Bearer " + a.token.value);
      if reply.Fetched? {
        var count := ItemCount(reply.cart);
        Update(count);
      }
    }
  }

  // ---- CartOverlay ------------------------------------------------------

  const Rupee := '\U{20B9}'

  /** The total the overlay's markup starts with and shows for an empty cart. */
  const ZeroTotal := [Rupee] + "0.00"

  /** One `.cart-overlay-item`: the item's name, `₹price × quantity`, and
      the line total with two decimals. */
  datatype Row = Row(name: string, unitLine: string, lineTotal: string)

  /** What `.cart-overlay-body` holds: the markup's placeholder comment,
      the loading spinner, the error paragraph, the empty state, or the
      rendered lines. */
  datatype OverlayBody = Placeholder | Spinner | LoadError | EmptyCart | Rows(rows: seq<Row>)

  /** The overlay's body together with the text of its total. */
  datatype Rendering = Rendering(body: OverlayBody, total: string)

  /** The overlay as `create()` builds it. */
  const Blank := Rendering(Placeholder, ZeroTotal)

  function RowOf(item: ItemJson): Row {
    Row(item.menuItemName,
        [Rupee] + NumberText(item.price) + " \U{00D7} " + DecimalString(item.quantity),
        [Rupee] + FormatCents(item.price * item.quantity))
  }

  /** What `renderCart(cart)` writes: the empty state and a zero total when
      `items` is absent or empty; otherwise one row per item, in order,
      and the cart's `totalAmount` as JavaScript prints it. */
  function Rendered(cart: CartJson): (r: Rendering)
    ensures r.body == EmptyCart <==> cart.items.None? || cart.items.value == []
    ensures r.body == EmptyCart ==> r.total == ZeroTotal
    ensures r.body != EmptyCart ==>
              && r.body.Rows? && |r.body.rows| == |cart.items.value|
              && r.total == [Rupee] + NumberText(cart.totalAmount)
    ensures r.body != EmptyCart ==>
              forall i :: 0 <= i < |cart.items.value| ==>
                var item := cart.items.value[i];
                && r.body.rows[i].name == item.menuItemName
                && r.body.rows[i].unitLine == [Rupee] + NumberText(item.price) + " \U{00D7} " + DecimalString(item.quantity)
                && r.body.rows[i].lineTotal == [Rupee] + FormatCents(item.price * item.quantity)
  {
    if cart.items.None? || |cart.items.value| == 0 then Rendering(EmptyCart, ZeroTotal)
    else
      var items := cart.items.value;
      Rendering(Rows(seq(|items|, i requires 0 <= i < |items| => RowOf(items[i]))),
                [Rupee] + NumberText(cart.totalAmount))
  }

  /** What the overlay shows after `loadCart()` once its fetch has ended as
      `reply`: nothing changes for a signed-out user; otherwise the spinner
      goes up and stays for a non-ok status, a thrown fetch or JSON parse
      shows the error text, and a cart that arrived is rendered. */
  function AfterLoad(before: Rendering, auth: AuthRecord, reply: CartFetch): Rendering {
    if !GetAuthState(auth).isAuthenticated then before
    else match reply
      case Threw => Rendering(LoadError, before.total)
      case NotOk(_) => Rendering(Spinner, before.total)
      case Fetched(cart) => Rendered(cart)
  }

  /** The error text appears only when the fetch threw for a signed-in
      user, and a non-ok status leaves the spinner up. */
  lemma LoadErrorOnlyWhenThrown(before: Rendering, auth: AuthRecord, reply: CartFetch)
    requires before.body != LoadError
    ensures AfterLoad(before, auth, reply).body == LoadError <==>
              GetAuthState(auth).isAuthenticated && reply == Threw
    ensures GetAuthState(auth).isAuthenticated && reply.NotOk? ==>
              AfterLoad(before, auth, reply) == Rendering(Spinner, before.total)
  {
    if GetAuthState(auth).isAuthenticated && reply.Fetched? {
      assert Rendered(reply.cart).body != LoadError;
    }
  }

  /** Row `i` of a cart rendered from `getCart` shows line `i`'s quantity
      and the current name and price of its menu item. */
  lemma RowOfLine(s: Store, userId: Id, i: nat)
    requires CartService.GetCart(s, userId).Ok?
    requires i < |LinesOf(s.cartItems, s.carts[CartIndexOfUser(s.carts, userId).value].id)|
    ensures var v := CartService.GetCart(s, userId).value;
            var l := LinesOf(s.cartItems, s.carts[CartIndexOfUser(s.carts, userId).value].id)[i];
            var r := Rendered(JsonOf(v));
            && r.body.Rows? && i < |r.body.rows|
            && exists m :: && m in s.menuItems && m.id == l.menuItemId
                           && r.body.rows[i].name == m.name
                           && r.body.rows[i].unitLine ==
                                [Rupee] + NumberText(m.price) + " \U{00D7} " + DecimalString(l.quantity)
                           && r.body.rows[i].lineTotal == [Rupee] + FormatCents(m.price * l.quantity)
  {
    var v := CartService.GetCart(s, userId).value;
    var lines := LinesOf(s.cartItems, s.carts[CartIndexOfUser(s.carts, userId).value].id);
    assert |v.items| == |lines|;
    assert CartService.LineView(lines[i], s.menuItems) == Ok(v.items[i]);
    var m := FindMenuItem(s.menuItems, lines[i].menuItemId).value;
    assert JsonOf(v).items.value[i] == ItemJson(m.name, m.price, lines[i].quantity);
  }

  /** The overlay opened on a customer's cart, as `getCart` returns it,
      shows the empty state exactly when the cart has no line, and
      otherwise one row per line, in table order, with the name and the
      current price of the line's menu item, the line's quantity and
      their product, and the cart's stored total. */
  lemma OverlayShowsCart(s: Store, userId: Id)
    requires CartService.GetCart(s, userId).Ok?
    ensures var v := CartService.GetCart(s, userId).value;
            var lines := LinesOf(s.cartItems, s.carts[CartIndexOfUser(s.carts, userId).value].id);
            var r := Rendered(JsonOf(v));
            && (r.body == EmptyCart <==> lines == [])
            && (r.body == EmptyCart ==> r.total == ZeroTotal)
            && (r.body != EmptyCart ==>
                  && |r.body.rows| == |lines|
                  && r.total == [Rupee] + NumberText(s.carts[CartIndexOfUser(s.carts, userId).value].totalAmount)
                  && forall i :: 0 <= i < |lines| ==>
                       exists m :: && m in s.menuItems && m.id == lines[i].menuItemId
                                   && r.body.rows[i].name == m.name
                                   && r.body.rows[i].unitLine ==
                                        [Rupee] + NumberText(m.price) + " \U{00D7} " + DecimalString(lines[i].quantity)
                                   && r.body.rows[i].lineTotal == [Rupee] + FormatCents(m.price * lines[i].quantity))
  {
    var v := CartService.GetCart(s, userId).value;
    var lines := LinesOf(s.cartItems, s.carts[CartIndexOfUser(s.carts, userId).value].id);
    assert |v.items| == |lines|;
    forall i | 0 <= i < |lines|
      ensures var r := Rendered(JsonOf(v));
              exists m :: && m in s.menuItems && m.id == lines[i].menuItemId
                          && r.body.rows[i].name == m.name
                          && r.body.rows[i].unitLine ==
                               [Rupee] + NumberText(m.price) + " \U{00D7} " + DecimalString(lines[i].quantity)
                          && r.body.rows[i].lineTotal == [Rupee] + FormatCents(m.price * lines[i].quantity)
    {
      RowOfLine(s, userId, i);
    }
  }

  /** `CartOverlay`: whether its element exists yet, `isOpen`, the
      element's `active` class, the page's scroll lock
      (`document.body.style.overflow`), and what the element shows. */
  class CartOverlay {
    var created: bool
    var isOpen: bool
    var active: bool
    var scrollLocked: bool
    var body: OverlayBody
    var totalText: string

    /** Only a created overlay is open; its `active` class and the scroll
        lock follow `isOpen`. */
    ghost predicate Valid()
      reads this
    {
      && (isOpen ==> created)
      && active == isOpen
      && scrollLocked == isOpen
    }

    function View(): Rendering
      reads this
    {
      Rendering(body, totalText)
    }

    /** `new CartOverlay()`: no element yet, closed. */
    constructor ()
      ensures Valid() && !created && !isOpen
    {
      created := false;
      isOpen := false;
      active := false;
      scrollLocked := false;
      body := Placeholder;
      totalText := "";
    }

    /** `create()`: builds the element once; later calls do nothing. */
    method Create()
      modifies this
      ensures created
      ensures isOpen == old(isOpen) && active == old(active) && scrollLocked == old(scrollLocked)
      ensures View() == if old(created) then old(View()) else Blank
    {
      if created {
        return;
      }
      created := true;
      body := Placeholder;
      totalText := ZeroTotal;
    }

    /** `renderCart(cart)`. */
    method RenderCart(cart: CartJson)
      requires created
      modifies this
      ensures View() == Rendered(cart)
      ensures created && isOpen == old(isOpen) && active == old(active) && scrollLocked == old(scrollLocked)
    {
      var r := Rendered(cart);
      body := r.body;
      totalText := r.total;
    }

    /** `loadCart()` once its fetch has ended as `reply`. */
    method LoadCart(auth: AuthRecord, reply: CartFetch)
      requires created
      modifies this
      ensures View() == AfterLoad(old(View()), auth, reply)
      ensures created && isOpen == old(isOpen) && active == old(active) && scrollLocked == old(scrollLocked)
    {
      var a := GetAuthState(auth);
      if !a.isAuthenticated {
        return;
      }
      body := Spinner;
      match reply
      case Threw =>
        body := LoadError;
      case NotOk(_) =>
      case Fetched(cart) =>
        RenderCart(cart);
    }

    /** `open()`: creates the element if needed, opens it, locks the
        page's scroll, and reloads the cart on every call, open or not. */
    method Open(auth: AuthRecord, reply: CartFetch)
      requires Valid()
      modifies this
      ensures Valid() && created && isOpen
      ensures View() == AfterLoad(if old(created) then old(View()) else Blank, auth, reply)
    {
      if !created {
        Create();
      }
      active := true;
      isOpen := true;
      scrollLocked := true;
      LoadCart(auth, reply);
    }

    /** `close()`: does nothing before the element exists; otherwise
        closes it and releases the scroll lock. What it shows is kept. */
    method Close()
      requires Valid()
      modifies this
      ensures Valid() && !isOpen && created == old(created)
      ensures View() == old(View())
    {
      if !created {
        return;
      }
      active := false;
      isOpen := false;
      scrollLocked := false;
    }

    /** `toggle()`: closes an open overlay and opens (and reloads) a
        closed one. */
    method Toggle(auth: AuthRecord, reply: CartFetch)
      requires Valid()
      modifies this
      ensures Valid() && isOpen == !old(isOpen)
      ensures old(isOpen) ==> View() == old(View())
      ensures !old(isOpen) ==> View() == AfterLoad(if old(created) then old(View()) else Blank, auth, reply)
    {
      if isOpen {
        Close();
      } else {
        Open(auth, reply);
      }
    }
  }
}
