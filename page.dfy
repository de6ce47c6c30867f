/** What the front-end scripts see of the server and of the page: the
    `/api/cart` reply as parsed JSON, how a `fetch` of it ends, and the
    cart badge element. */
module Page {
  import opened Common
  import opened Entities
  import CartService

  /** An entry of `cart.items` in the `/api/cart` JSON (`CartItemDTO`). */
  datatype ItemJson = ItemJson(menuItemName: string, price: Cents, quantity: int)

  /** The `/api/cart` JSON (`CartDTO`); `items` may be absent. */
  datatype CartJson = CartJson(items: Option<seq<ItemJson>>, totalAmount: Cents)

  /** How `fetch('/api/cart')` ended for the caller: it threw (network
      failure, or a body that is not JSON), the status was outside
      200-299, or the JSON arrived. */
  datatype CartFetch = Threw | NotOk(status: int) | Fetched(cart: CartJson)

  /** `items.reduce((sum, item) => sum + item.quantity, 0)`. */
  function SumQuantities(items: seq<ItemJson>): int {
    if items == [] then 0 else SumQuantities(items[..|items| - 1]) + items[|items| - 1].quantity
  }

  /** The count both badge refreshes compute: zero when `items` is absent. */
  function ItemCount(cart: CartJson): int {
    if cart.items.Some? then SumQuantities(cart.items.value) else 0
  }

  /** The `.cart-badge-count` span: its text, whether it is displayed, and
      how many times its pop animation has been restarted. */
  datatype Badge = Badge(text: string, shown: bool, pops: nat)

  /** The JSON the server sends for a `CartDTO`. */
  function JsonOf(v: CartService.CartView): (j: CartJson)
    ensures j.items.Some? && |j.items.value| == |v.items|
    ensures forall i :: 0 <= i < |v.items| ==>
              j.items.value[i] == ItemJson(v.items[i].menuItemName, v.items[i].price, v.items[i].quantity)
    ensures j.totalAmount == v.totalAmount
  {
    CartJson(Some(seq(|v.items|, i requires 0 <= i < |v.items| =>
                        ItemJson(v.items[i].menuItemName, v.items[i].price, v.items[i].quantity))),
             v.totalAmount)
  }

  lemma {:induction false} SumQuantitiesOfLines(items: seq<ItemJson>, lines: seq<CartItem>)
    requires |items| == |lines|
    requires forall i :: 0 <= i < |lines| ==> items[i].quantity == lines[i].quantity
    ensures SumQuantities(items) == CartService.TotalQuantity(lines)
  {
    if lines != [] {
      var n := |lines| - 1;
      SumQuantitiesOfLines(items[..n], lines[..n]);
    }
  }

  /** The count a badge refresh shows is the number of units in the
      user's cart as the server stores it. */
  lemma BadgeCountIsCartUnits(s: Store, userId: Id)
    requires CartService.GetCart(s, userId).Ok?
    ensures ItemCount(JsonOf(CartService.GetCart(s, userId).value)) ==
            CartService.TotalQuantity(LinesOf(s.cartItems, s.carts[CartIndexOfUser(s.carts, userId).value].id))
  {
    var v := CartService.GetCart(s, userId).value;
    var lines := LinesOf(s.cartItems, s.carts[CartIndexOfUser(s.carts, userId).value].id);
    var j := JsonOf(v);
    forall i | 0 <= i < |lines| ensures j.items.value[i].quantity == lines[i].quantity {
      assert CartService.LineView(lines[i], s.menuItems) == Ok(v.items[i]);
    }
    SumQuantitiesOfLines(j.items.value, lines);
  }
}
