/** The database the services share, as one object whose fields are the
    tables. Spring Data repositories read and write these fields; a
    `@Transactional` service method that fails restores the state it
    started from. */
module Repositories {
  import opened Common
  import opened Entities

  class Database {
    var users: seq<User>
    var shops: seq<Shop>
    var menuItems: seq<MenuItem>
    var carts: seq<Cart>
    var cartItems: seq<CartItem>
    var orders: seq<Order>
    var orderItems: seq<OrderItem>
    var nextId: Id

    /** The value of every table. */
    function Snapshot(): Store
      reads this
    {
      Store(users, shops, menuItems, carts, cartItems, orders, orderItems, nextId)
    }

    constructor ()
      ensures Snapshot() == EmptyStore()
    {
      users, shops, menuItems := [], [], [];
      carts, cartItems, orders, orderItems := [], [], [], [];
      nextId := 0;
    }

    /** Rolls every table back to `s`: the effect of a transaction that
        ends in an exception. */
    method Restore(s: Store)
      modifies this
      ensures Snapshot() == s
    {
      users, shops, menuItems := s.users, s.shops, s.menuItems;
      carts, cartItems, orders, orderItems := s.carts, s.cartItems, s.orders, s.orderItems;
      nextId := s.nextId;
    }

    /** The key an IDENTITY column hands out on insert. */
    method NewId() returns (id: Id)
      modifies this`nextId
      ensures id == old(nextId) && nextId == id + 1
    {
      id := nextId;
      nextId := nextId + 1;
    }
  }
}
