/** `AuthService`: registering customers and shop owners, and logging in.
    BCrypt and the JWT utility are outside the model: the password
    encoder's `encode` and `matches` and the token generator are passed in
    as functions. */
module AuthService {
  import opened Common
  import opened Entities
  import opened Repositories
  import CartService

  /** The one message of both login failures. */
  const InvalidCredentials := "Invalid username or password"

  /** `RegisterDTO`. */
  datatype CustomerRequest = CustomerRequest(username: string, email: string, password: string)

  /** `RegisterOwnerDTO`. */
  datatype OwnerRequest = OwnerRequest(username: string, email: string, password: string,
                                       shopName: string, description: string, address: string)

  /** `LoginDTO`. */
  datatype LoginRequest = LoginRequest(username: string, password: string)

  /** `LoginResponseDTO`: the token, the username and the role's name. */
  datatype LoginResponse = LoginResponse(token: string, username: string, role: string)

  // ---- registerCustomer ----------------------------------------------

  /** The store after `registerCustomer(dto)`: the user is saved first and
      takes the next key, then an empty cart for that user takes the one
      after. */
  function CustomerRegistered(s: Store, dto: CustomerRequest, encode: string -> string): Store {
    var userId := s.nextId;
    s.(users := s.users + [User(userId, dto.username, dto.email, encode(dto.password), RoleCustomer)],
       carts := s.carts + [Cart(userId + 1, userId, None, 0)],
       nextId := userId + 2)
  }

  /** Registering a customer adds one user, a customer whose stored
      password is the encoder's output, and exactly one cart, which is
      that user's: no shop, no line, a zero total. Shops, menus, cart
      lines and orders are untouched. */
  lemma CustomerRegisteredEffect(s: Store, dto: CustomerRequest, encode: string -> string)
    requires CartKeys(s.carts, s.nextId) && LineKeys(s.cartItems, s.nextId)
    ensures var t := CustomerRegistered(s, dto, encode);
            && |t.users| == |s.users| + 1 && t.users[..|s.users|] == s.users
            && t.users[|s.users|].id == s.nextId && t.users[|s.users|].username == dto.username
            && t.users[|s.users|].email == dto.email && t.users[|s.users|].role == RoleCustomer
            && t.users[|s.users|].password == encode(dto.password)
    ensures var t := CustomerRegistered(s, dto, encode);
            && |t.carts| == |s.carts| + 1 && t.carts[..|s.carts|] == s.carts
            && CartIndexOfUser(t.carts, s.nextId) == Some(|s.carts|)
            && t.carts[|s.carts|].shopId == None && t.carts[|s.carts|].totalAmount == 0
    ensures var t := CustomerRegistered(s, dto, encode);
            LinesOf(t.cartItems, t.carts[|s.carts|].id) == []
    ensures var t := CustomerRegistered(s, dto, encode);
            && t.shops == s.shops && t.menuItems == s.menuItems && t.cartItems == s.cartItems
            && t.orders == s.orders && t.orderItems == s.orderItems
  {
    var t := CustomerRegistered(s, dto, encode);
    assert t.users[..|s.users|] == s.users;
    assert t.carts[..|s.carts|] == s.carts;
    CartOfNewUser(s.carts, Cart(s.nextId + 1, s.nextId, None, 0), s.nextId);
    NoLinesOfNewCart(s.cartItems, s.nextId, s.nextId + 1);
  }

  /** A cart appended for a user no earlier cart belongs to is the one
      found for that user. */
  lemma CartOfNewUser(carts: seq<Cart>, c: Cart, next: Id)
    requires CartKeys(carts, next) && c.userId == next
    ensures CartIndexOfUser(carts + [c], c.userId) == Some(|carts|)
  {
    var t := carts + [c];
    assert forall i :: 0 <= i < |carts| ==> t[i].userId != c.userId;
    assert t[|carts|].userId == c.userId;
  }

  /** A cart key not yet handed out has no line. */
  lemma NoLinesOfNewCart(lines: seq<CartItem>, next: Id, cartId: Id)
    requires LineKeys(lines, next) && next <= cartId
    ensures LinesOf(lines, cartId) == []
  {
    FilterEmpty(lines, (l: CartItem) => InCart(l, cartId));
  }

  /** Registering a customer keeps the store's invariant. */
  lemma CustomerRegisteredKeepsValid(s: Store, dto: CustomerRequest, encode: string -> string)
    requires Valid(s)
    ensures Valid(CustomerRegistered(s, dto, encode))
  {
    var t := CustomerRegistered(s, dto, encode);
    var c := t.carts[|s.carts|];
    KeysGrow(s, t.nextId);
    assert UserKeys(t.users, t.nextId) by {
      assert forall i :: 0 <= i < |s.users| ==> t.users[i] == s.users[i];
    }
    assert CartKeys(t.carts, t.nextId) by {
      assert forall i :: 0 <= i < |s.carts| ==> t.carts[i] == s.carts[i];
    }
    NoLinesOfNewCart(s.cartItems, s.nextId, c.id);
    forall d, l | d in t.carts && l in t.cartItems && l.cartId == d.id
      ensures ItemOfShop(t.menuItems, l.menuItemId, d.shopId)
    {
      if d != c {
        assert d in s.carts;
      }
    }
    forall d | d in t.carts
      ensures d.shopId.None? <==> LinesOf(t.cartItems, d.id) == []
    {
      if d != c {
        assert d in s.carts;
      }
    }
  }

  /** A new customer's cart, read back with `getCart`, is empty and
      costs nothing. */
  lemma RegisterThenGetCart(s: Store, dto: CustomerRequest, encode: string -> string)
    requires CartKeys(s.carts, s.nextId) && LineKeys(s.cartItems, s.nextId)
    ensures CartService.GetCart(CustomerRegistered(s, dto, encode), s.nextId) ==
            Ok(CartService.CartView(s.nextId + 1, None, None, [], 0))
  {
    CustomerRegisteredEffect(s, dto, encode);
  }

  /** `registerCustomer(dto)` as written: save the user, then its cart. */
  method RegisterCustomer(db: Database, dto: CustomerRequest, encode: string -> string)
    modifies db
    ensures db.Snapshot() == CustomerRegistered(old(db.Snapshot()), dto, encode)
  {
    var userId := db.NewId();
    db.users := db.users + [User(userId, dto.username, dto.email, encode(dto.password), RoleCustomer)];
    var cartId := db.NewId();
    db.carts := db.carts + [Cart(cartId, userId, None, 0)];
  }

  // ---- registerOwner -------------------------------------------------

  /** The store after `registerOwner(dto)`: the user takes the next key,
      then a shop owned by that user, with no image, the one after. */
  function OwnerRegistered(s: Store, dto: OwnerRequest, encode: string -> string): Store {
    var userId := s.nextId;
    s.(users := s.users + [User(userId, dto.username, dto.email, encode(dto.password), RoleOwner)],
       shops := s.shops + [Shop(userId + 1, dto.shopName, dto.description, dto.address, userId, None)],
       nextId := userId + 2)
  }

  /** Registering an owner adds one user, an owner whose stored password is
      the encoder's output, and one shop with the request's name,
      description and address, which is then the shop that owner finds.
      No cart is created and nothing else changes. */
  lemma OwnerRegisteredEffect(s: Store, dto: OwnerRequest, encode: string -> string)
    requires ShopKeys(s.shops, s.nextId)
    ensures var t := OwnerRegistered(s, dto, encode);
            var u := t.users[|s.users|];
            && |t.users| == |s.users| + 1 && t.users[..|s.users|] == s.users
            && u.id == s.nextId && u.username == dto.username && u.email == dto.email
            && u.role == RoleOwner && u.password == encode(dto.password)
            && |t.shops| == |s.shops| + 1 && t.shops[..|s.shops|] == s.shops
            && FindShopByOwner(t.shops, u.id) == Some(t.shops[|s.shops|])
            && t.shops[|s.shops|].shopName == dto.shopName
            && t.shops[|s.shops|].description == dto.description
            && t.shops[|s.shops|].address == dto.address
            && t.shops[|s.shops|].imageUrl == None
            && t.carts == s.carts && t.menuItems == s.menuItems && t.cartItems == s.cartItems
            && t.orders == s.orders && t.orderItems == s.orderItems
  {
    var t := OwnerRegistered(s, dto, encode);
    assert t.users[..|s.users|] == s.users;
    assert t.shops[..|s.shops|] == s.shops;
    assert forall i :: 0 <= i < |s.shops| ==> t.shops[i].ownerId != s.nextId;
  }

  /** Registering an owner keeps the store's invariant. */
  lemma OwnerRegisteredKeepsValid(s: Store, dto: OwnerRequest, encode: string -> string)
    requires Valid(s)
    ensures Valid(OwnerRegistered(s, dto, encode))
  {
    var t := OwnerRegistered(s, dto, encode);
    KeysGrow(s, t.nextId);
    assert UserKeys(t.users, t.nextId) by {
      assert forall i :: 0 <= i < |s.users| ==> t.users[i] == s.users[i];
    }
    assert ShopKeys(t.shops, t.nextId) by {
      assert forall i :: 0 <= i < |s.shops| ==> t.shops[i] == s.shops[i];
    }
  }

  /** `registerOwner(dto)` as written: save the user, then its shop. */
  method RegisterOwner(db: Database, dto: OwnerRequest, encode: string -> string)
    modifies db
    ensures db.Snapshot() == OwnerRegistered(old(db.Snapshot()), dto, encode)
  {
    var userId := db.NewId();
    db.users := db.users + [User(userId, dto.username, dto.email, encode(dto.password), RoleOwner)];
    var shopId := db.NewId();
    db.shops := db.shops + [Shop(shopId, dto.shopName, dto.description, dto.address, userId, None)];
  }

  // ---- login ---------------------------------------------------------

  /** `login(dto)`. An unknown username and a wrong password fail with the
      same exception and message, so a caller cannot tell them apart; a
      match yields the token for the user's name and role, the name, and
      the role's name. */
  function Login(users: seq<User>, dto: LoginRequest, matches: (string, string) -> bool,
                 generateToken: (string, string) -> string): (r: Result<LoginResponse>)
    ensures r.Ok? <==> FindUserByUsername(users, dto.username).Some? &&
                       matches(dto.password, FindUserByUsername(users, dto.username).value.password)
    ensures r.Err? ==> r.error == Unauthorized(InvalidCredentials)
    ensures r.Ok? ==> var u := FindUserByUsername(users, dto.username).value;
                      r.value == LoginResponse(generateToken(u.username, RoleName(u.role)),
                                               dto.username, RoleName(u.role))
  {
    match FindUserByUsername(users, dto.username)
    case None => Err(Unauthorized(InvalidCredentials))
    case Some(u) =>
      if !matches(dto.password, u.password) then Err(Unauthorized(InvalidCredentials))
      else
        var role := RoleName(u.role);
        Ok(LoginResponse(generateToken(u.username, role), u.username, role))
  }

  /** A customer who has just registered under a name nobody else had logs
      in with the password they registered, as a customer, whenever the
      encoder's `matches` accepts a password against its own encoding. */
  lemma RegisterThenLogin(s: Store, dto: CustomerRequest, encode: string -> string,
                          matches: (string, string) -> bool, generateToken: (string, string) -> string)
    requires forall i :: 0 <= i < |s.users| ==> s.users[i].username != dto.username
    requires matches(dto.password, encode(dto.password))
    ensures Login(CustomerRegistered(s, dto, encode).users, LoginRequest(dto.username, dto.password),
                  matches, generateToken) ==
            Ok(LoginResponse(generateToken(dto.username, "ROLE_CUSTOMER"), dto.username, "ROLE_CUSTOMER"))
  {
    var users := CustomerRegistered(s, dto, encode).users;
    var found := FindUserByUsername(users, dto.username);
    assert users[|s.users|].username == dto.username;
    var i :| 0 <= i < |users| && users[i] == found.value;
    assert i == |s.users|;
  }
}
