/**
 * The server's access gates and the route handlers of the order-placement
 * core: login, registration, the order reads and checkout.
 *
 * A request is reduced to what the handlers look at: the user the session
 * resolved (None for an anonymous caller), the parsed JSON body or the path
 * parameter. A handler that logs a user in returns that user as the new
 * session identity. Messages of caught exceptions (zod and database errors)
 * are the abstract body Thrown.
 */
module Routes {
  import opened Schema
  import opened Store

  datatype Body =
    | Message(text: string)
    | Thrown
    | UserInfo(user: PublicUser)
    | OrderInfo(order: Order)
    | OrderDetail(order: Order, items: seq<OrderItem>)
    | OrderList(orders: seq<Order>)

  datatype Response = Response(status: int, body: Body)

  const Unauthorized := Response(401, Message("Unauthorized"))
  const Forbidden := Response(403, Message("Forbidden"))

  // ---------------------------------------------------------------- gates

  /** The outcome of a middleware: hand the user to the handler, or answer without running it. */
  datatype Gate = Next(user: User) | Halt(response: Response)

  /** isAuthenticated: any session user passes; an anonymous caller gets 401. */
  function IsAuthenticated(session: Option<User>): (g: Gate)
    ensures g.Next? <==> session.Some?
    ensures g.Next? ==> g.user == session.value
    ensures g.Halt? ==> g.response == Unauthorized
  {
    match session
    case None => Halt(Unauthorized)
    case Some(u) => Next(u)
  }

  /** isAdmin: only a session user with the admin flag passes; everyone else gets 403. */
  function IsAdmin(session: Option<User>): (g: Gate)
    ensures g.Next? <==> session.Some? && session.value.isAdmin
    ensures g.Next? ==> g.user == session.value
    ensures g.Halt? ==> g.response == Forbidden
  {
    if session.Some? && session.value.isAdmin then Next(session.value) else Halt(Forbidden)
  }

  /** Every caller the admin gate lets through, the authentication gate lets through too. */
  lemma AdminGateImpliesAuthenticated(session: Option<User>)
    ensures IsAdmin(session).Next? ==> IsAuthenticated(session) == IsAdmin(session)
  {
  }

  /** The admin gate answers an anonymous caller and a signed-in non-admin identically. */
  lemma AdminGateIndistinguishable(u: User)
    requires !u.isAdmin
    ensures IsAdmin(None) == IsAdmin(Some(u)) == Halt(Forbidden)
  {
  }

  // ---------------------------------------------------------------- login

  /** What the local strategy's verify callback decides for the user found by username. */
  datatype Verdict = Accept(user: User) | Refuse(message: string)

  /** The verify callback: an unknown username and a password that is not exactly the stored
      one are both refused, with different messages. */
  function VerifyCredentials(found: Option<User>, password: string): (v: Verdict)
    ensures v.Accept? <==> found.Some? && found.value.password == password
    ensures v.Accept? ==> v.user == found.value
    ensures found.None? ==> v == Refuse("Incorrect username.")
    ensures found.Some? && found.value.password != password ==> v == Refuse("Incorrect password.")
  {
    match found
    case None => Refuse("Incorrect username.")
    case Some(u) => if u.password != password then Refuse("Incorrect password.") else Accept(u)
  }

  /** Some stored user has exactly this username and this password. */
  predicate CredentialsMatch(users: seq<User>, username: string, password: string) {
    exists i :: 0 <= i < |users| && users[i].username == username && users[i].password == password
  }

  /** POST /api/auth/login: the local strategy first refuses a request whose username or
      password is missing or empty, without looking anything up ("Missing credentials").
      Otherwise 200 with the user (never the password) and a new session when some stored user
      has exactly these credentials, else 401 with the callback's message. A missing field is
      the empty string here. */
  method Login(store: Storage, username: string, password: string) returns (resp: Response, session: Option<User>)
    requires store.Valid()
    ensures username == [] || password == [] ==>
      resp == Response(401, Message("Missing credentials")) && session.None?
    ensures username != [] && password != [] && !UsernameTaken(store.users, username) ==>
      resp == Response(401, Message("Incorrect username.")) && session.None?
    ensures username != [] && password != [] && UsernameTaken(store.users, username) &&
            !CredentialsMatch(store.users, username, password) ==>
      resp == Response(401, Message("Incorrect password.")) && session.None?
    ensures username != [] && password != [] && CredentialsMatch(store.users, username, password) ==>
      session.Some? && session.value in store.users &&
      session.value.username == username && session.value.password == password &&
      resp == Response(200, UserInfo(ToPublic(session.value)))
  {
    if username == [] || password == [] {
      return Response(401, Message("Missing credentials")), None;
    }
    var found := store.GetUserByUsername(username);
    if found.Some? && !CredentialsMatch(store.users, username, password) {
      assert found.value.password != password;
    }
    if CredentialsMatch(store.users, username, password) {
      var i :| 0 <= i < |store.users| && store.users[i].username == username && store.users[i].password == password;
      var j :| 0 <= j < |store.users| && store.users[j] == found.value;
      assert store.users[i].username == store.users[j].username;
      assert i == j;
    }
    match VerifyCredentials(found, password)
    case Refuse(message) =>
      resp, session := Response(401, Message(message)), None;
    case Accept(u) =>
      resp, session := Response(200, UserInfo(ToPublic(u))), Some(u);
  }

  /** GET /api/auth/user: the session user without the password, or 401. */
  function CurrentUser(session: Option<User>): (resp: Response)
    ensures session.None? ==> resp == Response(401, Message("Not authenticated"))
    ensures session.Some? ==> resp == Response(200, UserInfo(ToPublic(session.value)))
  {
    match session
    case None => Response(401, Message("Not authenticated"))
    case Some(u) => Response(200, UserInfo(ToPublic(u)))
  }

  // --------------------------------------------------------- registration

  /** POST /api/auth/register: a malformed body, a taken username (checked first) and a taken
      email each answer 400 and change nothing; otherwise the user is stored with the column
      defaults, logged in, and returned with 201. */
  method Register(store: Storage, body: Json) returns (resp: Response, session: Option<User>)
    requires store.Valid()
    modifies store
    ensures store.Valid()
    ensures ParseInsertUser(body).None? ==> resp == Response(400, Thrown) && session.None? && unchanged(store)
    ensures ParseInsertUser(body).Some? && UsernameTaken(old(store.users), ParseInsertUser(body).value.username) ==>
      resp == Response(400, Message("Username already exists")) && session.None? && unchanged(store)
    ensures ParseInsertUser(body).Some? && !UsernameTaken(old(store.users), ParseInsertUser(body).value.username) &&
            EmailTaken(old(store.users), ParseInsertUser(body).value.email) ==>
      resp == Response(400, Message("Email already exists")) && session.None? && unchanged(store)
    ensures ParseInsertUser(body).Some? && !UsernameTaken(old(store.users), ParseInsertUser(body).value.username) &&
            !EmailTaken(old(store.users), ParseInsertUser(body).value.email) ==>
      var u := NewUser(old(store.nextUserId), ParseInsertUser(body).value);
      store.users == old(store.users) + [u] && store.nextUserId == old(store.nextUserId) + 1 &&
      store.products == old(store.products) && store.orders == old(store.orders) &&
      store.orderItems == old(store.orderItems) &&
      store.nextOrderId == old(store.nextOrderId) && store.nextOrderItemId == old(store.nextOrderItemId) &&
      session == Some(u) && resp == Response(201, UserInfo(ToPublic(u)))
  {
    var parsed := ParseInsertUser(body);
    if parsed.None? {
      return Response(400, Thrown), None;
    }
    var data := parsed.value;
    var existingUser := store.GetUserByUsername(data.username);
    if existingUser.Some? {
      return Response(400, Message("Username already exists")), None;
    }
    var existingEmail := store.GetUserByEmail(data.email);
    if existingEmail.Some? {
      return Response(400, Message("Email already exists")), None;
    }
    var created := store.CreateUser(data);
    match created
    case None =>
      // the unique constraint refusing the insert; the checks above rule it out
      resp, session := Response(400, Thrown), None;
    case Some(u) =>
      resp, session := Response(201, UserInfo(ToPublic(u))), Some(u);
  }

  // ----------------------------------------------------------- order reads

  /** The owner-or-admin rule for reading one order: the callers the admin gate would admit,
      and the order's owner. */
  function CanViewOrder(user: User, order: Order): (r: bool)
    ensures r <==> IsAdmin(Some(user)).Next? || order.userId == user.id
  {
    !(!user.isAdmin && order.userId != user.id)
  }

  /** GET /api/orders (admin gate): every order. */
  method ListOrders(session: Option<User>, store: Storage) returns (resp: Response)
    ensures IsAdmin(session).Halt? ==> resp == Forbidden
    ensures IsAdmin(session).Next? ==> resp == Response(200, OrderList(store.orders))
  {
    var gate := IsAdmin(session);
    if gate.Halt? {
      return gate.response;
    }
    return Response(200, OrderList(store.orders));
  }

  /** GET /api/user/orders (authentication gate): the caller's own orders. */
  method ListUserOrders(session: Option<User>, store: Storage) returns (resp: Response)
    ensures session.None? ==> resp == Unauthorized
    ensures session.Some? ==> resp == Response(200, OrderList(OrdersOf(store.orders, session.value.id)))
  {
    var gate := IsAuthenticated(session);
    if gate.Halt? {
      return gate.response;
    }
    var orders := store.GetOrdersByUser(gate.user.id);
    return Response(200, OrderList(orders));
  }

  /** GET /api/orders/:id (authentication gate): 404 for an absent order, 403 unless the caller
      is an admin or the owner, otherwise the order with its items. */
  method GetOrderById(session: Option<User>, store: Storage, id: int) returns (resp: Response)
    requires store.Valid()
    ensures session.None? ==> resp == Unauthorized
    ensures session.Some? && !OrderExists(store.orders, id) ==> resp == Response(404, Message("Order not found"))
    ensures session.Some? ==> forall o :: o in store.orders && o.id == id ==>
      (!CanViewOrder(session.value, o) ==> resp == Forbidden) &&
      (CanViewOrder(session.value, o) ==> resp == Response(200, OrderDetail(o, ItemsOf(store.orderItems, o.id))))
  {
    var gate := IsAuthenticated(session);
    if gate.Halt? {
      return gate.response;
    }
    var user := gate.user;
    var order := store.GetOrder(id);
    if order.None? {
      return Response(404, Message("Order not found"));
    }
    OrderIdsUnique(store.orders, store.users, store.nextOrderId, order.value, id);
    if !CanViewOrder(user, order.value) {
      return Forbidden;
    }
    var items := store.GetOrderItems(order.value.id);
    return Response(200, OrderDetail(order.value, items));
  }

  /** Order ids are unique: the order found by id is the only one with that id. */
  lemma OrderIdsUnique(orders: seq<Order>, users: seq<User>, nextId: nat, o: Order, id: int)
    requires OrdersWellFormed(orders, users, nextId)
    requires o in orders && o.id == id
    ensures forall p :: p in orders && p.id == id ==> p == o
  {
  }

  // -------------------------------------------------------------- checkout

  /** The request body's `items` when it is a non-empty array; None is the "Cart is empty" case
      (missing, null or any other non-array value, or an empty array). */
  function CartField(body: Json): (r: Option<seq<Json>>)
    ensures r.Some? ==> r.value != [] && body.JObj? && "items" in body.fields &&
                        body.fields["items"] == JArr(r.value)
    ensures r.None? <==> !body.JObj? || "items" !in body.fields || !body.fields["items"].JArr? ||
                         |body.fields["items"].elems| == 0
  {
    if body.JObj? && "items" in body.fields && body.fields["items"].JArr? && body.fields["items"].elems != []
    then Some(body.fields["items"].elems)
    else None
  }

  /** Every raw item parsed by cartItemSchema, or None when any of them fails. */
  function ValidateAll(raw: seq<Json>): (r: Option<seq<CartItem>>)
    ensures r.Some? <==> forall i :: 0 <= i < |raw| ==> ParseCartItem(raw[i]).Some?
    ensures r.Some? ==> |r.value| == |raw| && forall i :: 0 <= i < |raw| ==> ParseCartItem(raw[i]) == Some(r.value[i])
  {
    if raw == [] then Some([])
    else match ParseCartItem(raw[0])
      case None => None
      case Some(c) =>
        match ValidateAll(raw[1..])
        case None => None
        case Some(rest) => Some([c] + rest)
  }

  /** The order_items rows checkout writes for the items, with consecutive ids from firstId. */
  function ItemRows(orderId: nat, items: seq<CartItem>, firstId: nat): (r: seq<OrderItem>)
    ensures |r| == |items|
    ensures forall i :: 0 <= i < |items| ==> r[i] == OrderItem(firstId + i, orderId, items[i].productId, items[i].price)
  {
    if items == [] then []
    else [OrderItem(firstId, orderId, items[0].productId, items[0].price)] + ItemRows(orderId, items[1..], firstId + 1)
  }

  /** The index of the first item whose product is not in the catalogue, or the item count. */
  function FirstMissingProduct(products: seq<Product>, items: seq<CartItem>): (k: nat)
    ensures k <= |items|
    ensures forall i :: 0 <= i < k ==> ProductExists(products, items[i].productId)
    ensures k < |items| ==> !ProductExists(products, items[k].productId)
  {
    if items == [] then 0
    else if !ProductExists(products, items[0].productId) then 0
    else 1 + FirstMissingProduct(products, items[1..])
  }

  /** POST /api/orders (authentication gate). An empty cart and an invalid item answer 400 and
      write nothing. Otherwise one order is written for the caller with the summed prices and
      status "completed", then one item row per validated item, in order. The writes are not
      atomic: an item whose product does not exist makes the database refuse that row (using up
      its serial id), and the handler answers 400 with the order and the earlier rows already
      stored. */
  method PlaceOrder(session: Option<User>, store: Storage, body: Json) returns (resp: Response)
    requires store.Valid()
    requires session.Some? ==> session.value in store.users
    modifies store
    ensures store.Valid()
    ensures session.None? ==> resp == Unauthorized && unchanged(store)
    ensures session.Some? && CartField(body).None? ==>
      resp == Response(400, Message("Cart is empty")) && unchanged(store)
    ensures session.Some? && CartField(body).Some? && ValidateAll(CartField(body).value).None? ==>
      resp == Response(400, Message("Invalid cart item")) && unchanged(store)
    ensures session.Some? && CartField(body).Some? && ValidateAll(CartField(body).value).Some? ==>
      var items := ValidateAll(CartField(body).value).value;
      var order := Order(old(store.nextOrderId), session.value.id, SumPrices(items), Completed);
      var k := FirstMissingProduct(old(store.products), items);
      store.orders == old(store.orders) + [order] &&
      store.orderItems == old(store.orderItems) + ItemRows(order.id, items[..k], old(store.nextOrderItemId)) &&
      store.users == old(store.users) && store.products == old(store.products) &&
      store.nextUserId == old(store.nextUserId) && store.nextOrderId == old(store.nextOrderId) + 1 &&
      store.nextOrderItemId == old(store.nextOrderItemId) + (if k == |items| then k else k + 1) &&
      resp == (if k == |items| then Response(201, OrderInfo(order)) else Response(400, Thrown))
  {
    var gate := IsAuthenticated(session);
    if gate.Halt? {
      return gate.response;
    }
    var user := gate.user;
    var cart := CartField(body);
    if cart.None? {
      return Response(400, Message("Cart is empty"));
    }
    var raw := cart.value;

    var validated := ValidateCart(raw);
    if validated.None? {
      return Response(400, Message("Invalid cart item"));
    }
    var items := validated.value;

    var totalAmount := SumPrices(items);
    assert UserExists(store.users, user.id) by {
      var w :| 0 <= w < |store.users| && store.users[w] == user;
    }
    var order := store.CreateOrder(InsertOrder(user.id, totalAmount, Some(Completed)));
    if order.None? {
      // the foreign key on user_id refusing the row; the session user is stored, so it cannot happen
      return Response(400, Thrown);
    }
    assert OrderExists(store.orders, order.value.id) by {
      assert store.orders[|store.orders| - 1] == order.value;
    }
    var written := WriteOrderItems(store, order.value.id, items);
    if !written {
      return Response(400, Thrown);
    }
    return Response(201, OrderInfo(order.value));
  }

  /** The validation loop of checkout: parses every raw item, stopping at the first failure. */
  method ValidateCart(raw: seq<Json>) returns (r: Option<seq<CartItem>>)
    ensures r == ValidateAll(raw)
  {
    var validated: seq<CartItem> := [];
    var i := 0;
    while i < |raw|
      invariant 0 <= i <= |raw|
      invariant |validated| == i
      invariant forall k :: 0 <= k < i ==> ParseCartItem(raw[k]) == Some(validated[k])
    {
      var parsed := ParseCartItem(raw[i]);
      if parsed.None? {
        return None;
      }
      validated := validated + [parsed.value];
      i := i + 1;
    }
    assert ValidateAll(raw) == Some(validated) by {
      assert forall k :: 0 <= k < |raw| ==> ParseCartItem(raw[k]).Some?;
      var all := ValidateAll(raw).value;
      assert forall k :: 0 <= k < |raw| ==> all[k] == validated[k];
      assert all == validated;
    }
    return Some(validated);
  }

  /** The item loop of checkout: one createOrderItem per item, in order, stopping at the first
      row the database refuses (whose serial id is used up all the same); reports whether every
      row was written. */
  method WriteOrderItems(store: Storage, orderId: nat, items: seq<CartItem>) returns (ok: bool)
    requires store.Valid() && OrderExists(store.orders, orderId)
    modifies store
    ensures store.Valid()
    ensures ok <==> FirstMissingProduct(old(store.products), items) == |items|
    ensures var k := FirstMissingProduct(old(store.products), items);
      store.orderItems == old(store.orderItems) + ItemRows(orderId, items[..k], old(store.nextOrderItemId))
    ensures var k := FirstMissingProduct(old(store.products), items);
      store.nextOrderItemId == old(store.nextOrderItemId) + (if ok then k else k + 1)
    ensures store.users == old(store.users) && store.products == old(store.products) && store.orders == old(store.orders)
    ensures store.nextUserId == old(store.nextUserId) && store.nextOrderId == old(store.nextOrderId)
  {
    var j := 0;
    while j < |items|
      invariant 0 <= j <= |items|
      invariant store.Valid()
      invariant store.users == old(store.users) && store.products == old(store.products) && store.orders == old(store.orders)
      invariant store.orderItems == old(store.orderItems) + ItemRows(orderId, items[..j], old(store.nextOrderItemId))
      invariant store.nextUserId == old(store.nextUserId) && store.nextOrderId == old(store.nextOrderId)
      invariant store.nextOrderItemId == old(store.nextOrderItemId) + j
      invariant forall k :: 0 <= k < j ==> ProductExists(store.products, items[k].productId)
    {
      ghost var rows := store.orderItems;
      var created := store.CreateOrderItem(InsertOrderItem(orderId, items[j].productId, items[j].price));
      if created.None? {
        assert !ProductExists(old(store.products), items[j].productId);
        FirstMissingIsFirst(old(store.products), items, j);
        assert store.orderItems == rows;
        return false;
      }
      assert items[..j + 1] == items[..j] + [items[j]];
      assert ItemRows(orderId, items[..j + 1], old(store.nextOrderItemId)) ==
             ItemRows(orderId, items[..j], old(store.nextOrderItemId)) + [created.value];
      j := j + 1;
    }
    assert items[..j] == items;
    FirstMissingIsFirst(old(store.products), items, |items|);
    return true;
  }

  /** The read side returns every row checkout wrote for an order, and only those. */
  lemma {:induction false} ItemRowsAllOfOrder(orderId: nat, items: seq<CartItem>, firstId: nat)
    ensures ItemsOf(ItemRows(orderId, items, firstId), orderId) == ItemRows(orderId, items, firstId)
  {
    if items != [] {
      var rows := ItemRows(orderId, items, firstId);
      assert rows[1..] == ItemRows(orderId, items[1..], firstId + 1);
      ItemRowsAllOfOrder(orderId, items[1..], firstId + 1);
    }
  }

  /** The rows checkout writes carry the items' prices, so their prices sum to the cart total. */
  lemma {:induction false} ItemRowsSum(orderId: nat, items: seq<CartItem>, firstId: nat)
    ensures SumItemPrices(ItemRows(orderId, items, firstId)) == SumPrices(items)
  {
    if items != [] {
      var rows := ItemRows(orderId, items, firstId);
      assert rows[1..] == ItemRows(orderId, items[1..], firstId + 1);
      ItemRowsSum(orderId, items[1..], firstId + 1);
    }
  }

  /** No row references an order id that has not been allocated yet. */
  lemma {:induction false} NoItemsOfFreshOrder(items: seq<OrderItem>, orders: seq<Order>, users: seq<User>,
                                               products: seq<Product>, nextOrderId: nat, nextItemId: nat)
    requires OrdersWellFormed(orders, users, nextOrderId)
    requires OrderItemsWellFormed(items, orders, products, nextItemId)
    ensures ItemsOf(items, nextOrderId) == []
  {
    if items != [] {
      var k :| 0 <= k < |orders| && orders[k].id == items[0].orderId;
      assert items[0].orderId < nextOrderId;
      assert OrderItemsWellFormed(items[1..], orders, products, nextItemId) by {
        forall i, j | 0 <= i < j < |items[1..]| ensures items[1..][i].id < items[1..][j].id {
          assert items[1..][i] == items[i + 1] && items[1..][j] == items[j + 1];
        }
      }
      NoItemsOfFreshOrder(items[1..], orders, users, products, nextOrderId, nextItemId);
    }
  }

  /** The order checkout writes is consistent with its items: reading the order back (the items
      with its id) gives exactly the rows written for the cart, and their prices sum to the
      order's totalAmount, whatever the tables held before. */
  lemma CheckoutOrderTotal(users: seq<User>, products: seq<Product>, orders: seq<Order>, items: seq<OrderItem>,
                           nextOrderId: nat, nextItemId: nat, cart: seq<CartItem>)
    requires OrdersWellFormed(orders, users, nextOrderId)
    requires OrderItemsWellFormed(items, orders, products, nextItemId)
    ensures var rows := ItemRows(nextOrderId, cart, nextItemId);
      ItemsOf(items + rows, nextOrderId) == rows &&
      SumItemPrices(ItemsOf(items + rows, nextOrderId)) == SumPrices(cart)
  {
    var rows := ItemRows(nextOrderId, cart, nextItemId);
    ItemsOfAppend(items, rows, nextOrderId);
    NoItemsOfFreshOrder(items, orders, users, products, nextOrderId, nextItemId);
    ItemRowsAllOfOrder(nextOrderId, cart, nextItemId);
    ItemRowsSum(nextOrderId, cart, nextItemId);
  }

  /** FirstMissingProduct is the first index that misses: any j with all earlier products
      present and j itself missing (or past the end) is that index. */
  lemma {:induction false} FirstMissingIsFirst(products: seq<Product>, items: seq<CartItem>, j: nat)
    requires j <= |items|
    requires forall i :: 0 <= i < j ==> ProductExists(products, items[i].productId)
    requires j < |items| ==> !ProductExists(products, items[j].productId)
    ensures FirstMissingProduct(products, items) == j
  {
  }
}
