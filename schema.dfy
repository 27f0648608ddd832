/**
 * The shared data model of the storefront: the rows of the users, products,
 * orders and order_items tables, the insert shapes with their column
 * defaults, the constraints the database enforces on the tables, and the
 * cart-item validator the checkout relies on.
 *
 * Prices and every other JSON number are integers in the smallest currency
 * unit; the database's double-precision columns are not modelled.
 */
module Schema {

  datatype Option<T> = None | Some(value: T)

  /** A parsed JSON value, as a request body reaches a route handler. */
  datatype Json =
    | JNull
    | JBool(b: bool)
    | JNum(n: int)
    | JStr(s: string)
    | JArr(elems: seq<Json>)
    | JObj(fields: map<string, Json>)

  // ---------------------------------------------------------------- users

  /** A row of the users table (created_at, a clock value, is left out). */
  datatype User = User(id: nat, username: string, password: string, email: string, isAdmin: bool)

  /** The fields insertUserSchema picks; isAdmin may be omitted. */
  datatype InsertUser = InsertUser(username: string, password: string, email: string, isAdmin: Option<bool>)

  /** What the server sends back about a user: every column but the password. */
  datatype PublicUser = PublicUser(id: nat, username: string, email: string, isAdmin: bool)

  /** The row the database stores for an insert given the serial id it allocates. */
  function NewUser(id: nat, data: InsertUser): (u: User)
    ensures u.id == id && u.username == data.username && u.password == data.password && u.email == data.email
    ensures data.isAdmin.None? ==> !u.isAdmin
    ensures data.isAdmin.Some? ==> u.isAdmin == data.isAdmin.value
  {
    User(id, data.username, data.password, data.email,
         match data.isAdmin case None => false case Some(a) => a)
  }

  /** insertUserSchema.parse: an object whose username, password and email are strings and
      whose isAdmin is absent or a boolean; other keys are dropped. */
  function ParseInsertUser(v: Json): (r: Option<InsertUser>)
    ensures r.Some? <==>
      v.JObj? && IsStringField(v.fields, "username") && IsStringField(v.fields, "password") &&
      IsStringField(v.fields, "email") && ("isAdmin" !in v.fields || v.fields["isAdmin"].JBool?)
    ensures r.Some? ==>
      r.value.username == v.fields["username"].s && r.value.password == v.fields["password"].s &&
      r.value.email == v.fields["email"].s &&
      r.value.isAdmin == (if "isAdmin" in v.fields then Some(v.fields["isAdmin"].b) else None)
  {
    match v
    case JObj(f) =>
      if IsStringField(f, "username") && IsStringField(f, "password") && IsStringField(f, "email") &&
         ("isAdmin" !in f || f["isAdmin"].JBool?)
      then Some(InsertUser(f["username"].s, f["password"].s, f["email"].s,
                           if "isAdmin" in f then Some(f["isAdmin"].b) else None))
      else None
    case _ => None
  }

  /** The user as the auth routes reply with it: every column but the password. */
  function ToPublic(u: User): (r: PublicUser)
    ensures r.id == u.id && r.username == u.username && r.email == u.email && r.isAdmin == u.isAdmin
  {
    PublicUser(u.id, u.username, u.email, u.isAdmin)
  }

  /** The reply reveals nothing of the password: two users get the same reply iff they differ at
      most in their passwords. */
  lemma ToPublicHidesOnlyPassword(u: User, v: User)
    ensures ToPublic(u) == ToPublic(v) <==> u.(password := v.password) == v
  {
  }

  predicate UsernameTaken(users: seq<User>, username: string) {
    exists i :: 0 <= i < |users| && users[i].username == username
  }

  predicate EmailTaken(users: seq<User>, email: string) {
    exists i :: 0 <= i < |users| && users[i].email == email
  }

  predicate UserExists(users: seq<User>, id: int) {
    exists i :: 0 <= i < |users| && users[i].id == id
  }

  /** Serial ids below the next one to allocate, in allocation order; username and email unique. */
  ghost predicate UsersWellFormed(users: seq<User>, nextId: nat) {
    1 <= nextId &&
    (forall i :: 0 <= i < |users| ==> 1 <= users[i].id < nextId) &&
    (forall i, j :: 0 <= i < j < |users| ==> users[i].id < users[j].id) &&
    (forall i, j :: 0 <= i < j < |users| ==> users[i].username != users[j].username) &&
    (forall i, j :: 0 <= i < j < |users| ==> users[i].email != users[j].email)
  }

  /** Appending the next user keeps the users table well formed when the username and email are free. */
  lemma UsersAppend(users: seq<User>, nextId: nat, u: User)
    requires UsersWellFormed(users, nextId) && u.id == nextId
    requires !UsernameTaken(users, u.username) && !EmailTaken(users, u.email)
    ensures UsersWellFormed(users + [u], nextId + 1)
  {
  }

  /** A user that exists still exists after more users are appended. */
  lemma UserExistsGrow(users: seq<User>, more: seq<User>, id: int)
    requires UserExists(users, id)
    ensures UserExists(users + more, id)
  {
    var k :| 0 <= k < |users| && users[k].id == id;
    assert (users + more)[k] == users[k];
  }

  // ------------------------------------------------------------- products

  /** A row of the products table (created_at left out). */
  datatype Product = Product(
    id: nat, title: string, description: string, price: int, imageUrl: string, fileUrl: string,
    categoryId: Option<nat>, featured: bool, popular: bool, discountPrice: Option<int>, active: bool)

  /** The fields insertProductSchema picks; the nullable and defaulted ones may be omitted. */
  datatype InsertProduct = InsertProduct(
    title: string, description: string, price: int, imageUrl: string, fileUrl: string,
    categoryId: Option<nat>, featured: Option<bool>, popular: Option<bool>,
    discountPrice: Option<int>, active: Option<bool>)

  /** The row stored for a product insert: featured and popular default to false, active to true. */
  function NewProduct(id: nat, data: InsertProduct): (p: Product)
    ensures p.id == id && p.title == data.title && p.price == data.price
    ensures p.categoryId == data.categoryId && p.discountPrice == data.discountPrice
    ensures p.featured == (data.featured.Some? && data.featured.value)
    ensures p.popular == (data.popular.Some? && data.popular.value)
    ensures p.active == (data.active.None? || data.active.value)
  {
    Product(id, data.title, data.description, data.price, data.imageUrl, data.fileUrl, data.categoryId,
            match data.featured case None => false case Some(f) => f,
            match data.popular case None => false case Some(p) => p,
            data.discountPrice,
            match data.active case None => true case Some(a) => a)
  }

  predicate ProductExists(products: seq<Product>, id: int) {
    exists i :: 0 <= i < |products| && products[i].id == id
  }

  // --------------------------------------------------------------- orders

  /** A row of the orders table (created_at left out). */
  datatype Order = Order(id: nat, userId: nat, totalAmount: int, status: string)

  /** The fields insertOrderSchema picks; status may be omitted. */
  datatype InsertOrder = InsertOrder(userId: nat, totalAmount: int, status: Option<string>)

  const Completed: string := "completed"

  /** The row stored for an order insert: status defaults to "completed". */
  function NewOrder(id: nat, data: InsertOrder): (o: Order)
    ensures o.id == id && o.userId == data.userId && o.totalAmount == data.totalAmount
    ensures data.status.None? ==> o.status == Completed
    ensures data.status.Some? ==> o.status == data.status.value
  {
    Order(id, data.userId, data.totalAmount, match data.status case None => Completed case Some(s) => s)
  }

  predicate OrderExists(orders: seq<Order>, id: int) {
    exists i :: 0 <= i < |orders| && orders[i].id == id
  }

  /** Serial ids in allocation order, and user_id references an existing user. */
  ghost predicate OrdersWellFormed(orders: seq<Order>, users: seq<User>, nextId: nat) {
    1 <= nextId &&
    (forall i :: 0 <= i < |orders| ==> 1 <= orders[i].id < nextId) &&
    (forall i, j :: 0 <= i < j < |orders| ==> orders[i].id < orders[j].id) &&
    (forall i :: 0 <= i < |orders| ==> UserExists(users, orders[i].userId))
  }

  /** Appending the next order keeps the orders table well formed when its user exists. */
  lemma OrdersAppend(orders: seq<Order>, users: seq<User>, nextId: nat, o: Order)
    requires OrdersWellFormed(orders, users, nextId) && o.id == nextId
    requires UserExists(users, o.userId)
    ensures OrdersWellFormed(orders + [o], users, nextId + 1)
  {
  }

  /** Orders that reference users keep doing so when more users are appended. */
  lemma OrdersWellFormedMoreUsers(orders: seq<Order>, users: seq<User>, more: seq<User>, nextId: nat)
    requires OrdersWellFormed(orders, users, nextId)
    ensures OrdersWellFormed(orders, users + more, nextId)
  {
    forall i | 0 <= i < |orders| ensures UserExists(users + more, orders[i].userId) {
      UserExistsGrow(users, more, orders[i].userId);
    }
  }

  /** An order that exists still exists after more orders are appended. */
  lemma OrderExistsGrow(orders: seq<Order>, more: seq<Order>, id: int)
    requires OrderExists(orders, id)
    ensures OrderExists(orders + more, id)
  {
    var k :| 0 <= k < |orders| && orders[k].id == id;
    assert (orders + more)[k] == orders[k];
  }

  /** The orders of one user, in table order. */
  function OrdersOf(orders: seq<Order>, userId: nat): (r: seq<Order>)
    ensures |r| <= |orders|
    ensures forall o :: o in r <==> o in orders && o.userId == userId
  {
    if orders == [] then []
    else (if orders[0].userId == userId then [orders[0]] else []) + OrdersOf(orders[1..], userId)
  }

  // ---------------------------------------------------------- order items

  /** A row of the order_items table. */
  datatype OrderItem = OrderItem(id: nat, orderId: nat, productId: int, price: int)

  datatype InsertOrderItem = InsertOrderItem(orderId: nat, productId: int, price: int)

  /** Serial ids in allocation order; order_id and product_id reference existing rows. */
  ghost predicate OrderItemsWellFormed(items: seq<OrderItem>, orders: seq<Order>, products: seq<Product>, nextId: nat) {
    1 <= nextId &&
    (forall i :: 0 <= i < |items| ==> 1 <= items[i].id < nextId) &&
    (forall i, j :: 0 <= i < j < |items| ==> items[i].id < items[j].id) &&
    (forall i :: 0 <= i < |items| ==> OrderExists(orders, items[i].orderId)) &&
    (forall i :: 0 <= i < |items| ==> ProductExists(products, items[i].productId))
  }

  /** Appending the next item keeps the order_items table well formed when its order and product exist. */
  lemma OrderItemsAppend(items: seq<OrderItem>, orders: seq<Order>, products: seq<Product>, nextId: nat, it: OrderItem)
    requires OrderItemsWellFormed(items, orders, products, nextId) && it.id == nextId
    requires OrderExists(orders, it.orderId) && ProductExists(products, it.productId)
    ensures OrderItemsWellFormed(items + [it], orders, products, nextId + 1)
  {
  }

  /** Items that reference orders keep doing so when more orders are appended. */
  lemma OrderItemsWellFormedMoreOrders(items: seq<OrderItem>, orders: seq<Order>, more: seq<Order>, products: seq<Product>, nextId: nat)
    requires OrderItemsWellFormed(items, orders, products, nextId)
    ensures OrderItemsWellFormed(items, orders + more, products, nextId)
  {
    forall i | 0 <= i < |items| ensures OrderExists(orders + more, items[i].orderId) {
      OrderExistsGrow(orders, more, items[i].orderId);
    }
  }

  /** The items of one order, in table order (what the read side returns for an order). */
  function ItemsOf(items: seq<OrderItem>, orderId: nat): (r: seq<OrderItem>)
    ensures |r| <= |items|
    ensures forall it :: it in r <==> it in items && it.orderId == orderId
  {
    if items == [] then []
    else (if items[0].orderId == orderId then [items[0]] else []) + ItemsOf(items[1..], orderId)
  }

  lemma {:induction false} ItemsOfAppend(a: seq<OrderItem>, b: seq<OrderItem>, orderId: nat)
    ensures ItemsOf(a + b, orderId) == ItemsOf(a, orderId) + ItemsOf(b, orderId)
  {
    if a == [] {
      assert a + b == b;
    } else {
      assert (a + b)[1..] == a[1..] + b;
      ItemsOfAppend(a[1..], b, orderId);
    }
  }

  lemma {:induction false} OrdersOfAppend(a: seq<Order>, b: seq<Order>, userId: nat)
    ensures OrdersOf(a + b, userId) == OrdersOf(a, userId) + OrdersOf(b, userId)
  {
    if a == [] {
      assert a + b == b;
    } else {
      assert (a + b)[1..] == a[1..] + b;
      OrdersOfAppend(a[1..], b, userId);
    }
  }

  function SumItemPrices(items: seq<OrderItem>): int {
    if items == [] then 0 else items[0].price + SumItemPrices(items[1..])
  }

  // ----------------------------------------------------------- cart items

  /** A cart line item as cartItemSchema parses it (unknown keys dropped). */
  datatype CartItem = CartItem(productId: int, title: string, price: int, imageUrl: string, categoryName: Option<string>)

  /** The sum of the items' prices, starting from 0 (the reduce used by the cart and by checkout). */
  function SumPrices(items: seq<CartItem>): (r: int)
    ensures items == [] ==> r == 0
    ensures (forall i :: 0 <= i < |items| ==> items[i].price >= 0) ==>
      0 <= r && forall i :: 0 <= i < |items| ==> items[i].price <= r
  {
    if items == [] then 0 else items[0].price + SumPrices(items[1..])
  }

  lemma {:induction false} SumPricesAppend(a: seq<CartItem>, b: seq<CartItem>)
    ensures SumPrices(a + b) == SumPrices(a) + SumPrices(b)
  {
    if a == [] {
      assert a + b == b;
    } else {
      assert (a + b)[1..] == a[1..] + b;
      SumPricesAppend(a[1..], b);
    }
  }

  predicate IsNumberField(f: map<string, Json>, key: string) {
    key in f && f[key].JNum?
  }

  predicate IsStringField(f: map<string, Json>, key: string) {
    key in f && f[key].JStr?
  }

  /** zod's `.optional()`: absent (undefined) or of the type; null is not accepted. */
  predicate IsOptionalStringField(f: map<string, Json>, key: string) {
    key !in f || f[key].JStr?
  }

  /** The keys cartItemSchema knows. */
  const CartItemKeys: set<string> := {"productId", "title", "price", "imageUrl", "categoryName"}

  /** How a cart item travels as JSON: JSON.stringify omits an undefined categoryName. */
  function EncodeCartItem(c: CartItem): (v: Json)
    ensures v.JObj? && v.fields.Keys <= CartItemKeys
  {
    var base := map["productId" := JNum(c.productId), "title" := JStr(c.title), "price" := JNum(c.price),
                    "imageUrl" := JStr(c.imageUrl)];
    JObj(match c.categoryName case None => base case Some(n) => base["categoryName" := JStr(n)])
  }

  /** cartItemSchema.parse: succeeds exactly when the value is an object with numeric productId
      and price, string title and imageUrl, and a categoryName that is absent or a string. */
  function ParseCartItem(v: Json): (r: Option<CartItem>)
    ensures r.Some? <==>
      v.JObj? && IsNumberField(v.fields, "productId") && IsStringField(v.fields, "title") &&
      IsNumberField(v.fields, "price") && IsStringField(v.fields, "imageUrl") &&
      IsOptionalStringField(v.fields, "categoryName")
    ensures r.Some? ==> EncodeCartItem(r.value) == JObj(v.fields - (v.fields.Keys - CartItemKeys))
  {
    match v
    case JObj(f) =>
      if IsNumberField(f, "productId") && IsStringField(f, "title") && IsNumberField(f, "price") &&
         IsStringField(f, "imageUrl") && IsOptionalStringField(f, "categoryName")
      then
        var c := CartItem(f["productId"].n, f["title"].s, f["price"].n, f["imageUrl"].s,
                          if "categoryName" in f then Some(f["categoryName"].s) else None);
        assert EncodeCartItem(c).fields == f - (f.Keys - CartItemKeys);
        Some(c)
      else None
    case _ => None
  }

  /** What a client sends always passes the validator and parses back to itself. */
  lemma ParseEncodeRoundTrip(c: CartItem)
    ensures ParseCartItem(EncodeCartItem(c)) == Some(c)
  {
  }
}
