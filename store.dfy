/**
 * The persistence collaborator the server routes call (`storage`): four
 * tables held as sequences, with serial ids allocated by one sequence
 * counter for each of the users, orders and order_items tables (products
 * are only read here, so they get none). Like the PostgreSQL database
 * behind it, the store refuses an insert that would break a unique or
 * foreign-key constraint of the schema and reports it as None (the
 * database throws). A refused insert leaves every table as it was, but
 * the serial default has already drawn its id by then and a sequence is
 * never rolled back, so the table's counter still advances.
 */
module Store {
  import opened Schema

  class Storage {
    var users: seq<User>
    var products: seq<Product>
    var orders: seq<Order>
    var orderItems: seq<OrderItem>
    var nextUserId: nat
    var nextOrderId: nat
    var nextOrderItemId: nat

    /** The constraints the schema declares hold of every table. */
    ghost predicate Valid()
      reads this
    {
      UsersWellFormed(users, nextUserId) &&
      OrdersWellFormed(orders, users, nextOrderId) &&
      OrderItemsWellFormed(orderItems, orders, products, nextOrderItemId)
    }

    /** A database holding the given product catalogue and nothing else. */
    constructor (catalogue: seq<Product>)
      ensures Valid()
      ensures products == catalogue && users == [] && orders == [] && orderItems == []
      ensures nextUserId == 1 && nextOrderId == 1 && nextOrderItemId == 1
    {
      users, products, orders, orderItems := [], catalogue, [], [];
      nextUserId, nextOrderId, nextOrderItemId := 1, 1, 1;
    }

    /** getUserByUsername: the user with exactly this username, if any. */
    method GetUserByUsername(username: string) returns (r: Option<User>)
      ensures r.Some? ==> r.value in users && r.value.username == username
      ensures r.None? <==> !UsernameTaken(users, username)
    {
      var i := 0;
      while i < |users|
        invariant 0 <= i <= |users|
        invariant forall k :: 0 <= k < i ==> users[k].username != username
      {
        if users[i].username == username {
          return Some(users[i]);
        }
        i := i + 1;
      }
      return None;
    }

    /** getUserByEmail: the user with exactly this email, if any. */
    method GetUserByEmail(email: string) returns (r: Option<User>)
      ensures r.Some? ==> r.value in users && r.value.email == email
      ensures r.None? <==> !EmailTaken(users, email)
    {
      var i := 0;
      while i < |users|
        invariant 0 <= i <= |users|
        invariant forall k :: 0 <= k < i ==> users[k].email != email
      {
        if users[i].email == email {
          return Some(users[i]);
        }
        i := i + 1;
      }
      return None;
    }

    /** createUser: inserts a row with the next serial id and the column defaults,
        unless the username or the email is already stored; the id is used up either way. */
    method CreateUser(data: InsertUser) returns (r: Option<User>)
      requires Valid()
      modifies this
      ensures Valid()
      ensures r.None? <==> UsernameTaken(old(users), data.username) || EmailTaken(old(users), data.email)
      ensures r.None? ==>
        users == old(users) && nextUserId == old(nextUserId) + 1 &&
        products == old(products) && orders == old(orders) && orderItems == old(orderItems) &&
        nextOrderId == old(nextOrderId) && nextOrderItemId == old(nextOrderItemId)
      ensures r.Some? ==>
        r.value == NewUser(old(nextUserId), data) &&
        users == old(users) + [r.value] && nextUserId == old(nextUserId) + 1 &&
        products == old(products) && orders == old(orders) && orderItems == old(orderItems) &&
        nextOrderId == old(nextOrderId) && nextOrderItemId == old(nextOrderItemId)
    {
      if UsernameTaken(users, data.username) || EmailTaken(users, data.email) {
        nextUserId := nextUserId + 1;
        return None;
      }
      var u := NewUser(nextUserId, data);
      UsersAppend(users, nextUserId, u);
      OrdersWellFormedMoreUsers(orders, users, [u], nextOrderId);
      users := users + [u];
      nextUserId := nextUserId + 1;
      return Some(u);
    }

    /** getOrder: the order with this id, if any. */
    method GetOrder(id: int) returns (r: Option<Order>)
      ensures r.Some? ==> r.value in orders && r.value.id == id
      ensures r.None? <==> !OrderExists(orders, id)
    {
      var i := 0;
      while i < |orders|
        invariant 0 <= i <= |orders|
        invariant forall k :: 0 <= k < i ==> orders[k].id != id
      {
        if orders[i].id == id {
          return Some(orders[i]);
        }
        i := i + 1;
      }
      return None;
    }

    /** getOrdersByUser: the user's orders in table order. */
    method GetOrdersByUser(userId: nat) returns (r: seq<Order>)
      ensures r == OrdersOf(orders, userId)
    {
      r := [];
      var i := 0;
      while i < |orders|
        invariant 0 <= i <= |orders|
        invariant r == OrdersOf(orders[..i], userId)
      {
        assert orders[..i + 1] == orders[..i] + [orders[i]];
        OrdersOfAppend(orders[..i], [orders[i]], userId);
        if orders[i].userId == userId {
          r := r + [orders[i]];
        }
        i := i + 1;
      }
      assert orders[..i] == orders;
    }

    /** getOrderItems: the order's items in table order. */
    method GetOrderItems(orderId: nat) returns (r: seq<OrderItem>)
      ensures r == ItemsOf(orderItems, orderId)
    {
      r := [];
      var i := 0;
      while i < |orderItems|
        invariant 0 <= i <= |orderItems|
        invariant r == ItemsOf(orderItems[..i], orderId)
      {
        assert orderItems[..i + 1] == orderItems[..i] + [orderItems[i]];
        ItemsOfAppend(orderItems[..i], [orderItems[i]], orderId);
        if orderItems[i].orderId == orderId {
          r := r + [orderItems[i]];
        }
        i := i + 1;
      }
      assert orderItems[..i] == orderItems;
    }

    /** createOrder: inserts a row with the next serial id and the status default,
        unless user_id names no user; the id is used up either way. */
    method CreateOrder(data: InsertOrder) returns (r: Option<Order>)
      requires Valid()
      modifies this
      ensures Valid()
      ensures r.None? <==> !UserExists(old(users), data.userId)
      ensures r.None? ==>
        orders == old(orders) && nextOrderId == old(nextOrderId) + 1 &&
        users == old(users) && products == old(products) && orderItems == old(orderItems) &&
        nextUserId == old(nextUserId) && nextOrderItemId == old(nextOrderItemId)
      ensures r.Some? ==>
        r.value == NewOrder(old(nextOrderId), data) &&
        orders == old(orders) + [r.value] && nextOrderId == old(nextOrderId) + 1 &&
        users == old(users) && products == old(products) && orderItems == old(orderItems) &&
        nextUserId == old(nextUserId) && nextOrderItemId == old(nextOrderItemId)
    {
      if !UserExists(users, data.userId) {
        nextOrderId := nextOrderId + 1;
        return None;
      }
      var o := NewOrder(nextOrderId, data);
      OrdersAppend(orders, users, nextOrderId, o);
      OrderItemsWellFormedMoreOrders(orderItems, orders, [o], products, nextOrderItemId);
      orders := orders + [o];
      nextOrderId := nextOrderId + 1;
      return Some(o);
    }

    /** createOrderItem: inserts a row with the next serial id, unless order_id names no
        order or product_id names no product; the id is used up either way. */
    method CreateOrderItem(data: InsertOrderItem) returns (r: Option<OrderItem>)
      requires Valid()
      modifies this
      ensures Valid()
      ensures r.None? <==> !OrderExists(old(orders), data.orderId) || !ProductExists(old(products), data.productId)
      ensures r.None? ==>
        orderItems == old(orderItems) && nextOrderItemId == old(nextOrderItemId) + 1 &&
        users == old(users) && products == old(products) && orders == old(orders) &&
        nextUserId == old(nextUserId) && nextOrderId == old(nextOrderId)
      ensures r.Some? ==>
        r.value == OrderItem(old(nextOrderItemId), data.orderId, data.productId, data.price) &&
        orderItems == old(orderItems) + [r.value] && nextOrderItemId == old(nextOrderItemId) + 1 &&
        users == old(users) && products == old(products) && orders == old(orders) &&
        nextUserId == old(nextUserId) && nextOrderId == old(nextOrderId)
    {
      if !OrderExists(orders, data.orderId) || !ProductExists(products, data.productId) {
        nextOrderItemId := nextOrderItemId + 1;
        return None;
      }
      var it := OrderItem(nextOrderItemId, data.orderId, data.productId, data.price);
      OrderItemsAppend(orderItems, orders, products, nextOrderItemId, it);
      orderItems := orderItems + [it];
      nextOrderItemId := nextOrderItemId + 1;
      return Some(it);
    }
  }
}
