/**
 * Runs of the server handlers that follow only from their contracts: a new
 * user registers and checks out two items, and the admin-only order list
 * is refused to everyone but an admin.
 */
module Scenarios {
  import opened Schema
  import opened Store
  import opened Routes

  function Catalogue(): seq<Product> {
    [Product(1, "A", "", 10, "u", "f", None, false, false, None, true),
     Product(2, "B", "", 5, "u", "f", None, false, false, None, true)]
  }

  function Line(productId: int, title: string, price: int): Json {
    JObj(map["productId" := JNum(productId), "title" := JStr(title), "price" := JNum(price), "imageUrl" := JStr("u")])
  }

  /** alice registers on an empty store and is logged in; a login without a password is refused
      before any lookup, one with her credentials succeeds, and registering her again is refused. */
  method RegisterTwice() {
    var store := new Storage(Catalogue());
    var form := JObj(map["username" := JStr("alice"), "email" := JStr("alice@x.com"), "password" := JStr("secret1")]);
    assert ParseInsertUser(form) == Some(InsertUser("alice", "secret1", "alice@x.com", None));
    var resp, session := Register(store, form);
    var alice := User(1, "alice", "secret1", "alice@x.com", false);
    assert session == Some(alice);
    assert resp == Response(201, UserInfo(PublicUser(1, "alice", "alice@x.com", false)));

    assert UsernameTaken(store.users, "alice") by { assert store.users[0] == alice; }
    assert CredentialsMatch(store.users, "alice", "secret1") by { assert store.users[0] == alice; }
    var noPassword, _ := Login(store, "alice", "");
    assert noPassword == Response(401, Message("Missing credentials"));
    var login, loggedIn := Login(store, "alice", "secret1");
    assert loggedIn == Some(alice) && login.status == 200;

    var again, _ := Register(store, form);
    assert again == Response(400, Message("Username already exists"));
  }

  /** A signed-in user's two-item checkout writes one order of 15 and two rows; an empty cart
      afterwards is refused. */
  method CheckoutTwoItems(store: Storage, user: User)
    requires store.Valid() && user in store.users && store.products == Catalogue()
    modifies store
  {
    var body := JObj(map["items" := JArr([Line(1, "A", 10), Line(2, "B", 5)])]);
    var items := [CartItem(1, "A", 10, "u", None), CartItem(2, "B", 5, "u", None)];
    assert ParseCartItem(Line(1, "A", 10)) == Some(items[0]);
    assert ParseCartItem(Line(2, "B", 5)) == Some(items[1]);
    var raw := [Line(1, "A", 10), Line(2, "B", 5)];
    assert CartField(body) == Some(raw);
    assert ValidateAll(raw) == Some(items) by {
      assert ParseCartItem(raw[0]) == Some(items[0]) && ParseCartItem(raw[1]) == Some(items[1]);
      var v := ValidateAll(raw);
      assert v.Some? && |v.value| == 2;
      assert v.value[0] == items[0] && v.value[1] == items[1];
      assert v.value == items;
    }
    assert ProductExists(Catalogue(), 1) && ProductExists(Catalogue(), 2) by {
      assert Catalogue()[0].id == 1 && Catalogue()[1].id == 2;
    }
    assert FirstMissingProduct(Catalogue(), items) == 2;
    assert items[..2] == items;
    var orderId, itemId := store.nextOrderId, store.nextOrderItemId;
    var placed := PlaceOrder(Some(user), store, body);
    assert placed == Response(201, OrderInfo(Order(orderId, user.id, 15, Completed)));
    assert store.orderItems[|store.orderItems| - 2..] ==
           [OrderItem(itemId, orderId, 1, 10), OrderItem(itemId + 1, orderId, 2, 5)];

    var empty := PlaceOrder(Some(user), store, JObj(map["items" := JArr([])]));
    assert empty == Response(400, Message("Cart is empty"));
  }

  /** The admin-only order list: 403 for an anonymous caller and for a regular user, 200 for an admin. */
  method AdminOrderList(store: Storage) {
    var anonymous := ListOrders(None, store);
    var regular := ListOrders(Some(User(2, "user", "user123", "user@example.com", false)), store);
    var admin := ListOrders(Some(User(1, "admin", "admin123", "admin@example.com", true)), store);
    assert anonymous == regular == Forbidden;
    assert admin == Response(200, OrderList(store.orders));
  }
}
