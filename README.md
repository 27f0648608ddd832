# DigitalMarketplace order placement, access gates and cart, in Dafny

This project models the part of the DigitalMarketplace storefront that carries logic rather than
presentation:

- the server's access gates (`isAuthenticated`, `isAdmin`);
- login with the local strategy's plaintext credential check;
- registration with its username-then-email uniqueness checks;
- the order reads with the owner-or-admin rule;
- checkout (`POST /api/orders`): validate every cart item, sum the prices, write one order with
  status `"completed"`, then one order item per cart item;
- the client cart (`addToCart`, `removeFromCart`, `clearCart`, `totalItems`, `totalPrice`);
- the pure helpers `getProductBadge`, `truncateText` and the `discountPrice || price` rule;
- the shared schema: record shapes, column defaults, unique and foreign-key constraints, and the
  `cartItemSchema` validator.

Files:

- `schema.dfy` (module `Schema`): the rows, the insert shapes and their defaults, the
  constraints of each table as predicates, and the two zod parsers (`ParseInsertUser`,
  `ParseCartItem`) over a `Json` datatype.
- `store.dfy` (module `Store`): the `storage` collaborator as a class `Storage`. It holds the
  four tables as sequences. It allocates serial ids from three counters, one each for users,
  orders and order items; products are only read, so they have none. Its `Valid()` invariant is
  the schema's constraints. Like the PostgreSQL database behind it, it refuses an insert that
  would break a unique or foreign-key constraint. A refused insert leaves every table as it was.
  Its table's counter still advances, because the serial default has already drawn the id and a
  sequence is never rolled back.
- `routes.dfy` (module `Routes`): the gates as functions and the handlers as methods over a
  `Storage`. A request is reduced to the session user (`Option<User>`) and the parsed body or
  path parameter.
- `cart.dfy` (module `Cart`): the cart context as a class `ShoppingCart`. Its `Valid()` invariant
  is that no two items share a `productId`.
- `utils.dfy` (module `Utils`): the badge, truncation and effective-price helpers.
- `checkout.dfy` (module `CheckoutFlow`): where the client meets the server. The body the
  checkout page posts for a cart passes the checkout route's validation.
- `scenarios.dfy` (module `Scenarios`): runs that follow from the contracts alone:
  - register alice, log her in without a password and then with it, and register her again;
  - a two-item checkout;
  - the admin-only order list.

Prices, and every other JSON number, are integers in the smallest currency unit.

Checkout is not atomic. The order row is written before its items, and nothing rolls it back.
The `product_id` foreign key makes the database refuse an item whose product does not exist. In
that case the handler answers 400, but the order and the items written before it stay stored.
The refused row still uses up its serial id.
`PlaceOrder` states this outcome exactly (`FirstMissingProduct` is the index where writing stops).

## Model

| member | source | states |
|---|---|---|
| Routes.IsAuthenticated | server/routes.ts:67-72 | proceeds with the session user iff there is one; otherwise the response is 401 "Unauthorized" |
| Routes.IsAdmin | server/routes.ts:74-79 | proceeds iff there is a session user whose admin flag is set; otherwise 403 "Forbidden" |
| Routes.AdminGateImpliesAuthenticated | server/routes.ts:67-79 | every caller the admin gate admits is admitted by the authentication gate too, with the same user |
| Routes.AdminGateIndistinguishable | server/routes.ts:74-79 | an anonymous caller and a signed-in non-admin get the identical 403 "Forbidden" |
| Routes.VerifyCredentials | server/routes.ts:37-51 | accepts iff a user was found and the password is exactly the stored one; "Incorrect username." when none was found, "Incorrect password." otherwise |
| Routes.Login | server/routes.ts:82-102 | 401 "Missing credentials" with no session when the username or password is missing or empty; the local strategy answers this before the verify callback runs. Otherwise: 401 "Incorrect username." when no stored user has the username; 401 "Incorrect password." when one has it but no stored user has exactly these credentials; else 200 with that user (no password field exists in the reply) and a new session |
| Routes.CurrentUser | server/routes.ts:145-156 | 401 "Not authenticated" without a session user, else 200 with the user minus the password |
| Routes.Register | server/routes.ts:104-137 | 400 for a body insertUserSchema rejects, then 400 "Username already exists", then 400 "Email already exists", each with the store unchanged; otherwise the user is appended with the next id and isAdmin defaulting to false, logged in, and returned with 201 |
| Routes.ListOrders | server/routes.ts:255-262 | 403 unless the admin gate admits the caller; otherwise 200 with every order |
| Routes.ListUserOrders | server/routes.ts:264-272 | 401 without a session user; otherwise 200 with the caller's orders in table order (OrdersOf: an order is listed iff it is stored and its userId is the caller's id) |
| Routes.CanViewOrder | server/routes.ts:283-287 | a caller may read an order iff the admin gate would admit them or they own the order |
| Routes.GetOrderById | server/routes.ts:274-298 | 401 without a session user; 404 when no order has the id; 403 when the caller is neither an admin nor the order's owner; otherwise 200 with the order and exactly its items |
| Routes.OrderIdsUnique | shared/schema.ts:64-65 | order ids are unique, so the order found by id is the only one with that id |
| Routes.CartField | server/routes.ts:302-305 | the body's items when they are a non-empty array; nothing (the "Cart is empty" case) iff the body has no items, they are not an array, or the array is empty |
| Routes.ValidateAll | server/routes.ts:308-316 | succeeds iff every item passes cartItemSchema, and then yields each item's parse, in order |
| Routes.ValidateCart | server/routes.ts:308-316 | the validation loop returns the parsed items, or fails at the first invalid item, exactly as ValidateAll |
| Routes.ItemRows | server/routes.ts:331-339 | one row per item, in order, with consecutive ids, the order's id and the item's productId and price |
| Routes.FirstMissingProduct | shared/schema.ts:82 | the index of the first item whose product does not exist: every earlier product exists and that one does not |
| Routes.FirstMissingIsFirst | shared/schema.ts:82 | any index with all earlier products present and its own product missing is FirstMissingProduct |
| Routes.WriteOrderItems | server/routes.ts:330-339 | writes the rows of the items in order up to the first missing product; reports success iff none is missing; the refused row uses up one more item id; keeps the store's constraints |
| Routes.PlaceOrder | server/routes.ts:300-345 | 401 anonymous, 400 "Cart is empty", 400 "Invalid cart item", each writing nothing; otherwise exactly one order for the caller with the summed prices and status "completed", then the item rows in submission order, and 201 with the order (400 with the rows before a missing product kept and the refused row's id used up) |
| Routes.ItemRowsAllOfOrder | server/routes.ts:331-339 | reading an order's items back from the rows written for it gives exactly those rows |
| Routes.ItemRowsSum | server/routes.ts:319-339 | the rows written for an order carry prices that sum to the cart total |
| Routes.NoItemsOfFreshOrder | shared/schema.ts:81 | no stored item references the order id about to be allocated |
| Routes.CheckoutOrderTotal | server/routes.ts:319-339 | after checkout, the items read back for the new order are exactly the rows written and their prices sum to its totalAmount |
| Store.Storage.GetUserByUsername | server/routes.ts:39 | returns a stored user with exactly that username, or nothing iff no stored user has it |
| Store.Storage.GetUserByEmail | server/routes.ts:114 | returns a stored user with exactly that email, or nothing iff no stored user has it |
| Store.Storage.CreateUser | shared/schema.ts:6-13 | refuses iff the username or the email is taken, leaving the tables as they were but using up the serial id; otherwise appends the user with the next serial id and the defaults; keeps every constraint |
| Store.Storage.GetOrder | server/routes.ts:277 | returns a stored order with that id, or nothing iff none has it |
| Store.Storage.GetOrdersByUser | server/routes.ts:267 | the user's orders in table order |
| Store.Storage.GetOrderItems | server/routes.ts:289 | the order's items in table order |
| Store.Storage.CreateOrder | shared/schema.ts:64-70 | refuses iff user_id names no user, leaving the tables as they were but using up the serial id; otherwise appends the order with the next id and the status default; keeps every constraint |
| Store.Storage.CreateOrderItem | shared/schema.ts:79-84 | refuses iff order_id names no order or product_id no product, leaving the tables as they were but using up the serial id; otherwise appends the row with the next id; keeps every constraint |
| Schema.NewUser | shared/schema.ts:6-20 | the stored user keeps the inserted fields; isAdmin is false when omitted and the supplied value otherwise |
| Schema.ParseInsertUser | shared/schema.ts:15-20 | accepts iff username, password and email are strings and isAdmin is absent or a boolean, and keeps exactly those values |
| Schema.UsersAppend | shared/schema.ts:8-10 | appending a user whose username and email are free keeps ids increasing and username and email unique |
| Schema.NewProduct | shared/schema.ts:35-61 | featured and popular default to false, active to true; categoryId and discountPrice stay null when omitted |
| Schema.NewOrder | shared/schema.ts:64-76 | status defaults to "completed"; userId and totalAmount are kept |
| Schema.OrdersAppend | shared/schema.ts:65-66 | appending an order whose user exists keeps ids increasing and every order referencing a user |
| Schema.OrderItemsAppend | shared/schema.ts:80-83 | appending a row whose order and product exist keeps every row referencing an order and a product |
| Schema.OrdersOf | server/routes.ts:267 | an order is in the result iff it is stored and belongs to the user |
| Schema.ItemsOf | server/routes.ts:289 | a row is in the result iff it is stored and belongs to the order |
| Schema.ItemsOfAppend | server/routes.ts:289 | reading items is compositional over the table: the items of a+b are those of a then those of b |
| Schema.ParseCartItem | shared/schema.ts:93-99 | accepts iff numeric productId and price, string title and imageUrl, and categoryName absent or a string; the result is the input restricted to those keys |
| Schema.ParseEncodeRoundTrip | shared/schema.ts:93-99 | a cart item serialised as JSON parses back to itself |
| Schema.SumPrices | server/routes.ts:319 | the reduce of the item prices from 0: 0 for no items; with no negative price, non-negative and at least every single item's price |
| Schema.SumPricesAppend | client/src/contexts/CartContext.tsx:24 | the price sum of a+b is the sum of a plus the sum of b |
| Schema.ToPublic | server/routes.ts:94-99 | the user as the auth routes reply with it: id, username, email and isAdmin, the same at routes.ts:127-132 and 148-153 |
| Schema.ToPublicHidesOnlyPassword | server/routes.ts:94-99 | two users get the same reply iff they differ at most in their passwords, so the reply reveals nothing of the password |
| Cart.ShoppingCart.AddToCart | client/src/contexts/CartContext.tsx:43-64 | a product already in the cart changes nothing; otherwise the item is appended, the drawer opens and the total rises by its price; ids stay unique |
| Cart.ShoppingCart.RemoveFromCart | client/src/contexts/CartContext.tsx:66-74 | the cart becomes the filter of the product out of it; an absent product changes nothing; the total falls by the removed item's price |
| Cart.ShoppingCart.ClearCart | client/src/contexts/CartContext.tsx:76-78 | the cart is empty |
| Cart.ShoppingCart.SetIsCartOpen | client/src/contexts/CartContext.tsx:20 | the drawer flag takes the given value and the items stay |
| Cart.ShoppingCart.TotalPrice | client/src/contexts/CartContext.tsx:24 | the sum of the item prices, the same reduce checkout uses for totalAmount; 0 for an empty cart; with no negative price, at least every single item's price |
| Cart.ShoppingCart.TotalItems | client/src/contexts/CartContext.tsx:23 | the item count is the number of distinct products in the cart |
| Cart.WithoutProduct | client/src/contexts/CartContext.tsx:67 | an item is kept iff it was in the cart and is of another product |
| Cart.WithoutProductAppend | client/src/contexts/CartContext.tsx:67 | filtering distributes over concatenation, so the kept items keep their order |
| Cart.WithoutAbsentProduct | client/src/contexts/CartContext.tsx:67 | removing an absent product leaves the list unchanged |
| Cart.WithoutProductUnique | client/src/contexts/CartContext.tsx:67 | removing keeps the product ids unique |
| Cart.WithoutProductTotal | client/src/contexts/CartContext.tsx:24 | with unique ids, removing the product at position k lowers the sum by exactly its price |
| Cart.UniqueCount | client/src/contexts/CartContext.tsx:23 | with unique ids, the number of distinct products equals the number of items |
| CheckoutFlow.CheckoutAcceptsCart | client/src/pages/checkout.tsx:61-63 | an empty cart is the "Cart is empty" case; a non-empty cart passes validation unchanged, so the order total is the cart's total price |
| Utils.GetProductBadge | client/src/lib/utils.ts:12-30 | discount badge iff the discount is truthy; popular iff no discount and popular; new iff neither and featured; none otherwise |
| Utils.EffectivePrice | client/src/components/products/ProductCard.tsx:22 | the price a card or product page puts in the cart: the discount when it is truthy (non-null and not 0), otherwise the list price |
| Utils.TruncateText | client/src/lib/utils.ts:32-35 | text no longer than maxLength is returned as is; longer text becomes its first maxLength characters (none when negative) followed by "..." |
| Utils.TruncateTextShape | client/src/lib/utils.ts:32-35 | the result has at most maxLength + 3 characters when maxLength is at least 0, and at most 3 when it is negative; it is the text or a prefix of it followed by "..." |
| Utils.NewProductHasNoBadge | client/src/lib/utils.ts:12-30 | a product inserted with the defaults shows no badge |
| Utils.EffectivePriceMatchesBadge | client/src/components/products/ProductCard.tsx:16-22 | a product enters the cart below or above its list price only when its card shows the discount badge |

## Left out

- Floating point: prices, totals and every JSON number are integers. IEEE rounding of the
  `reduce` sums and `formatCurrency` (`toFixed`) are not modelled. `cn` is not modelled.
- JSON numbers that are not integers (a fractional `productId`, NaN, infinities) cannot be
  written in the `Json` datatype.
- String lengths count Unicode scalar values. JavaScript counts UTF-16 code units, so
  `truncateText` cuts text outside the Basic Multilingual Plane at different points.
- Express, passport, express-session and the session store are not modelled. The session user
  is a parameter, and a successful login or registration returns the user it logs in.
  `serializeUser`/`deserializeUser` and logout are not modelled.
- Routes.PlaceOrder: requires the session user to be a stored user. The session middleware
  loads it from storage.
- Failures of the collaborators are not modelled: storage I/O errors (the 500 answers and the
  login `err` path) and a `req.logIn` failure.
- The texts of caught exceptions (zod issues, database errors) are the abstract body `Thrown`.
  A 400 with such a body stands for the handler's `error.message` answer.
- The `storage` module is not part of this model. `Storage` states what its calls return and
  what the database's constraints allow.
- Requests run one at a time. The race between the uniqueness checks and the insert is not
  modelled, and neither are concurrent checkouts.
- `parseInt` of the path parameter is not modelled. The order id is an integer parameter.
- The product and category routes and `getFeaturedProducts` are not part of the core and are
  not modelled. The product table is fixed when the store is created.
- The cart's localStorage persistence and the React state scheduling are not modelled. The
  stale read of `cartItems` inside `addToCart` is not modelled either. Cart operations are
  sequential updates.
- The toasts are not modelled. `AddToCart` returns which of its two toasts would be shown.
- `created_at` timestamps are not modelled.
- Translation strings and all rendering are not modelled.
