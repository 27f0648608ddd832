/**
 * The client's shopping cart: a list of cart items in which each product
 * appears at most once, and whether the cart drawer is open. Only
 * AddToCart, RemoveFromCart and ClearCart change the list; the item count
 * and the total price are derived from it.
 */
module Cart {
  import opened Schema

  predicate ContainsProduct(items: seq<CartItem>, productId: int) {
    exists i :: 0 <= i < |items| && items[i].productId == productId
  }

  /** No two items of the list share a productId. */
  ghost predicate UniqueProductIds(items: seq<CartItem>) {
    forall i, j :: 0 <= i < j < |items| ==> items[i].productId != items[j].productId
  }

  ghost function ProductIds(items: seq<CartItem>): set<int> {
    set i | 0 <= i < |items| :: items[i].productId
  }

  /** The list with every item of this product filtered out. */
  function WithoutProduct(items: seq<CartItem>, productId: int): (r: seq<CartItem>)
    ensures forall it :: it in r <==> it in items && it.productId != productId
  {
    if items == [] then []
    else (if items[0].productId == productId then [] else [items[0]]) + WithoutProduct(items[1..], productId)
  }

  /** Filtering distributes over concatenation: the remaining items keep their relative order. */
  lemma {:induction false} WithoutProductAppend(a: seq<CartItem>, b: seq<CartItem>, productId: int)
    ensures WithoutProduct(a + b, productId) == WithoutProduct(a, productId) + WithoutProduct(b, productId)
  {
    if a == [] {
      assert a + b == b;
    } else {
      assert (a + b)[1..] == a[1..] + b;
      WithoutProductAppend(a[1..], b, productId);
    }
  }

  /** Removing a product the list does not hold leaves the list as it was. */
  lemma {:induction false} WithoutAbsentProduct(items: seq<CartItem>, productId: int)
    requires !ContainsProduct(items, productId)
    ensures WithoutProduct(items, productId) == items
  {
    if items != [] {
      assert !ContainsProduct(items[1..], productId) by {
        forall i | 0 <= i < |items[1..]| ensures items[1..][i].productId != productId {
          assert items[1..][i] == items[i + 1];
        }
      }
      WithoutAbsentProduct(items[1..], productId);
    }
  }

  /** Filtering keeps the product ids unique. */
  lemma {:induction false} WithoutProductUnique(items: seq<CartItem>, productId: int)
    requires UniqueProductIds(items)
    ensures UniqueProductIds(WithoutProduct(items, productId))
  {
    if items != [] {
      var rest := items[1..];
      assert UniqueProductIds(rest) by {
        forall i, j | 0 <= i < j < |rest| ensures rest[i].productId != rest[j].productId {
          assert rest[i] == items[i + 1] && rest[j] == items[j + 1];
        }
      }
      WithoutProductUnique(rest, productId);
      var tail := WithoutProduct(rest, productId);
      if items[0].productId != productId {
        var r := [items[0]] + tail;
        forall i, j | 0 <= i < j < |r| ensures r[i].productId != r[j].productId {
          if i == 0 {
            assert r[j] == tail[j - 1] && tail[j - 1] in rest;
            var q :| 0 <= q < |rest| && rest[q] == tail[j - 1];
            assert rest[q] == items[q + 1];
          } else {
            assert r[i] == tail[i - 1] && r[j] == tail[j - 1];
          }
        }
      }
    }
  }

  /** With unique ids, removing the product at position k lowers the total by exactly its price. */
  lemma {:induction false} WithoutProductTotal(items: seq<CartItem>, k: nat)
    requires UniqueProductIds(items) && k < |items|
    ensures SumPrices(WithoutProduct(items, items[k].productId)) == SumPrices(items) - items[k].price
  {
    var pid := items[k].productId;
    assert UniqueProductIds(items[1..]) by {
      forall i, j | 0 <= i < j < |items[1..]| ensures items[1..][i].productId != items[1..][j].productId {
        assert items[1..][i] == items[i + 1] && items[1..][j] == items[j + 1];
      }
    }
    if k == 0 {
      assert WithoutProduct(items, pid) == WithoutProduct(items[1..], pid);
      assert !ContainsProduct(items[1..], pid) by {
        forall i | 0 <= i < |items[1..]| ensures items[1..][i].productId != pid {
          assert items[1..][i] == items[i + 1];
        }
      }
      WithoutAbsentProduct(items[1..], pid);
    } else {
      assert items[1..][k - 1] == items[k];
      assert items[0].productId != pid;
      assert WithoutProduct(items, pid) == [items[0]] + WithoutProduct(items[1..], pid);
      WithoutProductTotal(items[1..], k - 1);
    }
  }

  /** With unique ids the item count is the number of distinct products in the cart. */
  lemma {:induction false} UniqueCount(items: seq<CartItem>)
    requires UniqueProductIds(items)
    ensures |ProductIds(items)| == |items|
  {
    if items != [] {
      var rest := items[1..];
      assert UniqueProductIds(rest) by {
        forall i, j | 0 <= i < j < |rest| ensures rest[i].productId != rest[j].productId {
          assert rest[i] == items[i + 1] && rest[j] == items[j + 1];
        }
      }
      UniqueCount(rest);
      assert ProductIds(items) == {items[0].productId} + ProductIds(rest) by {
        forall x | x in ProductIds(items) ensures x in {items[0].productId} + ProductIds(rest) {
          var i :| 0 <= i < |items| && items[i].productId == x;
          if i > 0 { assert rest[i - 1] == items[i]; }
        }
        forall x | x in ProductIds(rest) ensures x in ProductIds(items) {
          var i :| 0 <= i < |rest| && rest[i].productId == x;
          assert items[i + 1] == rest[i];
        }
      }
      assert items[0].productId !in ProductIds(rest) by {
        forall i | 0 <= i < |rest| ensures rest[i].productId != items[0].productId {
          assert rest[i] == items[i + 1];
        }
      }
    }
  }

  class ShoppingCart {
    var cartItems: seq<CartItem>
    var isCartOpen: bool

    ghost predicate Valid()
      reads this
    {
      UniqueProductIds(cartItems)
    }

    /** An empty, closed cart. */
    constructor ()
      ensures Valid() && cartItems == [] && !isCartOpen
    {
      cartItems, isCartOpen := [], false;
    }

    /** totalItems: the number of items, which is the number of distinct products. */
    function TotalItems(): (n: nat)
      reads this
      requires Valid()
      ensures n == |ProductIds(cartItems)|
    {
      UniqueCount(cartItems);
      |cartItems|
    }

    /** totalPrice: the sum of the item prices, 0 for an empty cart; with no negative price it
        is at least every single item's price. It is the same reduce checkout uses for an
        order's totalAmount. */
    function TotalPrice(): (t: int)
      reads this
      ensures t == SumPrices(cartItems)
      ensures cartItems == [] ==> t == 0
      ensures (forall i :: 0 <= i < |cartItems| ==> cartItems[i].price >= 0) ==>
        0 <= t && forall i :: 0 <= i < |cartItems| ==> cartItems[i].price <= t
    {
      SumPrices(cartItems)
    }

    /** addToCart: an item whose product is already in the cart changes nothing; any other item
        is appended and the drawer opens. Reports which of the two happened. */
    method AddToCart(item: CartItem) returns (added: bool)
      requires Valid()
      modifies this
      ensures Valid()
      ensures added <==> !ContainsProduct(old(cartItems), item.productId)
      ensures !added ==> cartItems == old(cartItems) && isCartOpen == old(isCartOpen)
      ensures added ==> cartItems == old(cartItems) + [item] && isCartOpen
      ensures added ==> TotalPrice() == old(TotalPrice()) + item.price
    {
      if ContainsProduct(cartItems, item.productId) {
        return false;
      }
      SumPricesAppend(cartItems, [item]);
      cartItems := cartItems + [item];
      isCartOpen := true;
      return true;
    }

    /** removeFromCart: drops every item of the product and keeps the others in order. */
    method RemoveFromCart(productId: int)
      requires Valid()
      modifies this
      ensures Valid()
      ensures cartItems == WithoutProduct(old(cartItems), productId) && isCartOpen == old(isCartOpen)
      ensures !ContainsProduct(old(cartItems), productId) ==> cartItems == old(cartItems)
      ensures forall k :: 0 <= k < |old(cartItems)| && old(cartItems)[k].productId == productId ==>
        TotalPrice() == old(TotalPrice()) - old(cartItems)[k].price
    {
      WithoutProductUnique(cartItems, productId);
      if !ContainsProduct(cartItems, productId) {
        WithoutAbsentProduct(cartItems, productId);
      }
      forall k | 0 <= k < |cartItems| && cartItems[k].productId == productId
        ensures SumPrices(WithoutProduct(cartItems, productId)) == SumPrices(cartItems) - cartItems[k].price
      {
        WithoutProductTotal(cartItems, k);
      }
      cartItems := WithoutProduct(cartItems, productId);
    }

    /** clearCart: empties the list. */
    method ClearCart()
      modifies this
      ensures Valid() && cartItems == [] && isCartOpen == old(isCartOpen)
    {
      cartItems := [];
    }

    /** setIsCartOpen: opens or closes the drawer; the list is untouched. */
    method SetIsCartOpen(isOpen: bool)
      modifies this
      ensures isCartOpen == isOpen && cartItems == old(cartItems)
    {
      isCartOpen := isOpen;
    }
  }

  /** The body the checkout page posts: the cart items under `items`. */
  function CheckoutBody(items: seq<CartItem>): (body: Json)
    ensures body.JObj? && "items" in body.fields && body.fields["items"].JArr?
    ensures |body.fields["items"].elems| == |items|
    ensures forall i :: 0 <= i < |items| ==> body.fields["items"].elems[i] == EncodeCartItem(items[i])
  {
    JObj(map["items" := JArr(seq(|items|, i requires 0 <= i < |items| => EncodeCartItem(items[i])))])
  }
}
