/**
 * Where the client meets the server: the body the checkout page posts for a
 * cart is what the checkout route validates.
 */
module CheckoutFlow {
  import opened Schema
  import Cart
  import opened Routes

  /** A cart posted by the checkout page passes the server's validation unchanged, so the order
      total is the cart's total price; an empty cart is the "Cart is empty" case. */
  lemma CheckoutAcceptsCart(items: seq<CartItem>)
    ensures items == [] ==> CartField(Cart.CheckoutBody(items)).None?
    ensures items != [] ==>
      CartField(Cart.CheckoutBody(items)).Some? &&
      ValidateAll(CartField(Cart.CheckoutBody(items)).value) == Some(items)
  {
    var raw := Cart.CheckoutBody(items).fields["items"].elems;
    forall i | 0 <= i < |raw| ensures ParseCartItem(raw[i]) == Some(items[i]) {
      ParseEncodeRoundTrip(items[i]);
    }
    if items != [] {
      var v := ValidateAll(raw);
      assert v.Some?;
      assert forall i :: 0 <= i < |raw| ==> v.value[i] == items[i];
      assert v.value == items;
    }
  }
}
