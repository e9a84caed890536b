/** The cart page: the two figures in its summary bar and the snapshot of
    the cart it hands to checkout. */
module CartPage {
  import Catalog
  import opened Pricing

  /** A cart line as the page holds it, with the product resolved. */
  datatype CartItem = CartItem(product: Catalog.Product, quantity: int)

  /** "Total items": the sum of the effective quantities. */
  function TotalItems(cart: seq<CartItem>): (n: int)
    ensures cart == [] ==> n == 0
    ensures |cart| == 1 ==> n == EffectiveQuantity(cart[0].quantity)
  {
    if cart == [] then 0
    else EffectiveQuantity(cart[0].quantity) + TotalItems(cart[1..])
  }

  /** "Total price": the sum of price times effective quantity. */
  function TotalPrice(cart: seq<CartItem>): (t: int)
    ensures cart == [] ==> t == 0
    ensures |cart| == 1 ==> t == cart[0].product.price * EffectiveQuantity(cart[0].quantity)
  {
    if cart == [] then 0
    else cart[0].product.price * EffectiveQuantity(cart[0].quantity) + TotalPrice(cart[1..])
  }

  /** The lines handed to checkout: one per cart item, in cart order, with
      the product's id, name, price and image and the effective quantity. */
  function Snapshot(cart: seq<CartItem>): (r: seq<CheckoutLine>)
    ensures |r| == |cart|
    ensures forall i :: 0 <= i < |cart| ==>
      var p := cart[i].product;
      r[i] == CheckoutLine(p.id, p.name, p.price, EffectiveQuantity(cart[i].quantity), p.imageUrl)
  {
    if cart == [] then []
    else
      var p := cart[0].product;
      [CheckoutLine(p.id, p.name, p.price, EffectiveQuantity(cart[0].quantity), p.imageUrl)]
        + Snapshot(cart[1..])
  }

  /** The subtotal checkout computes from the snapshot is the total price
      the cart page showed. */
  lemma {:induction false} SnapshotSubtotal(cart: seq<CartItem>)
    ensures Subtotal(Snapshot(cart)) == TotalPrice(cart)
  {
    if cart != [] {
      var r := Snapshot(cart);
      assert r[1..] == Snapshot(cart[1..]);
      SnapshotSubtotal(cart[1..]);
    }
  }

  /** Snapshotting is stable: the snapshot's quantities are already
      effective, so checkout's own `|| 1` changes nothing. */
  lemma SnapshotQuantitiesEffective(cart: seq<CartItem>)
    ensures forall l :: l in Snapshot(cart) ==> EffectiveQuantity(l.quantity) == l.quantity
  {
  }

  /** The number of items a list of checkout lines holds. */
  function ItemCount(lines: seq<CheckoutLine>): int {
    if lines == [] then 0 else lines[0].quantity + ItemCount(lines[1..])
  }

  /** The item count the cart page showed is the number of items handed to
      checkout. */
  lemma {:induction false} SnapshotItemCount(cart: seq<CartItem>)
    ensures ItemCount(Snapshot(cart)) == TotalItems(cart)
  {
    if cart != [] {
      assert Snapshot(cart)[1..] == Snapshot(cart[1..]);
      SnapshotItemCount(cart[1..]);
    }
  }
}
