/** The client's checkout arithmetic, in integer cents: line quantities
    defaulting to one, the subtotal, the flat delivery fee, the 10% tax
    rounded to the nearest cent, and the grand total. */
module Pricing {
  import Catalog

  /** Flat delivery fee: 20.00. */
  const DeliveryCents := 2000

  /** A line as the checkout page receives it, from the cart or from a
      "buy now" button. A quantity of 0 stands for a missing one. The image
      URL is "" when the line came from "buy now". */
  datatype CheckoutLine = CheckoutLine(
    productId: Catalog.ProductId, name: string, price: int,
    quantity: int, imageUrl: string)

  /** The page's `quantity || 1`: a missing or zero quantity counts as one. */
  function EffectiveQuantity(q: int): (n: int)
    ensures q == 0 ==> n == 1
    ensures q != 0 ==> n == q
  {
    if q == 0 then 1 else q
  }

  /** Sum over the lines of price times effective quantity. */
  function Subtotal(lines: seq<CheckoutLine>): (t: int)
    ensures lines == [] ==> t == 0
    ensures |lines| == 1 ==> t == lines[0].price * EffectiveQuantity(lines[0].quantity)
  {
    if lines == [] then 0
    else lines[0].price * EffectiveQuantity(lines[0].quantity) + Subtotal(lines[1..])
  }

  /** The subtotal of two lists of lines is the sum of their subtotals. */
  lemma {:induction false} SubtotalConcat(a: seq<CheckoutLine>, b: seq<CheckoutLine>)
    ensures Subtotal(a + b) == Subtotal(a) + Subtotal(b)
  {
    if a == [] {
      assert a + b == b;
    } else {
      assert (a + b)[1..] == a[1..] + b;
      SubtotalConcat(a[1..], b);
    }
  }

  /** With non-negative prices and quantities the subtotal is non-negative. */
  lemma {:induction false} SubtotalNonNegative(lines: seq<CheckoutLine>)
    requires forall i :: 0 <= i < |lines| ==> lines[i].price >= 0 && lines[i].quantity >= 0
    ensures Subtotal(lines) >= 0
  {
    if lines != [] {
      SubtotalNonNegative(lines[1..]);
    }
  }

  /** 10% of the subtotal, rounded to the nearest cent with halves rounded
      up: the unique `t` with `10 * t - 5 <= subtotal < 10 * t + 5`. */
  function TaxCents(subtotal: int): (t: int)
    ensures 10 * t - 5 <= subtotal < 10 * t + 5
  {
    (subtotal + 5) / 10
  }

  /** Any amount within half a cent of 10% of the subtotal, halves going
      up, is the tax. */
  lemma TaxIsNearestCent(subtotal: int, t: int)
    requires 10 * t - 5 <= subtotal < 10 * t + 5
    ensures t == TaxCents(subtotal)
  {
  }

  /** Subtotal plus delivery plus tax. */
  function Total(lines: seq<CheckoutLine>): int {
    var s := Subtotal(lines);
    s + DeliveryCents + TaxCents(s)
  }

  /** One line at 10.00 with quantity 2: subtotal 20.00, tax 2.00, total 42.00. */
  lemma TotalExample(pid: Catalog.ProductId, name: string)
    ensures var lines := [CheckoutLine(pid, name, 1000, 2, "")];
      Subtotal(lines) == 2000 && TaxCents(2000) == 200 && Total(lines) == 4200
  {
  }
}
