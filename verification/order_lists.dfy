/** The two order pages: the administrator's list of every order and the
    consumer's "My Orders". After a successful status change or delete,
    each page edits the list it already holds instead of fetching it again;
    this module shows those local edits agree with a fresh listing, and
    models the fee breakdown and the cancel button of "My Orders". */
module OrderLists {
  import opened Common
  import opened Seqs
  import opened Pricing
  import opened OrderSchema
  import opened OrderRoutes
  import ConsumerRoutes
  import CheckoutPage

  /** The local edit after a successful status change: the order with `id`
      takes the new status, every other entry stays as it was. */
  function ApplyStatus(orders: seq<Order>, id: OrderId, status: string): (r: seq<Order>)
    ensures |r| == |orders|
    ensures forall i :: 0 <= i < |orders| ==>
      r[i] == if orders[i].id == id then orders[i].(status := status) else orders[i]
  {
    Map(orders, WithStatus(id, status))
  }

  /** The local edit after a successful delete or cancel: the entry with
      `id` goes, the rest keep their order. */
  function DropOrder(orders: seq<Order>, id: OrderId): (r: seq<Order>)
    ensures forall o :: o in r <==> o in orders && o.id != id
  {
    Filter(orders, OtherThan(id))
  }

  /** The local drop works piecewise on any split of the list, so the
      entries it keeps stay in their original order. */
  lemma DropOrderConcat(a: seq<Order>, b: seq<Order>, id: OrderId)
    ensures DropOrder(a + b, id) == DropOrder(a, id) + DropOrder(b, id)
  {
    FilterConcat(a, b, OtherThan(id));
  }

  /** "My Orders" offers a cancel button only on an order still "Placed". */
  predicate CancelOffered(o: Order) {
    o.status == DefaultStatus
  }

  /** The fee breakdown "My Orders" shows for an order. */
  datatype Fees = Fees(subtotal: int, delivery: int, tax: int, total: int)

  /** The subtotal recomputed from the stored lines, or `None` when a line
      has no price (the page would show "NaN"). */
  function StoredSubtotal(lines: seq<LineItem>): (r: Option<int>)
    ensures r.Some? <==> forall i :: 0 <= i < |lines| ==> lines[i].price.Some?
    ensures lines == [] ==> r == Some(0)
    ensures |lines| == 1 && lines[0].price.Some? ==>
      r == Some(lines[0].price.value * EffectiveQuantity(lines[0].quantity))
  {
    if lines == [] then Some(0)
    else
      var rest := StoredSubtotal(lines[1..]);
      match lines[0].price
      case None => None
      case Some(p) =>
        if rest.None? then None
        else Some(p * EffectiveQuantity(lines[0].quantity) + rest.value)
  }

  /** Subtotal, delivery and tax are recomputed from the stored lines; the
      total shown is the one stored with the order. */
  function Breakdown(o: Order): (r: Option<Fees>)
    ensures r.Some? <==> StoredSubtotal(o.products).Some?
    ensures r.Some? ==>
      && r.value.subtotal == StoredSubtotal(o.products).value
      && r.value.delivery == DeliveryCents
      && r.value.tax == TaxCents(r.value.subtotal)
      && r.value.total == o.total
  {
    match StoredSubtotal(o.products)
    case None => None
    case Some(s) => Some(Fees(s, DeliveryCents, TaxCents(s), o.total))
  }

  /** The recomputed subtotal of two lists of lines is the sum of theirs,
      and is missing when either is; with the one-line case this fixes its
      value on every list. */
  lemma {:induction false} StoredSubtotalConcat(a: seq<LineItem>, b: seq<LineItem>)
    ensures StoredSubtotal(a + b)
         == if StoredSubtotal(a).Some? && StoredSubtotal(b).Some?
            then Some(StoredSubtotal(a).value + StoredSubtotal(b).value)
            else None
  {
    if a == [] {
      assert a + b == b;
    } else {
      assert (a + b)[1..] == a[1..] + b;
      assert (a + b)[0] == a[0];
      StoredSubtotalConcat(a[1..], b);
    }
  }

  // ---------------------------------------------------------------------
  // Local edits agree with the server

  /** Dropping the deleted order from a listing gives exactly the listing
      the server would now return, for the administrator's full list and
      for any consumer's. */
  lemma LocalDropMatchesRefetch(s: Orders, email: string, id: OrderId)
    requires Delete(s, id).result.Ok?
    ensures DropOrder(List(s, email), id) == List(Delete(s, id).state, email)
  {
    var keep := OtherThan(id);
    assert Delete(s, id).state == Filter(s, keep);
    FilterSort(Matching(s, email), keep, CreatedAt);
    if email != "" {
      FilterCommutes(s, ForEmail(email), keep);
    }
  }

  /** Applying the new status to a listing gives exactly the listing the
      server would now return. */
  lemma LocalStatusMatchesRefetch(s: Orders, email: string, id: OrderId, status: string)
    requires UpdateStatus(s, id, status).result.Ok?
    ensures ApplyStatus(List(s, email), id, status) == List(UpdateStatus(s, id, status).state, email)
  {
    var f := WithStatus(id, status);
    assert UpdateStatus(s, id, status).state == Map(s, f);
    assert forall y :: CreatedAt(f(y)) == CreatedAt(y);
    MapSort(Matching(s, email), f, CreatedAt);
    if email != "" {
      assert forall y :: ForEmail(email)(f(y)) == ForEmail(email)(y);
      MapFilter(s, f, ForEmail(email));
    }
  }

  // ---------------------------------------------------------------------
  // Cancelling

  /** A freshly placed order is offered for cancelling. */
  lemma PlacedOrderOffersCancel(w: CheckoutPage.World, consumer: Option<ConsumerRoutes.Profile>,
                                lines: seq<CheckoutLine>, fromCart: bool, address: Address,
                                paymentMethod: string, newId: OrderId, now: nat)
    requires CheckoutPage.Submit(w, consumer, lines, fromCart, address, paymentMethod, newId, now).outcome.Placed?
    ensures CancelOffered(
      CheckoutPage.Submit(w, consumer, lines, fromCart, address, paymentMethod, newId, now).outcome.order)
  {
    CheckoutPage.PlacedOrderRecordsCheckout(w, consumer, lines, fromCart, address, paymentMethod, newId, now);
  }

  /** Once an administrator moves an order to any other status, the
      button is no longer offered for it. */
  lemma StatusChangeWithdrawsCancel(s: Orders, id: OrderId, status: string)
    requires status != DefaultStatus
    requires UpdateStatus(s, id, status).result.Ok?
    ensures Find(UpdateStatus(s, id, status).state, id).Some?
    ensures !CancelOffered(Find(UpdateStatus(s, id, status).state, id).value)
  {
    UpdateThenFind(s, id, status);
  }

  /** The rule is the page's alone: the server deletes an order whatever
      its status. */
  lemma ServerDeletesAnyStatus(s: Orders, id: OrderId, o: Order)
    requires Find(s, id) == Some(o) && !CancelOffered(o)
    ensures Delete(s, id).result.Ok?
  {
  }

  // ---------------------------------------------------------------------
  // Fee breakdown

  /** Lines stored from checkout lines carry their price and effective
      quantity, so the recomputed subtotal is the checkout subtotal. */
  lemma {:induction false} StoredSubtotalOfCheckout(items: seq<LineItem>, lines: seq<CheckoutLine>)
    requires |items| == |lines|
    requires forall i :: 0 <= i < |lines| ==>
      items[i] == LineItem(lines[i].productId, Some(lines[i].name), Some(lines[i].price),
                           EffectiveQuantity(lines[i].quantity))
    ensures StoredSubtotal(items) == Some(Subtotal(lines))
  {
    if lines != [] {
      StoredSubtotalOfCheckout(items[1..], lines[1..]);
    }
  }

  /** For an order placed from the checkout page the breakdown repeats the
      checkout's figures, and they add up to the stored total. */
  lemma BreakdownMatchesCheckout(w: CheckoutPage.World, consumer: Option<ConsumerRoutes.Profile>,
                                 lines: seq<CheckoutLine>, fromCart: bool, address: Address,
                                 paymentMethod: string, newId: OrderId, now: nat)
    requires CheckoutPage.Submit(w, consumer, lines, fromCart, address, paymentMethod, newId, now).outcome.Placed?
    ensures var o := CheckoutPage.Submit(w, consumer, lines, fromCart, address, paymentMethod, newId, now).outcome.order;
      var sub := Subtotal(lines);
      && Breakdown(o) == Some(Fees(sub, DeliveryCents, TaxCents(sub), Total(lines)))
      && Breakdown(o).value.subtotal + Breakdown(o).value.delivery + Breakdown(o).value.tax
         == Breakdown(o).value.total
  {
    var o := CheckoutPage.Submit(w, consumer, lines, fromCart, address, paymentMethod, newId, now).outcome.order;
    CheckoutPage.PlacedOrderRecordsCheckout(w, consumer, lines, fromCart, address, paymentMethod, newId, now);
    StoredSubtotalOfCheckout(o.products, lines);
  }
}
