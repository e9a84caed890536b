/** The checkout page: its client-side guard, the order body it posts, and
    the whole submission as one transition of the server's two collections
    (the order is placed, then the cart is cleared if the lines came from
    it). */
module CheckoutPage {
  import opened Common
  import opened Pricing
  import opened OrderSchema
  import ConsumerRoutes
  import OrderRoutes

  /** The server-side state one submission can touch. */
  datatype World = World(consumers: ConsumerRoutes.Store, orders: OrderRoutes.Orders)

  /** How a submission ends, as the page reports it. */
  datatype Outcome =
    | NothingToCheckout          // the page shows "No products to checkout."
    | Refused                    // the client guard stops the submission
    | Failed                     // "Failed to place order"
    | Placed(order: Order)       // "Order placed successfully!"

  datatype Step = Step(outcome: Outcome, world: World)

  /** Every address part and the payment method are non-empty. */
  predicate AllFieldsFilled(a: Address, paymentMethod: string) {
    && a.fullName != "" && a.phone != "" && a.street != ""
    && a.city != "" && a.postalCode != "" && a.country != ""
    && paymentMethod != ""
  }

  /** A checkout line as serialised in the body: a quantity of 0 (missing)
      is left out. The image URL is sent but not a field the order schema
      declares, so it does not appear here. */
  function LineBody(l: CheckoutLine): (r: LineInput)
    ensures r.productId == Some(l.productId) && r.name == Some(l.name) && r.price == Some(l.price)
    ensures r.quantity.Some? <==> l.quantity != 0
    ensures l.quantity != 0 ==> r.quantity == Some(l.quantity)
  {
    LineInput(Some(l.productId), Some(l.name), Some(l.price),
              if l.quantity == 0 then None else Some(l.quantity))
  }

  function LineBodies(lines: seq<CheckoutLine>): (r: seq<LineInput>)
    ensures |r| == |lines|
    ensures forall i :: 0 <= i < |lines| ==> r[i] == LineBody(lines[i])
  {
    if lines == [] then [] else [LineBody(lines[0])] + LineBodies(lines[1..])
  }

  /** The POST body: the consumer's identity, the lines, the address, the
      payment label and the computed total; status and creation time are
      left to the server. */
  function Body(consumer: ConsumerRoutes.Profile, lines: seq<CheckoutLine>,
                address: Address, paymentMethod: string): (r: OrderInput)
    ensures r.consumerEmail == consumer.email && r.consumerName == consumer.fullName
    ensures r.total == Some(Total(lines))
    ensures r.status.None? && r.createdAt.None?
    ensures r.products == LineBodies(lines)
    ensures |r.products| == |lines|
    ensures r.address == address && r.paymentMethod == paymentMethod
  {
    OrderInput(consumer.email, consumer.fullName, LineBodies(lines), address,
               paymentMethod, Some(Total(lines)), None, None)
  }

  /** One submission of the checkout form. `consumer` is `None` when nobody
      is logged in; the page then fails before any request is sent. The
      result of clearing the cart is not inspected. */
  function Submit(w: World, consumer: Option<ConsumerRoutes.Profile>, lines: seq<CheckoutLine>,
                  fromCart: bool, address: Address, paymentMethod: string,
                  newId: OrderId, now: nat): (r: Step)
    ensures !r.outcome.Placed? ==> r.world == w
    ensures lines == [] ==> r.outcome == NothingToCheckout
    ensures lines != [] && !AllFieldsFilled(address, paymentMethod) ==> r.outcome == Refused
    ensures lines != [] && AllFieldsFilled(address, paymentMethod) && !r.outcome.Placed? ==>
      r.outcome == Failed
    ensures r.outcome.Placed? ==>
      && lines != [] && AllFieldsFilled(address, paymentMethod) && consumer.Some?
      && r.world.orders == w.orders + [r.outcome.order]
      && r.outcome.order.id == newId
      && r.outcome.order.total == Total(lines)
    ensures r.world.consumers != w.consumers ==> r.outcome.Placed? && fromCart
    ensures r.outcome.Placed? ==>
      && r.world.consumers.Keys == w.consumers.Keys
      && forall e :: e in w.consumers ==>
           r.world.consumers[e]
           == if fromCart && e == consumer.value.email then w.consumers[e].(cart := []) else w.consumers[e]
  {
    if lines == [] then Step(NothingToCheckout, w)
    else if !AllFieldsFilled(address, paymentMethod) then Step(Refused, w)
    else match consumer
      case None => Step(Failed, w)
      case Some(c) =>
        var placed := OrderRoutes.Place(w.orders, Body(c, lines, address, paymentMethod), newId, now);
        if placed.result.Err? then Step(Failed, w)
        else
          var consumers := if fromCart then ConsumerRoutes.CartClear(w.consumers, c.email).state
                           else w.consumers;
          Step(Placed(placed.result.value), World(consumers, placed.state))
  }

  // ---------------------------------------------------------------------
  // Properties

  /** The server accepts exactly what a logged-in consumer with a name and
      email submits with a filled form, a payment label from the enumeration
      and a fresh identifier; nothing else ends in an order. */
  lemma PlacedExactly(w: World, consumer: Option<ConsumerRoutes.Profile>, lines: seq<CheckoutLine>,
                      fromCart: bool, address: Address, paymentMethod: string,
                      newId: OrderId, now: nat)
    ensures Submit(w, consumer, lines, fromCart, address, paymentMethod, newId, now).outcome.Placed?
      <==>
        && lines != [] && AllFieldsFilled(address, paymentMethod)
        && consumer.Some? && consumer.value.email != "" && consumer.value.fullName != ""
        && ParsePayment(paymentMethod).Some?
        && !OrderRoutes.HasId(w.orders, newId)
  {
    if lines != [] && AllFieldsFilled(address, paymentMethod) && consumer.Some? {
      var body := Body(consumer.value, lines, address, paymentMethod);
      assert forall i :: 0 <= i < |body.products| ==> body.products[i].productId.Some?;
    }
  }

  /** The stored order copies every line's product, name and price and its
      effective quantity, carries the address and payment label as
      submitted, and starts in status "Placed" at the current time. */
  lemma PlacedOrderRecordsCheckout(w: World, consumer: Option<ConsumerRoutes.Profile>,
                                   lines: seq<CheckoutLine>, fromCart: bool, address: Address,
                                   paymentMethod: string, newId: OrderId, now: nat)
    requires Submit(w, consumer, lines, fromCart, address, paymentMethod, newId, now).outcome.Placed?
    ensures var o := Submit(w, consumer, lines, fromCart, address, paymentMethod, newId, now).outcome.order;
      && o.consumerEmail == consumer.value.email
      && o.consumerName == consumer.value.fullName
      && o.address == address
      && Label(o.paymentMethod) == paymentMethod
      && o.status == "Placed" && o.createdAt == now
      && |o.products| == |lines|
      && forall i :: 0 <= i < |lines| ==>
           o.products[i] == LineItem(lines[i].productId, Some(lines[i].name), Some(lines[i].price),
                                     EffectiveQuantity(lines[i].quantity))
  {
    var body := Body(consumer.value, lines, address, paymentMethod);
    var o := Submit(w, consumer, lines, fromCart, address, paymentMethod, newId, now).outcome.order;
    assert o == Create(body, newId, now).value;
    forall i | 0 <= i < |lines|
      ensures o.products[i] == LineItem(lines[i].productId, Some(lines[i].name), Some(lines[i].price),
                                        EffectiveQuantity(lines[i].quantity))
    {
      assert Some(o.products[i]) == CreateLine(body.products[i]);
    }
  }

  /** Checking out the cart empties that consumer's cart and changes nothing
      else about any account; buying one product directly leaves every
      account alone. */
  lemma CartClearedOnlyFromCart(w: World, c: ConsumerRoutes.Profile, lines: seq<CheckoutLine>,
                                fromCart: bool, address: Address, paymentMethod: string,
                                newId: OrderId, now: nat)
    requires c.email in w.consumers
    requires Submit(w, Some(c), lines, fromCart, address, paymentMethod, newId, now).outcome.Placed?
    ensures var r := Submit(w, Some(c), lines, fromCart, address, paymentMethod, newId, now);
      && (fromCart ==>
            && r.world.consumers.Keys == w.consumers.Keys
            && r.world.consumers[c.email] == w.consumers[c.email].(cart := [])
            && forall e :: e in w.consumers && e != c.email ==> r.world.consumers[e] == w.consumers[e])
      && (!fromCart ==> r.world.consumers == w.consumers)
  {
  }

  /** A payment label outside the enumeration reaches the server, is
      refused there and changes nothing. */
  lemma UnknownPaymentFails(w: World, c: ConsumerRoutes.Profile, lines: seq<CheckoutLine>,
                            fromCart: bool, address: Address, paymentMethod: string,
                            newId: OrderId, now: nat)
    requires lines != [] && AllFieldsFilled(address, paymentMethod)
    requires ParsePayment(paymentMethod).None?
    ensures Submit(w, Some(c), lines, fromCart, address, paymentMethod, newId, now) == Step(Failed, w)
  {
  }
}
