/** The order record: its required fields, the payment-method enumeration,
    and the defaults filled in when an order document is created from a
    request body. */
module OrderSchema {
  import opened Common
  import Catalog

  type OrderId = string

  datatype PaymentMethod = Cash | CreditCard | OnlinePayment

  /** The string stored for each payment method. */
  function Label(m: PaymentMethod): string {
    match m
    case Cash => "Cash"
    case CreditCard => "Credit Card"
    case OnlinePayment => "Online Payment"
  }

  /** The enumeration check on the payment-method string. */
  function ParsePayment(s: string): (r: Option<PaymentMethod>)
    ensures r.Some? <==> s == "Cash" || s == "Credit Card" || s == "Online Payment"
    ensures r.Some? ==> Label(r.value) == s
  {
    if s == "Cash" then Some(Cash)
    else if s == "Credit Card" then Some(CreditCard)
    else if s == "Online Payment" then Some(OnlinePayment)
    else None
  }

  /** Every payment method passes the enumeration check as its own label. */
  lemma ParseLabel(m: PaymentMethod)
    ensures ParsePayment(Label(m)) == Some(m)
  {
  }

  /** The shipping address. The schema declares every part an optional
      string; the empty string stands for a part left out. */
  datatype Address = Address(
    fullName: string, phone: string, street: string,
    city: string, postalCode: string, country: string)

  /** A product line as a request body carries it. */
  datatype LineInput = LineInput(
    productId: Option<Catalog.ProductId>, name: Option<string>,
    price: Option<int>, quantity: Option<int>)

  /** A stored product line: a copy of the name and price at order time
      (not a reference to the catalog), with the quantity defaulted. Fields
      the schema does not declare, such as an image URL, are not stored. */
  datatype LineItem = LineItem(
    productId: Catalog.ProductId, name: Option<string>,
    price: Option<int>, quantity: int)

  /** An order request body. Required strings are `""` when missing; the
      optional `status` and `createdAt` are normally left out. Money is in
      integer cents. */
  datatype OrderInput = OrderInput(
    consumerEmail: string, consumerName: string,
    products: seq<LineInput>, address: Address,
    paymentMethod: string, total: Option<int>,
    status: Option<string>, createdAt: Option<nat>)

  /** A stored order. `createdAt` is an abstract timestamp. */
  datatype Order = Order(
    id: OrderId, consumerEmail: string, consumerName: string,
    products: seq<LineItem>, address: Address,
    paymentMethod: PaymentMethod, total: int,
    status: string, createdAt: nat)

  const DefaultStatus := "Placed"
  const DefaultQuantity := 1

  /** A line passes validation when it names a product. */
  function CreateLine(l: LineInput): (r: Option<LineItem>)
    ensures r.Some? <==> l.productId.Some?
    ensures r.Some? ==>
      r.value.productId == l.productId.value && r.value.name == l.name && r.value.price == l.price
    ensures r.Some? && l.quantity.Some? ==> r.value.quantity == l.quantity.value
    ensures r.Some? && l.quantity.None? ==> r.value.quantity == DefaultQuantity
  {
    match l.productId
    case None => None
    case Some(pid) =>
      Some(LineItem(pid, l.name, l.price, match l.quantity case Some(q) => q case None => DefaultQuantity))
  }

  /** All lines, or `None` when some line has no product reference. */
  function CreateLines(ls: seq<LineInput>): (r: Option<seq<LineItem>>)
    ensures r.Some? <==> forall i :: 0 <= i < |ls| ==> ls[i].productId.Some?
    ensures r.Some? ==>
      |r.value| == |ls| && forall i :: 0 <= i < |ls| ==> Some(r.value[i]) == CreateLine(ls[i])
  {
    if ls == [] then Some([])
    else
      var head, rest := CreateLine(ls[0]), CreateLines(ls[1..]);
      if head.Some? && rest.Some? then Some([head.value] + rest.value)
      else if head.None? then None
      else
        assert exists i :: 1 <= i < |ls| && ls[i].productId.None? by {
          var k :| 0 <= k < |ls[1..]| && ls[1..][k].productId.None?;
          assert ls[k + 1] == ls[1..][k];
        }
        None
  }

  /** Builds the order document from a body, as the model constructor and
      its validation do: `None` when a required field is missing, the
      payment method is outside the enumeration, or a line has no product. */
  function Create(body: OrderInput, id: OrderId, now: nat): (r: Option<Order>)
    ensures r.Some? <==>
      && body.consumerEmail != ""
      && body.consumerName != ""
      && (body.paymentMethod == "Cash" || body.paymentMethod == "Credit Card" || body.paymentMethod == "Online Payment")
      && body.total.Some?
      && forall i :: 0 <= i < |body.products| ==> body.products[i].productId.Some?
    ensures r.Some? ==>
      var o := r.value;
      && o.id == id
      && o.consumerEmail == body.consumerEmail
      && o.consumerName == body.consumerName
      && o.address == body.address
      && Label(o.paymentMethod) == body.paymentMethod
      && o.total == body.total.value
      && |o.products| == |body.products|
      && (forall i :: 0 <= i < |o.products| ==> Some(o.products[i]) == CreateLine(body.products[i]))
      && o.status == (if body.status.Some? then body.status.value else DefaultStatus)
      && o.createdAt == (if body.createdAt.Some? then body.createdAt.value else now)
  {
    if body.consumerEmail == "" || body.consumerName == "" || body.total.None? then None
    else
      match (ParsePayment(body.paymentMethod), CreateLines(body.products))
      case (Some(m), Some(lines)) =>
        Some(Order(id, body.consumerEmail, body.consumerName, lines, body.address, m,
                   body.total.value,
                   match body.status case Some(st) => st case None => DefaultStatus,
                   match body.createdAt case Some(t) => t case None => now))
      case _ => None
  }

  /** A stored order written back out as a request body. */
  function ToInput(o: Order): OrderInput {
    OrderInput(o.consumerEmail, o.consumerName, ToLineInputs(o.products), o.address,
               Label(o.paymentMethod), Some(o.total), Some(o.status), Some(o.createdAt))
  }

  function ToLineInputs(ls: seq<LineItem>): (r: seq<LineInput>)
    ensures |r| == |ls|
    ensures forall i :: 0 <= i < |ls| ==>
      r[i] == LineInput(Some(ls[i].productId), ls[i].name, ls[i].price, Some(ls[i].quantity))
  {
    if ls == [] then []
    else [LineInput(Some(ls[0].productId), ls[0].name, ls[0].price, Some(ls[0].quantity))] + ToLineInputs(ls[1..])
  }

  /** Creation inverts serialisation: a stored order with non-empty
      consumer fields, written out and created again under its own id,
      comes back unchanged whatever the clock says. */
  lemma CreateToInput(o: Order, now: nat)
    requires o.consumerEmail != "" && o.consumerName != ""
    ensures Create(ToInput(o), o.id, now) == Some(o)
  {
    var body := ToInput(o);
    var r := Create(body, o.id, now);
    ParseLabel(o.paymentMethod);
    assert r.Some?;
    var lines := r.value.products;
    assert lines == o.products by {
      forall i | 0 <= i < |lines| ensures lines[i] == o.products[i] {
        assert Some(lines[i]) == CreateLine(body.products[i]);
      }
    }
  }

  /** A body that leaves out status and creation time yields an order in
      status "Placed" created at the current time. */
  lemma NewOrderDefaults(body: OrderInput, id: OrderId, now: nat)
    requires Create(body, id, now).Some?
    requires body.status.None? && body.createdAt.None?
    ensures Create(body, id, now).value.status == "Placed"
    ensures Create(body, id, now).value.createdAt == now
  {
  }

  /** The schema never checks the address: any address, complete or not,
      is accepted exactly when the original body is, and stored as given. */
  lemma AddressNotChecked(body: OrderInput, address: Address, id: OrderId, now: nat)
    ensures Create(body.(address := address), id, now).Some? <==> Create(body, id, now).Some?
    ensures Create(body.(address := address), id, now).Some? ==>
      Create(body.(address := address), id, now).value.address == address
  {
  }
}
