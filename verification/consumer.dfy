/** The shopper-account routes: signup, login, password reset and the cart
    embedded in each account, as pure transitions on a store of accounts
    keyed by email. */
module ConsumerRoutes {
  import opened Common
  import opened Seqs
  import Catalog

  type Email = string

  /** A cart line: a product reference and how many of it. */
  datatype CartLine = CartLine(productId: Catalog.ProductId, quantity: int)

  datatype Account = Account(fullName: string, email: Email, password: string, cart: seq<CartLine>)

  /** The consumer collection, looked up by exact email equality. */
  type Store = map<Email, Account>

  /** The identity a successful login hands back. */
  datatype Profile = Profile(fullName: string, email: Email)

  /** A cart line as the cart route returns it, with the product reference
      resolved against the catalog; `None` when the product is gone. */
  datatype Entry = Entry(product: Option<Catalog.Product>, quantity: int)

  const AllFieldsRequired := "All fields are required"
  const EmailTaken := "Email already registered"
  const InvalidCredentials := "Invalid credentials"
  const InvalidReset := "Invalid email or previous password"
  const UserNotFound := "User not found"
  const EmailRequired := "Email is required"

  // ---------------------------------------------------------------------
  // Carts

  predicate HasProduct(cart: seq<CartLine>, pid: Catalog.ProductId) {
    exists i :: 0 <= i < |cart| && cart[i].productId == pid
  }

  /** No product appears on two lines. */
  predicate UniqueProducts(cart: seq<CartLine>) {
    forall i, j :: 0 <= i < j < |cart| ==> cart[i].productId != cart[j].productId
  }

  /** The position of the first line holding `pid`. */
  function FirstIndex(cart: seq<CartLine>, pid: Catalog.ProductId): (i: nat)
    requires HasProduct(cart, pid)
    ensures i < |cart| && cart[i].productId == pid
    ensures forall j :: 0 <= j < i ==> cart[j].productId != pid
  {
    if cart[0].productId == pid then 0
    else
      assert HasProduct(cart[1..], pid) by {
        var k :| 0 <= k < |cart| && cart[k].productId == pid;
        assert cart[1..][k - 1] == cart[k];
      }
      1 + FirstIndex(cart[1..], pid)
  }

  /** The total quantity the cart holds of `pid`, over all its lines. */
  function QuantityOf(cart: seq<CartLine>, pid: Catalog.ProductId): int {
    if cart == [] then 0
    else (if cart[0].productId == pid then cart[0].quantity else 0) + QuantityOf(cart[1..], pid)
  }

  /** Find-or-append: the first line holding `pid` gets one more, otherwise
      a line with quantity 1 goes at the end. */
  function AddLine(cart: seq<CartLine>, pid: Catalog.ProductId): (r: seq<CartLine>)
    ensures HasProduct(cart, pid) ==>
      var i := FirstIndex(cart, pid);
      r == cart[i := CartLine(pid, cart[i].quantity + 1)]
    ensures !HasProduct(cart, pid) ==> r == cart + [CartLine(pid, 1)]
  {
    if cart == [] then [CartLine(pid, 1)]
    else if cart[0].productId == pid then [cart[0].(quantity := cart[0].quantity + 1)] + cart[1..]
    else
      assert HasProduct(cart, pid) ==> HasProduct(cart[1..], pid) by {
        if HasProduct(cart, pid) {
          var k :| 0 <= k < |cart| && cart[k].productId == pid;
          assert cart[1..][k - 1] == cart[k];
        }
      }
      [cart[0]] + AddLine(cart[1..], pid)
  }

  /** The cart with every line of `pid` dropped, the rest in order. */
  function RemoveLines(cart: seq<CartLine>, pid: Catalog.ProductId): (r: seq<CartLine>)
    ensures forall l :: l in r <==> l in cart && l.productId != pid
    ensures !HasProduct(r, pid)
    ensures !HasProduct(cart, pid) ==> r == cart
  {
    var r := Filter(cart, OtherProduct(pid));
    assert !HasProduct(cart, pid) ==> r == cart by {
      if !HasProduct(cart, pid) {
        FilterKeepsAll(cart, OtherProduct(pid));
      }
    }
    r
  }

  /** The line test cart-remove keeps. */
  function OtherProduct(pid: Catalog.ProductId): CartLine -> bool {
    (l: CartLine) => l.productId != pid
  }

  // ---------------------------------------------------------------------
  // The store

  /** Every account sits under its own non-empty email, and no cart holds a
      product on two lines. */
  predicate WellFormed(s: Store) {
    forall e :: e in s ==> s[e].email == e && e != "" && UniqueProducts(s[e].cart)
  }

  /** POST /signup. */
  function Signup(s: Store, fullName: string, email: Email, password: string): (r: Reply<(), Store>)
    ensures r.result.Ok? <==> fullName != "" && email != "" && password != "" && email !in s
    ensures (fullName == "" || email == "" || password == "") ==> r.result == Err(BadRequest(AllFieldsRequired))
    ensures r.result.Err? ==> r.state == s
    ensures r.result.Ok? ==>
      && r.state.Keys == s.Keys + {email}
      && r.state[email] == Account(fullName, email, password, [])
      && forall e :: e in s ==> r.state[e] == s[e]
  {
    if fullName == "" || email == "" || password == "" then Reply(Err(BadRequest(AllFieldsRequired)), s)
    else if email in s then Reply(Err(BadRequest(EmailTaken)), s)
    else Reply(Ok(()), s[email := Account(fullName, email, password, [])])
  }

  /** POST /login: never changes the store. */
  function Login(s: Store, email: Email, password: string): (r: Reply<Profile, Store>)
    ensures r.state == s
    ensures r.result.Ok? <==> email in s && s[email].password == password
    ensures r.result.Ok? ==> r.result.value == Profile(s[email].fullName, s[email].email)
    ensures r.result.Err? ==> r.result.error == Unauthorized(InvalidCredentials)
  {
    if email !in s || s[email].password != password then Reply(Err(Unauthorized(InvalidCredentials)), s)
    else Reply(Ok(Profile(s[email].fullName, s[email].email)), s)
  }

  /** POST /forget-password: replaces the password when the previous one
      matches, with no check on the new one. */
  function ForgetPassword(s: Store, email: Email, previousPassword: string, newPassword: string): (r: Reply<(), Store>)
    ensures r.result.Ok? <==> email in s && s[email].password == previousPassword
    ensures r.result.Err? ==> r.result.error == Unauthorized(InvalidReset) && r.state == s
    ensures r.result.Ok? ==>
      && r.state.Keys == s.Keys
      && r.state[email].password == newPassword
      && r.state[email].fullName == s[email].fullName
      && r.state[email].email == s[email].email
      && r.state[email].cart == s[email].cart
      && forall e :: e in s && e != email ==> r.state[e] == s[e]
  {
    if email !in s || s[email].password != previousPassword then Reply(Err(Unauthorized(InvalidReset)), s)
    else Reply(Ok(()), s[email := s[email].(password := newPassword)])
  }

  /** POST /cart: the cart with each product resolved against the catalog. */
  function CartGet(s: Store, catalog: Catalog.Products, email: Email): (r: Reply<seq<Entry>, Store>)
    ensures r.state == s
    ensures email !in s ==> r.result == Err(NotFound(UserNotFound))
    ensures email in s ==> r.result.Ok? && |r.result.value| == |s[email].cart|
    ensures email in s ==> forall i :: 0 <= i < |s[email].cart| ==>
      var line, entry := s[email].cart[i], r.result.value[i];
      && entry.quantity == line.quantity
      && (entry.product.Some? <==> line.productId in catalog)
      && (entry.product.Some? ==> entry.product.value == catalog[line.productId])
  {
    if email !in s then Reply(Err(NotFound(UserNotFound)), s)
    else Reply(Ok(Resolve(s[email].cart, catalog)), s)
  }

  /** Each line's product looked up in the catalog, in cart order. */
  function Resolve(cart: seq<CartLine>, catalog: Catalog.Products): (r: seq<Entry>)
    ensures |r| == |cart|
    ensures forall i :: 0 <= i < |cart| ==>
      r[i] == Entry(if cart[i].productId in catalog then Some(catalog[cart[i].productId]) else None, cart[i].quantity)
  {
    if cart == [] then []
    else
      var p := cart[0].productId;
      [Entry(if p in catalog then Some(catalog[p]) else None, cart[0].quantity)] + Resolve(cart[1..], catalog)
  }

  /** POST /cart/add. */
  function CartAdd(s: Store, email: Email, pid: Catalog.ProductId): (r: Reply<seq<CartLine>, Store>)
    ensures email !in s ==> r == Reply(Err(NotFound(UserNotFound)), s)
    ensures email in s ==>
      && r.result.Ok?
      && r.state == s[email := s[email].(cart := r.result.value)]
      && r.result.value == AddLine(s[email].cart, pid)
      && HasProduct(r.result.value, pid)
      && |r.result.value| == |s[email].cart| + (if HasProduct(s[email].cart, pid) then 0 else 1)
  {
    if email !in s then Reply(Err(NotFound(UserNotFound)), s)
    else
      var cart := AddLine(s[email].cart, pid);
      assert HasProduct(cart, pid) by {
        if HasProduct(s[email].cart, pid) {
          assert cart[FirstIndex(s[email].cart, pid)].productId == pid;
        } else {
          assert cart[|cart| - 1].productId == pid;
        }
      }
      Reply(Ok(cart), s[email := s[email].(cart := cart)])
  }

  /** POST /cart/remove: succeeds whether or not the product was in the cart. */
  function CartRemove(s: Store, email: Email, pid: Catalog.ProductId): (r: Reply<seq<CartLine>, Store>)
    ensures email !in s ==> r == Reply(Err(NotFound(UserNotFound)), s)
    ensures email in s ==>
      && r.result.Ok?
      && r.state == s[email := s[email].(cart := r.result.value)]
      && r.result.value == RemoveLines(s[email].cart, pid)
      && !HasProduct(r.result.value, pid)
      && (!HasProduct(s[email].cart, pid) ==> r.state == s)
  {
    if email !in s then Reply(Err(NotFound(UserNotFound)), s)
    else
      var cart := RemoveLines(s[email].cart, pid);
      Reply(Ok(cart), s[email := s[email].(cart := cart)])
  }

  /** POST /cart/clear. */
  function CartClear(s: Store, email: Email): (r: Reply<(), Store>)
    ensures email == "" ==> r == Reply(Err(BadRequest(EmailRequired)), s)
    ensures email != "" && email !in s ==> r == Reply(Err(NotFound(UserNotFound)), s)
    ensures email != "" && email in s ==>
      && r.result.Ok?
      && r.state.Keys == s.Keys
      && r.state[email].cart == []
      && r.state[email] == s[email].(cart := [])
      && forall e :: e in s && e != email ==> r.state[e] == s[e]
  {
    if email == "" then Reply(Err(BadRequest(EmailRequired)), s)
    else if email !in s then Reply(Err(NotFound(UserNotFound)), s)
    else Reply(Ok(()), s[email := s[email].(cart := [])])
  }

  // ---------------------------------------------------------------------
  // Properties

  /** A fresh signup can log in at once with the same credentials. */
  lemma SignupThenLogin(s: Store, fullName: string, email: Email, password: string)
    requires Signup(s, fullName, email, password).result.Ok?
    ensures Login(Signup(s, fullName, email, password).state, email, password).result
         == Ok(Profile(fullName, email))
  {
  }

  /** A second signup with a registered email is refused, whatever the
      other fields, and leaves the store alone. */
  lemma SignupTwiceConflicts(s: Store, fullName: string, email: Email, password: string,
                             fullName2: string, password2: string)
    requires Signup(s, fullName, email, password).result.Ok?
    requires fullName2 != "" && password2 != ""
    ensures var s' := Signup(s, fullName, email, password).state;
      Signup(s', fullName2, email, password2) == Reply(Err(BadRequest(EmailTaken)), s')
  {
  }

  /** After a reset the new password logs in and a different old one does not. */
  lemma ResetThenLogin(s: Store, email: Email, previousPassword: string, newPassword: string)
    requires ForgetPassword(s, email, previousPassword, newPassword).result.Ok?
    ensures var s' := ForgetPassword(s, email, previousPassword, newPassword).state;
      && Login(s', email, newPassword).result == Ok(Profile(s[email].fullName, s[email].email))
      && (previousPassword != newPassword ==> Login(s', email, previousPassword).result.Err?)
  {
  }

  /** Cart-add raises the quantity held of the added product by exactly one
      and leaves every other product's quantity alone. */
  lemma {:induction false} AddLineQuantity(cart: seq<CartLine>, pid: Catalog.ProductId, p: Catalog.ProductId)
    ensures QuantityOf(AddLine(cart, pid), p) == QuantityOf(cart, p) + (if p == pid then 1 else 0)
  {
    if cart != [] && cart[0].productId != pid {
      AddLineQuantity(cart[1..], pid, p);
      assert ([cart[0]] + AddLine(cart[1..], pid))[1..] == AddLine(cart[1..], pid);
    } else if cart != [] {
      var r := AddLine(cart, pid);
      assert r[1..] == cart[1..];
    }
  }

  /** Cart-add keeps product references unique. */
  lemma AddLineKeepsUnique(cart: seq<CartLine>, pid: Catalog.ProductId)
    requires UniqueProducts(cart)
    ensures UniqueProducts(AddLine(cart, pid))
  {
    var r := AddLine(cart, pid);
    if !HasProduct(cart, pid) {
      forall i, j | 0 <= i < j < |r| ensures r[i].productId != r[j].productId {
        if j == |cart| {
          assert r[j].productId == pid;
          assert r[i] == cart[i];
        }
      }
    }
  }

  /** Adding the same product twice to an empty cart gives one line of two. */
  lemma AddTwiceToEmpty(pid: Catalog.ProductId)
    ensures AddLine(AddLine([], pid), pid) == [CartLine(pid, 2)]
  {
    assert [CartLine(pid, 1)][0].productId == pid;
  }

  /** Cart-remove zeroes the removed product and keeps the others' quantities. */
  lemma {:induction false} RemoveLinesQuantity(cart: seq<CartLine>, pid: Catalog.ProductId, p: Catalog.ProductId)
    ensures QuantityOf(RemoveLines(cart, pid), p) == if p == pid then 0 else QuantityOf(cart, p)
  {
    if cart != [] {
      RemoveLinesQuantity(cart[1..], pid, p);
      var h := cart[0];
      var rest := RemoveLines(cart[1..], pid);
      if h.productId != pid {
        assert RemoveLines(cart, pid) == [h] + rest;
        assert ([h] + rest)[1..] == rest;
      } else {
        assert RemoveLines(cart, pid) == rest;
      }
    }
  }

  /** Cart-remove keeps the surviving lines in their original order: it
      works piecewise on any split of the cart. */
  lemma RemoveLinesConcat(a: seq<CartLine>, b: seq<CartLine>, pid: Catalog.ProductId)
    ensures RemoveLines(a + b, pid) == RemoveLines(a, pid) + RemoveLines(b, pid)
  {
    FilterConcat(a, b, OtherProduct(pid));
  }

  /** Cart-remove keeps product references unique. */
  lemma RemoveLinesKeepsUnique(cart: seq<CartLine>, pid: Catalog.ProductId)
    requires UniqueProducts(cart)
    ensures UniqueProducts(RemoveLines(cart, pid))
  {
    assert UniqueBy(cart, ProductOf);
    FilterKeepsUniqueBy(cart, OtherProduct(pid), ProductOf);
    var r := RemoveLines(cart, pid);
    assert forall i, j :: 0 <= i < j < |r| ==> ProductOf(r[i]) != ProductOf(r[j]);
  }

  /** The key product references are unique under. */
  function ProductOf(l: CartLine): Catalog.ProductId {
    l.productId
  }

  /** Every mutating route keeps the store well formed. */
  lemma RoutesPreserveWellFormed(s: Store, fullName: string, email: Email, password: string,
                                 newPassword: string, pid: Catalog.ProductId)
    requires WellFormed(s)
    ensures WellFormed(Signup(s, fullName, email, password).state)
    ensures WellFormed(ForgetPassword(s, email, password, newPassword).state)
    ensures WellFormed(CartAdd(s, email, pid).state)
    ensures WellFormed(CartRemove(s, email, pid).state)
    ensures WellFormed(CartClear(s, email).state)
  {
    if email in s {
      AddLineKeepsUnique(s[email].cart, pid);
      RemoveLinesKeepsUnique(s[email].cart, pid);
    }
  }
}
