/** The order routes: place, list, delete and status update over the order
    collection, kept as a sequence in the collection's natural (insertion)
    order with one document per identifier. */
module OrderRoutes {
  import opened Common
  import opened Seqs
  import opened OrderSchema

  type Orders = seq<Order>

  const PlaceFailed := "Failed to place order"
  const OrderNotFound := "Order not found"
  const StatusRequired := "Status is required"

  /** No identifier is used twice. */
  predicate UniqueIds(s: Orders) {
    forall i, j :: 0 <= i < j < |s| ==> s[i].id != s[j].id
  }

  predicate HasId(s: Orders, id: OrderId) {
    exists i :: 0 <= i < |s| && s[i].id == id
  }

  /** The order stored under `id`, as a lookup by identifier returns it. */
  function Find(s: Orders, id: OrderId): (r: Option<Order>)
    ensures r.Some? <==> HasId(s, id)
    ensures r.Some? ==> r.value in s && r.value.id == id
  {
    if s == [] then None
    else if s[0].id == id then Some(s[0])
    else
      var r := Find(s[1..], id);
      assert HasId(s, id) ==> HasId(s[1..], id) by {
        if HasId(s, id) {
          var k :| 0 <= k < |s| && s[k].id == id;
          assert s[1..][k - 1] == s[k];
        }
      }
      assert r.Some? ==> r.value in s;
      r
  }

  /** The sort key of the listing. */
  function CreatedAt(o: Order): int {
    o.createdAt
  }

  /** The email filter of the listing. */
  function ForEmail(email: string): Order -> bool {
    (o: Order) => o.consumerEmail == email
  }

  /** The orders a delete keeps. */
  function OtherThan(id: OrderId): Order -> bool {
    (o: Order) => o.id != id
  }

  /** The status update applied to every document, changing the one with `id`. */
  function WithStatus(id: OrderId, status: string): Order -> Order {
    (o: Order) => if o.id == id then o.(status := status) else o
  }

  /** The documents a listing selects: all of them when no email is given. */
  function Matching(s: Orders, email: string): seq<Order> {
    if email == "" then s else Filter(s, ForEmail(email))
  }

  /** POST /api/orders. Validation failure, and a clash with an identifier
      already in the collection, both end in 400 with nothing stored. */
  function Place(s: Orders, body: OrderInput, newId: OrderId, now: nat): (r: Reply<Order, Orders>)
    ensures r.result.Ok? <==> Create(body, newId, now).Some? && !HasId(s, newId)
    ensures r.result.Err? ==> r.result.error == BadRequest(PlaceFailed) && r.state == s
    ensures r.result.Ok? ==>
      && r.result.value.id == newId
      && r.state == s + [r.result.value]
      && r.result.value == Create(body, newId, now).value
    ensures UniqueIds(s) ==> UniqueIds(r.state)
  {
    match Create(body, newId, now)
    case None => Reply(Err(BadRequest(PlaceFailed)), s)
    case Some(o) =>
      if HasId(s, newId) then Reply(Err(BadRequest(PlaceFailed)), s)
      else
        var s' := s + [o];
        assert UniqueIds(s) ==> UniqueIds(s') by {
          if UniqueIds(s) {
            forall i, j | 0 <= i < j < |s'| ensures s'[i].id != s'[j].id {
              if j == |s| {
                assert s'[i] == s[i];
              }
            }
          }
        }
        Reply(Ok(o), s')
  }

  /** GET /api/orders?email=...: the matching orders, newest first; with no
      email, every order. */
  function List(s: Orders, email: string): (r: seq<Order>)
    ensures forall i, j :: 0 <= i < j < |r| ==> r[i].createdAt >= r[j].createdAt
    ensures forall o :: o in r <==> o in s && (email == "" || o.consumerEmail == email)
    ensures multiset(r) == multiset(Matching(s, email))
    ensures email == "" ==> multiset(r) == multiset(s)
  {
    var r := Sort(Matching(s, email), CreatedAt);
    SortedDescOrdersAllPairs(r, CreatedAt);
    assert forall o :: o in r <==> o in Matching(s, email) by {
      forall o ensures o in r <==> o in Matching(s, email) {
        assert o in r <==> o in multiset(r);
      }
    }
    r
  }

  /** DELETE /api/orders/:id. */
  function Delete(s: Orders, id: OrderId): (r: Reply<(), Orders>)
    ensures !HasId(s, id) ==> r == Reply(Err(NotFound(OrderNotFound)), s)
    ensures HasId(s, id) ==> r.result.Ok?
    ensures forall o :: o in r.state <==> o in s && (r.result.Ok? ==> o.id != id)
    ensures r.result.Ok? ==> !HasId(r.state, id)
  {
    if !HasId(s, id) then Reply(Err(NotFound(OrderNotFound)), s)
    else
      var s' := Filter(s, OtherThan(id));
      assert !HasId(s', id) by {
        forall k | 0 <= k < |s'| ensures s'[k].id != id {
          assert s'[k] in s';
        }
      }
      Reply(Ok(()), s')
  }

  /** PUT /api/orders/:id: any non-empty status is accepted; only the
      status of the matching order changes. */
  function UpdateStatus(s: Orders, id: OrderId, status: string): (r: Reply<Order, Orders>)
    ensures status == "" ==> r == Reply(Err(BadRequest(StatusRequired)), s)
    ensures status != "" && !HasId(s, id) ==> r == Reply(Err(NotFound(OrderNotFound)), s)
    ensures status != "" && HasId(s, id) ==>
      && r.result.Ok?
      && r.result.value == Find(s, id).value.(status := status)
      && |r.state| == |s|
      && forall i :: 0 <= i < |s| ==>
           r.state[i] == if s[i].id == id then s[i].(status := status) else s[i]
  {
    if status == "" then Reply(Err(BadRequest(StatusRequired)), s)
    else match Find(s, id)
      case None => Reply(Err(NotFound(OrderNotFound)), s)
      case Some(o) => Reply(Ok(o.(status := status)), Map(s, WithStatus(id, status)))
  }

  // ---------------------------------------------------------------------
  // Properties

  /** A placed order shows up in the full listing and in its consumer's. */
  lemma PlaceThenListed(s: Orders, body: OrderInput, newId: OrderId, now: nat)
    requires Place(s, body, newId, now).result.Ok?
    ensures var r := Place(s, body, newId, now);
      && r.result.value in List(r.state, "")
      && r.result.value in List(r.state, r.result.value.consumerEmail)
  {
  }

  /** With unique identifiers, a delete removes exactly one document. */
  lemma {:induction false} DeleteRemovesOne(s: Orders, id: OrderId)
    requires UniqueIds(s)
    ensures |Filter(s, OtherThan(id))| == if HasId(s, id) then |s| - 1 else |s|
  {
    if s != [] {
      var t := s[1..];
      assert UniqueIds(t) by {
        forall i, j | 0 <= i < j < |t| ensures t[i].id != t[j].id {
          assert t[i] == s[i + 1] && t[j] == s[j + 1];
        }
      }
      DeleteRemovesOne(t, id);
      if s[0].id == id {
        assert !HasId(t, id) by {
          forall k | 0 <= k < |t| ensures t[k].id != id {
            assert t[k] == s[k + 1];
          }
        }
      } else {
        assert HasId(s, id) <==> HasId(t, id) by {
          if HasId(s, id) {
            var k :| 0 <= k < |s| && s[k].id == id;
            assert t[k - 1] == s[k];
          }
          if HasId(t, id) {
            var k :| 0 <= k < |t| && t[k].id == id;
            assert s[k + 1] == t[k];
          }
        }
      }
    }
  }

  /** With unique identifiers, deleting a present one leaves one document fewer. */
  lemma DeleteShrinks(s: Orders, id: OrderId)
    requires UniqueIds(s) && HasId(s, id)
    ensures |Delete(s, id).state| == |s| - 1
  {
    DeleteRemovesOne(s, id);
  }

  /** A second delete of the same identifier finds nothing. */
  lemma DeleteTwice(s: Orders, id: OrderId)
    requires Delete(s, id).result.Ok?
    ensures var s' := Delete(s, id).state;
      Delete(s', id) == Reply(Err(NotFound(OrderNotFound)), s')
  {
  }

  /** After a delete no listing contains the deleted identifier. */
  lemma DeletedNotListed(s: Orders, id: OrderId, email: string)
    requires Delete(s, id).result.Ok?
    ensures forall o :: o in List(Delete(s, id).state, email) ==> o.id != id
  {
  }

  /** The lookup sees an identifier-preserving change to the found document. */
  lemma {:induction false} FindWithStatus(s: Orders, id: OrderId, status: string)
    ensures Find(Map(s, WithStatus(id, status)), id)
         == match Find(s, id) case Some(o) => Some(o.(status := status)) case None => None
  {
    if s != [] {
      FindWithStatus(s[1..], id, status);
      MapCons(s[0], s[1..], WithStatus(id, status));
      assert s == [s[0]] + s[1..];
      assert Map(s, WithStatus(id, status))[1..] == Map(s[1..], WithStatus(id, status));
    }
  }

  /** Reading an order back after a status update shows the new status. */
  lemma UpdateThenFind(s: Orders, id: OrderId, status: string)
    requires UpdateStatus(s, id, status).result.Ok?
    ensures var r := UpdateStatus(s, id, status);
      Find(r.state, id) == Some(r.result.value) && r.result.value.status == status
  {
    FindWithStatus(s, id, status);
  }

  /** Status updates never touch identifiers, so they stay unique. */
  lemma UpdateKeepsUniqueIds(s: Orders, id: OrderId, status: string)
    requires UniqueIds(s)
    ensures UniqueIds(UpdateStatus(s, id, status).state)
  {
    var s' := UpdateStatus(s, id, status).state;
    assert forall i :: 0 <= i < |s| ==> s'[i].id == s[i].id;
  }

  /** Deletion keeps identifiers unique. */
  lemma DeleteKeepsUniqueIds(s: Orders, id: OrderId)
    requires UniqueIds(s)
    ensures UniqueIds(Delete(s, id).state)
  {
    if HasId(s, id) {
      FilterKeepsUnique(s, OtherThan(id));
    }
  }

  /** Any filter of a collection with unique identifiers has unique identifiers. */
  lemma FilterKeepsUnique(s: Orders, keep: Order -> bool)
    requires UniqueIds(s)
    ensures UniqueIds(Filter(s, keep))
  {
    assert UniqueBy(s, IdOf);
    FilterKeepsUniqueBy(s, keep, IdOf);
    var r := Filter(s, keep);
    assert forall i, j :: 0 <= i < j < |r| ==> IdOf(r[i]) != IdOf(r[j]);
  }

  /** The key identifiers are unique under. */
  function IdOf(o: Order): OrderId {
    o.id
  }
}
