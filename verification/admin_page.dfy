/** The administrator's product table: the order in which it lists the
    catalog it fetched. */
module AdminPage {
  import opened Seqs
  import Catalog

  /** The sort key: the creation time, or -1 for a product without one. */
  function ProductKey(p: Catalog.Product): int {
    match p.createdAt
    case Some(t) => t
    case None => -1
  }

  /** Newest first when the first product carries a creation time;
      otherwise the fetched order reversed. Either way a rearrangement of
      what was fetched. */
  function Arrange(data: seq<Catalog.Product>): (r: seq<Catalog.Product>)
    ensures multiset(r) == multiset(data)
    ensures |data| > 0 && data[0].createdAt.Some? ==>
      forall i, j :: 0 <= i < j < |r| ==> ProductKey(r[i]) >= ProductKey(r[j])
    ensures !(|data| > 0 && data[0].createdAt.Some?) ==>
      |r| == |data| && forall i :: 0 <= i < |data| ==> r[i] == data[|data| - 1 - i]
  {
    if |data| > 0 && data[0].createdAt.Some? then
      var r := Sort(data, ProductKey);
      SortedDescOrdersAllPairs(r, ProductKey);
      r
    else
      ReverseIsPermutation(data);
      Reverse(data)
  }

  /** When every product carries a creation time, the table lists them
      newest first. */
  lemma AllTimedNewestFirst(data: seq<Catalog.Product>)
    requires forall k :: 0 <= k < |data| ==> data[k].createdAt.Some?
    ensures forall i, j :: 0 <= i < j < |Arrange(data)| ==>
      && Arrange(data)[i].createdAt.Some? && Arrange(data)[j].createdAt.Some?
      && Arrange(data)[i].createdAt.value >= Arrange(data)[j].createdAt.value
  {
    var r := Arrange(data);
    forall p | p in r ensures p.createdAt.Some? {
      assert p in multiset(data);
    }
  }

  /** Products created at the same instant keep the order they were
      fetched in, as the page's stable sort leaves them. */
  lemma ArrangeKeepsTies(data: seq<Catalog.Product>, t: nat)
    requires |data| > 0 && data[0].createdAt.Some?
    ensures Filter(Arrange(data), KeyIs(ProductKey, t)) == Filter(data, KeyIs(ProductKey, t))
  {
    SortStable(data, ProductKey, t);
  }
}
