/** Sequence operations the storefront uses in more than one place: the
    filter behind cart-remove, order delete and the client's list updates,
    and the descending sort by timestamp behind order listing and the admin
    product view. */
module Seqs {

  /** The elements of `s` that `keep` accepts, in their original order. */
  function Filter<T(==,!new)>(s: seq<T>, keep: T -> bool): (r: seq<T>)
    ensures |r| <= |s|
    ensures forall x :: x in r <==> x in s && keep(x)
  {
    if s == [] then []
    else
      assert s == [s[0]] + s[1..];
      (if keep(s[0]) then [s[0]] else []) + Filter(s[1..], keep)
  }

  /** Filtering a sequence with a known first element. */
  lemma FilterCons<T(!new)>(h: T, t: seq<T>, keep: T -> bool)
    ensures Filter([h] + t, keep) == (if keep(h) then [h] else []) + Filter(t, keep)
  {
    assert ([h] + t)[1..] == t;
  }

  /** Filtering distributes over concatenation: kept elements stay in order. */
  lemma {:induction false} FilterConcat<T(!new)>(a: seq<T>, b: seq<T>, keep: T -> bool)
    ensures Filter(a + b, keep) == Filter(a, keep) + Filter(b, keep)
  {
    if a == [] {
      assert a + b == b;
    } else {
      assert (a + b)[1..] == a[1..] + b;
      FilterConcat(a[1..], b, keep);
    }
  }

  /** A filter that drops nothing is the identity. */
  lemma {:induction false} FilterKeepsAll<T(!new)>(s: seq<T>, keep: T -> bool)
    requires forall x :: x in s ==> keep(x)
    ensures Filter(s, keep) == s
  {
    if s != [] {
      FilterKeepsAll(s[1..], keep);
    }
  }

  /** Two filters can be applied in either order. */
  lemma {:induction false} FilterCommutes<T(!new)>(s: seq<T>, p: T -> bool, q: T -> bool)
    ensures Filter(Filter(s, p), q) == Filter(Filter(s, q), p)
  {
    if s != [] {
      FilterCommutes(s[1..], p, q);
      var h := s[0];
      FilterConcat(if p(h) then [h] else [], Filter(s[1..], p), q);
      FilterConcat(if q(h) then [h] else [], Filter(s[1..], q), p);
    }
  }

  /** `s` is ordered from the largest key to the smallest: each element's
      key is at least that of its successor. */
  predicate SortedDesc<T>(s: seq<T>, key: T -> int) {
    |s| < 2 || (key(s[0]) >= key(s[1]) && SortedDesc(s[1..], key))
  }

  /** Sortedness between neighbours orders every pair. */
  lemma {:induction false} SortedDescOrdersAllPairs<T>(s: seq<T>, key: T -> int)
    requires SortedDesc(s, key)
    ensures forall i, j :: 0 <= i < j < |s| ==> key(s[i]) >= key(s[j])
  {
    if |s| >= 2 {
      SortedDescOrdersAllPairs(s[1..], key);
      forall i, j | 0 <= i < j < |s| ensures key(s[i]) >= key(s[j]) {
        if i > 0 {
          assert s[i] == s[1..][i - 1] && s[j] == s[1..][j - 1];
        } else if j > 1 {
          assert s[1] == s[1..][0] && s[j] == s[1..][j - 1];
        }
      }
    }
  }

  /** The first element of a sorted sequence has the largest key. */
  lemma {:induction false} HeadIsLargest<T>(s: seq<T>, y: T, key: T -> int)
    requires SortedDesc(s, key)
    requires y in s
    ensures key(s[0]) >= key(y)
  {
    if y != s[0] {
      assert y in s[1..];
      HeadIsLargest(s[1..], y, key);
    }
  }

  /** A head whose key is at least that of the next element extends a
      sorted sequence. */
  lemma SortedCons<T>(h: T, t: seq<T>, key: T -> int)
    requires SortedDesc(t, key)
    requires t == [] || key(h) >= key(t[0])
    ensures SortedDesc([h] + t, key)
  {
    assert ([h] + t)[1..] == t;
  }

  /** Inserts `x` before the first element whose key is not larger, so that
      among equal keys the inserted element comes first. */
  function Insert<T(==)>(x: T, s: seq<T>, key: T -> int): (r: seq<T>)
    requires SortedDesc(s, key)
    ensures SortedDesc(r, key)
    ensures multiset(r) == multiset(s) + multiset{x}
    ensures |r| == |s| + 1
  {
    if s == [] || key(x) >= key(s[0]) then [x] + s
    else
      assert s == [s[0]] + s[1..];
      [s[0]] + Insert(x, s[1..], key)
  }

  /** Inserting behind a head with a larger key leaves the head in place. */
  lemma InsertBehindHead<T(!new)>(x: T, h: T, t: seq<T>, key: T -> int)
    requires SortedDesc([h] + t, key)
    requires key(x) < key(h)
    ensures SortedDesc(t, key)
    ensures Insert(x, [h] + t, key) == [h] + Insert(x, t, key)
  {
    assert ([h] + t)[1..] == t;
  }

  /** Insertion sort, descending by key. Among equal keys the earlier
      element comes first, so the sort is stable like the ECMAScript sort. */
  function Sort<T(==,!new)>(s: seq<T>, key: T -> int): (r: seq<T>)
    ensures SortedDesc(r, key)
    ensures multiset(r) == multiset(s)
    ensures |r| == |s|
  {
    if s == [] then []
    else
      assert s == [s[0]] + s[1..];
      Insert(s[0], Sort(s[1..], key), key)
  }

  /** Sorting a sequence with a known first element. */
  lemma SortCons<T(!new)>(h: T, t: seq<T>, key: T -> int)
    ensures Sort([h] + t, key) == Insert(h, Sort(t, key), key)
  {
    assert ([h] + t)[1..] == t;
  }

  /** A filtered sorted sequence is still sorted. */
  lemma {:induction false} FilterKeepsSorted<T(!new)>(s: seq<T>, keep: T -> bool, key: T -> int)
    requires SortedDesc(s, key)
    ensures SortedDesc(Filter(s, keep), key)
  {
    if s != [] {
      FilterKeepsSorted(s[1..], keep, key);
      var f := Filter(s[1..], keep);
      if keep(s[0]) {
        if f != [] {
          assert f[0] in f;
          assert f[0] in s[1..];
          HeadIsLargest(s, f[0], key);
        }
        SortedCons(s[0], f, key);
        assert Filter(s, keep) == [s[0]] + f;
      } else {
        assert Filter(s, keep) == f;
      }
    }
  }

  /** Insertion case where `x` goes in front of `s`. */
  lemma {:induction false} FilterInsertFront<T(!new)>(x: T, s: seq<T>, keep: T -> bool, key: T -> int)
    requires SortedDesc(s, key)
    requires s == [] || key(x) >= key(s[0])
    requires SortedDesc(Filter(s, keep), key)
    ensures Filter(Insert(x, s, key), keep)
         == if keep(x) then Insert(x, Filter(s, keep), key) else Filter(s, keep)
  {
    var f := Filter(s, keep);
    FilterCons(x, s, keep);
    if keep(x) && f != [] {
      assert f[0] in f;
      HeadIsLargest(s, f[0], key);
    }
  }

  /** Insertion case where `x` goes after the head of `s`. */
  lemma FilterInsertLater<T(!new)>(x: T, s: seq<T>, keep: T -> bool, key: T -> int)
    requires SortedDesc(s, key)
    requires s != [] && key(x) < key(s[0])
    requires SortedDesc(Filter(s, keep), key)
    requires SortedDesc(Filter(s[1..], keep), key)
    requires Filter(Insert(x, s[1..], key), keep)
          == if keep(x) then Insert(x, Filter(s[1..], keep), key) else Filter(s[1..], keep)
    ensures Filter(Insert(x, s, key), keep)
         == if keep(x) then Insert(x, Filter(s, keep), key) else Filter(s, keep)
  {
    var h, t := s[0], s[1..];
    var f' := Filter(t, keep);
    var i' := Insert(x, t, key);
    assert Insert(x, s, key) == [h] + i';
    FilterCons(h, i', keep);
    if keep(h) {
      assert Filter(s, keep) == [h] + f';
      if keep(x) {
        InsertBehindHead(x, h, f', key);
      }
    } else {
      assert Filter(s, keep) == f';
      assert Filter(Insert(x, s, key), keep) == Filter(i', keep);
    }
  }

  /** Filtering commutes with insertion into a sorted sequence. */
  lemma {:induction false} FilterInsert<T(!new)>(x: T, s: seq<T>, keep: T -> bool, key: T -> int)
    requires SortedDesc(s, key)
    ensures SortedDesc(Filter(s, keep), key)
    ensures Filter(Insert(x, s, key), keep)
         == if keep(x) then Insert(x, Filter(s, keep), key) else Filter(s, keep)
  {
    FilterKeepsSorted(s, keep, key);
    if s == [] || key(x) >= key(s[0]) {
      FilterInsertFront(x, s, keep, key);
    } else {
      FilterKeepsSorted(s[1..], keep, key);
      assert SortedDesc(s[1..], key);
      FilterInsert(x, s[1..], keep, key);
      FilterInsertLater(x, s, keep, key);
    }
  }

  /** Filtering the sorted sequence gives the sorted filtered sequence: a
      client that drops elements from a fetched, sorted list holds exactly
      what a fresh fetch would return. */
  lemma {:induction false} FilterSort<T(!new)>(s: seq<T>, keep: T -> bool, key: T -> int)
    ensures Filter(Sort(s, key), keep) == Sort(Filter(s, keep), key)
  {
    if s != [] {
      var h, t := s[0], s[1..];
      FilterSort(t, keep, key);
      FilterInsert(h, Sort(t, key), keep, key);
      if keep(h) {
        assert Filter(s, keep) == [h] + Filter(t, keep);
        SortCons(h, Filter(t, keep), key);
      } else {
        assert Filter(s, keep) == Filter(t, keep);
      }
    }
  }

  /** `f` applied to every element, in order. */
  function Map<T>(s: seq<T>, f: T -> T): (r: seq<T>)
    ensures |r| == |s|
    ensures forall i :: 0 <= i < |s| ==> r[i] == f(s[i])
  {
    if s == [] then [] else [f(s[0])] + Map(s[1..], f)
  }

  /** Mapping a sequence with a known first element. */
  lemma MapCons<T>(h: T, t: seq<T>, f: T -> T)
    ensures Map([h] + t, f) == [f(h)] + Map(t, f)
  {
    assert ([h] + t)[1..] == t;
  }

  /** A map that does not change keys keeps a sequence sorted. */
  lemma {:induction false} MapKeepsSorted<T(!new)>(s: seq<T>, f: T -> T, key: T -> int)
    requires forall y :: key(f(y)) == key(y)
    requires SortedDesc(s, key)
    ensures SortedDesc(Map(s, f), key)
  {
    if |s| >= 2 {
      MapKeepsSorted(s[1..], f, key);
      MapCons(s[0], s[1..], f);
      assert s == [s[0]] + s[1..];
      SortedCons(f(s[0]), Map(s[1..], f), key);
    }
  }

  /** A key-preserving map commutes with insertion. */
  lemma {:induction false} MapInsert<T(!new)>(x: T, s: seq<T>, f: T -> T, key: T -> int)
    requires forall y :: key(f(y)) == key(y)
    requires SortedDesc(s, key)
    ensures SortedDesc(Map(s, f), key)
    ensures Map(Insert(x, s, key), f) == Insert(f(x), Map(s, f), key)
  {
    MapKeepsSorted(s, f, key);
    if s == [] || key(x) >= key(s[0]) {
      MapCons(x, s, f);
    } else {
      var h, t := s[0], s[1..];
      assert SortedDesc(t, key);
      MapInsert(x, t, f, key);
      assert Insert(x, s, key) == [h] + Insert(x, t, key);
      MapCons(h, Insert(x, t, key), f);
      assert Map(s, f) == [f(h)] + Map(t, f);
      InsertBehindHead(f(x), f(h), Map(t, f), key);
    }
  }

  /** A key-preserving map commutes with sorting. */
  lemma {:induction false} MapSort<T(!new)>(s: seq<T>, f: T -> T, key: T -> int)
    requires forall y :: key(f(y)) == key(y)
    ensures Map(Sort(s, key), f) == Sort(Map(s, f), key)
  {
    if s != [] {
      var h, t := s[0], s[1..];
      assert s == [h] + t;
      var st := Sort(t, key);
      assert Sort(s, key) == Insert(h, st, key) by { SortCons(h, t, key); }
      assert Map(Insert(h, st, key), f) == Insert(f(h), Map(st, f), key) by {
        MapInsert(h, st, f, key);
      }
      assert Map(st, f) == Sort(Map(t, f), key) by { MapSort(t, f, key); }
      assert Map(s, f) == [f(h)] + Map(t, f) by { MapCons(h, t, f); }
      assert Sort([f(h)] + Map(t, f), key) == Insert(f(h), Sort(Map(t, f), key), key) by {
        SortCons(f(h), Map(t, f), key);
      }
    }
  }

  /** A map that does not change what a filter looks at commutes with it. */
  lemma {:induction false} MapFilter<T(!new)>(s: seq<T>, f: T -> T, keep: T -> bool)
    requires forall y :: keep(f(y)) == keep(y)
    ensures Filter(Map(s, f), keep) == Map(Filter(s, keep), f)
  {
    if s != [] {
      MapFilter(s[1..], f, keep);
      assert s == [s[0]] + s[1..];
      MapCons(s[0], s[1..], f);
      FilterCons(f(s[0]), Map(s[1..], f), keep);
      FilterCons(s[0], s[1..], keep);
      if keep(s[0]) {
        MapCons(s[0], Filter(s[1..], keep), f);
      }
    }
  }

  /** The elements whose key is `k`. */
  function KeyIs<T>(key: T -> int, k: int): T -> bool {
    (x: T) => key(x) == k
  }

  /** Elements that all share one key are already sorted: the sort leaves
      them where they are. */
  lemma {:induction false} SortEqualKeys<T(!new)>(s: seq<T>, key: T -> int, k: int)
    requires forall x :: x in s ==> key(x) == k
    ensures Sort(s, key) == s
  {
    if s != [] {
      var h, t := s[0], s[1..];
      assert s == [h] + t;
      SortEqualKeys(t, key, k);
      SortCons(h, t, key);
    }
  }

  /** The sort is stable: the elements with any one key come out in the
      order they went in. */
  lemma SortStable<T(!new)>(s: seq<T>, key: T -> int, k: int)
    ensures Filter(Sort(s, key), KeyIs(key, k)) == Filter(s, KeyIs(key, k))
  {
    FilterSort(s, KeyIs(key, k), key);
    SortEqualKeys(Filter(s, KeyIs(key, k)), key, k);
  }

  /** No two elements share a key. */
  predicate UniqueBy<T, K(==)>(s: seq<T>, key: T -> K) {
    forall i, j :: 0 <= i < j < |s| ==> key(s[i]) != key(s[j])
  }

  /** Filtering keeps keys unique. */
  lemma {:induction false} FilterKeepsUniqueBy<T(!new), K>(s: seq<T>, keep: T -> bool, key: T -> K)
    requires UniqueBy(s, key)
    ensures UniqueBy(Filter(s, keep), key)
  {
    if s != [] {
      var h, t := s[0], s[1..];
      assert UniqueBy(t, key) by {
        forall i, j | 0 <= i < j < |t| ensures key(t[i]) != key(t[j]) {
          assert t[i] == s[i + 1] && t[j] == s[j + 1];
        }
      }
      FilterKeepsUniqueBy(t, keep, key);
      var rest := Filter(t, keep);
      if keep(h) {
        var r := [h] + rest;
        assert Filter(s, keep) == r;
        forall i, j | 0 <= i < j < |r| ensures key(r[i]) != key(r[j]) {
          if i == 0 {
            assert r[j] == rest[j - 1] && rest[j - 1] in rest;
            assert r[j] in t;
            var k :| 0 <= k < |t| && t[k] == r[j];
            assert s[k + 1] == r[j];
          } else {
            assert r[i] == rest[i - 1] && r[j] == rest[j - 1];
          }
        }
      } else {
        assert Filter(s, keep) == rest;
      }
    }
  }

  /** The sequence in reverse order. */
  function Reverse<T>(s: seq<T>): (r: seq<T>)
    ensures |r| == |s|
    ensures forall i :: 0 <= i < |s| ==> r[i] == s[|s| - 1 - i]
  {
    if s == [] then [] else Reverse(s[1..]) + [s[0]]
  }

  /** Reversal is a permutation. */
  lemma {:induction false} ReverseIsPermutation<T>(s: seq<T>)
    ensures multiset(Reverse(s)) == multiset(s)
  {
    if s != [] {
      ReverseIsPermutation(s[1..]);
      assert s == [s[0]] + s[1..];
    }
  }
}
