/** A stable sort of keyed items, characterised by the subsequence that each key selects. */
module Sorting {
  ghost predicate TotalOrder<K(!new)>(le: (K, K) -> bool) {
    && (forall a, b :: le(a, b) || le(b, a))
    && (forall a, b :: le(a, b) && le(b, a) ==> a == b)
    && (forall a, b, c :: le(a, b) && le(b, c) ==> le(a, c))
  }

  ghost predicate Sorted<K, V>(xs: seq<(K, V)>, le: (K, K) -> bool) {
    forall i, j :: 0 <= i < j < |xs| ==> le(xs[i].0, xs[j].0)
  }

  /** The values filed under `k`, in order. */
  function Group<K(==), V>(xs: seq<(K, V)>, k: K): seq<V> {
    if xs == [] then [] else (if xs[0].0 == k then [xs[0].1] else []) + Group(xs[1..], k)
  }

  function Keep<K, V>(xs: seq<(K, V)>, p: K -> bool): (r: seq<(K, V)>)
    ensures forall x :: x in r ==> x in xs && p(x.0)
  {
    if xs == [] then [] else (if p(xs[0].0) then [xs[0]] else []) + Keep(xs[1..], p)
  }

  function Insert<K, V>(x: (K, V), xs: seq<(K, V)>, le: (K, K) -> bool): (r: seq<(K, V)>)
    ensures multiset(r) == multiset{x} + multiset(xs)
  {
    if xs == [] then [x]
    else if le(x.0, xs[0].0) then [x] + xs
    else
      assert xs == [xs[0]] + xs[1..];
      [xs[0]] + Insert(x, xs[1..], le)
  }

  function Sort<K, V>(xs: seq<(K, V)>, le: (K, K) -> bool): (r: seq<(K, V)>)
    ensures multiset(r) == multiset(xs)
  {
    if xs == [] then []
    else
      assert xs == [xs[0]] + xs[1..];
      Insert(xs[0], Sort(xs[1..], le), le)
  }

  lemma {:induction false} InsertSorts<K(!new), V>(x: (K, V), xs: seq<(K, V)>, le: (K, K) -> bool)
    requires TotalOrder(le) && Sorted(xs, le)
    ensures Sorted(Insert(x, xs, le), le)
  {
    if xs != [] && !le(x.0, xs[0].0) {
      var rest := Insert(x, xs[1..], le);
      InsertSorts(x, xs[1..], le);
      forall j | 0 <= j < |rest|
        ensures le(xs[0].0, rest[j].0)
      {
        assert rest[j] in multiset(rest);
        assert rest[j] == x || rest[j] in xs[1..];
      }
    }
  }

  lemma {:induction false} SortSorts<K(!new), V>(xs: seq<(K, V)>, le: (K, K) -> bool)
    requires TotalOrder(le)
    ensures Sorted(Sort(xs, le), le)
  {
    if xs != [] {
      SortSorts(xs[1..], le);
      InsertSorts(xs[0], Sort(xs[1..], le), le);
    }
  }

  lemma GroupCons<K, V>(x: (K, V), xs: seq<(K, V)>, k: K)
    ensures Group([x] + xs, k) == if x.0 == k then [x.1] + Group(xs, k) else Group(xs, k)
  {
    assert ([x] + xs)[1..] == xs;
  }

  lemma {:induction false} InsertIsStable<K(!new), V>(x: (K, V), xs: seq<(K, V)>, le: (K, K) -> bool, k: K)
    requires TotalOrder(le)
    ensures Group(Insert(x, xs, le), k) == if x.0 == k then [x.1] + Group(xs, k) else Group(xs, k)
  {
    if xs == [] || le(x.0, xs[0].0) {
      assert Insert(x, xs, le) == [x] + xs;
      GroupCons(x, xs, k);
    } else {
      InsertIsStable(x, xs[1..], le, k);
      GroupCons(xs[0], Insert(x, xs[1..], le), k);
      assert xs == [xs[0]] + xs[1..];
      GroupCons(xs[0], xs[1..], k);
      assert xs[0].0 != x.0;
    }
  }

  /** Items with the same key keep their relative order. */
  lemma {:induction false} SortIsStable<K(!new), V>(xs: seq<(K, V)>, le: (K, K) -> bool, k: K)
    requires TotalOrder(le)
    ensures Group(Sort(xs, le), k) == Group(xs, k)
  {
    if xs != [] {
      SortIsStable(xs[1..], le, k);
      InsertIsStable(xs[0], Sort(xs[1..], le), le, k);
    }
  }

  lemma {:induction false} GroupOfKeep<K, V>(xs: seq<(K, V)>, p: K -> bool, k: K)
    ensures Group(Keep(xs, p), k) == if p(k) then Group(xs, k) else []
  {
    if xs != [] {
      GroupOfKeep(xs[1..], p, k);
      assert xs == [xs[0]] + xs[1..];
      GroupCons(xs[0], xs[1..], k);
      GroupCons(xs[0], Keep(xs[1..], p), k);
      assert Keep(xs, p) == if p(xs[0].0) then [xs[0]] + Keep(xs[1..], p) else Keep(xs[1..], p);
    }
  }

  lemma {:induction false} KeepStaysSorted<K, V>(xs: seq<(K, V)>, p: K -> bool, le: (K, K) -> bool)
    requires Sorted(xs, le)
    ensures Sorted(Keep(xs, p), le)
  {
    if xs != [] {
      KeepStaysSorted(xs[1..], p, le);
      var rest := Keep(xs[1..], p);
      forall j | 0 <= j < |rest|
        ensures le(xs[0].0, rest[j].0)
      {
        assert rest[j] in xs[1..];
      }
    }
  }

  lemma {:induction false} GroupHasMembers<K, V>(xs: seq<(K, V)>, k: K)
    ensures Group(xs, k) != [] <==> exists i :: 0 <= i < |xs| && xs[i].0 == k
  {
    if xs != [] {
      GroupHasMembers(xs[1..], k);
      if i :| 0 <= i < |xs| && xs[i].0 == k {
        assert i > 0 ==> xs[1..][i - 1].0 == k;
      }
      if Group(xs[1..], k) != [] {
        var i :| 0 <= i < |xs[1..]| && xs[1..][i].0 == k;
        assert xs[i + 1].0 == k;
      }
    }
  }

  lemma SmallestKey<K(!new), V>(a: seq<(K, V)>, b: seq<(K, V)>, le: (K, K) -> bool)
    requires TotalOrder(le) && Sorted(b, le) && a != [] && b != []
    requires Group(a, a[0].0) == Group(b, a[0].0)
    ensures le(b[0].0, a[0].0)
  {
    GroupHasMembers(a, a[0].0);
    GroupHasMembers(b, a[0].0);
  }

  lemma GroupOfTail<K, V>(a: seq<(K, V)>, k: K)
    requires a != []
    ensures Group(a, k) == if a[0].0 == k then [a[0].1] + Group(a[1..], k) else Group(a[1..], k)
  {
    assert a == [a[0]] + a[1..];
    GroupCons(a[0], a[1..], k);
  }

  lemma SameTails<K, V>(a: seq<(K, V)>, b: seq<(K, V)>, k: K)
    requires a != [] && b != [] && a[0].0 == b[0].0 && Group(a, k) == Group(b, k)
    ensures Group(a[1..], k) == Group(b[1..], k)
    ensures k == a[0].0 ==> a[0].1 == b[0].1
  {
    GroupOfTail(a, k);
    GroupOfTail(b, k);
    hide Group;
    if k == a[0].0 {
      assert Group(a, k)[0] == a[0].1 && Group(b, k)[0] == b[0].1;
      assert Group(a, k)[1..] == Group(a[1..], k) && Group(b, k)[1..] == Group(b[1..], k);
    }
  }

  /** A sorted sequence is determined by its groups. */
  lemma {:induction false} SortedIsUnique<K(!new), V>(a: seq<(K, V)>, b: seq<(K, V)>, le: (K, K) -> bool)
    requires TotalOrder(le) && Sorted(a, le) && Sorted(b, le)
    requires forall k :: Group(a, k) == Group(b, k)
    ensures a == b
  {
    if a == [] || b == [] {
      if b != [] {
        GroupHasMembers(b, b[0].0);
      }
      if a != [] {
        GroupHasMembers(a, a[0].0);
      }
    } else {
      SmallestKey(a, b, le);
      SmallestKey(b, a, le);
      forall k
        ensures Group(a[1..], k) == Group(b[1..], k)
      {
        SameTails(a, b, k);
      }
      SameTails(a, b, a[0].0);
      SortedIsUnique(a[1..], b[1..], le);
      assert a == [a[0]] + a[1..] && b == [b[0]] + b[1..];
    }
  }
}
