/** qsort, of which nothing is known but that it sorts: elements with equal keys come in any order. */
module Sorting {
  ghost predicate SortedBy<T>(key: T -> int, xs: seq<T>) {
    forall i, j {:trigger xs[i], xs[j]} :: 0 <= i < j < |xs| ==> key(xs[i]) <= key(xs[j])
  }

  lemma Inserted<T>(key: T -> int, ys: seq<T>, x: T, k: nat)
    requires SortedBy(key, ys) && k <= |ys|
    requires forall j :: 0 <= j < k ==> key(ys[j]) <= key(x)
    requires k < |ys| ==> key(x) <= key(ys[k])
    ensures SortedBy(key, ys[..k] + [x] + ys[k..])
  {
    var zs := ys[..k] + [x] + ys[k..];
    forall i, j | 0 <= i < j < |zs|
      ensures key(zs[i]) <= key(zs[j])
    {
      if i < k && k < j {
        assert zs[i] == ys[i] && zs[j] == ys[j - 1];
      } else if i < k && j < k {
        assert zs[i] == ys[i] && zs[j] == ys[j];
      } else if i < k {
        assert zs[i] == ys[i];
      } else if i == k {
        assert zs[j] == ys[j - 1];
        assert key(x) <= key(ys[k]);
      } else {
        assert zs[i] == ys[i - 1] && zs[j] == ys[j - 1];
      }
    }
  }

  lemma InsertedElements<T>(ys: seq<T>, x: T, k: nat)
    requires k <= |ys|
    ensures multiset(ys[..k] + [x] + ys[k..]) == multiset(ys) + multiset{x}
  {
    assert ys == ys[..k] + ys[k..];
  }

  lemma SortedNone<T>(key: T -> int)
    ensures SortedBy(key, [])
  {}

  method QSort<T>(xs: seq<T>, key: T -> int) returns (ys: seq<T>)
    ensures multiset(ys) == multiset(xs) && |ys| == |xs| && SortedBy(key, ys)
  {
    hide SortedBy;
    ys := [];
    assert SortedBy(key, ys) by { SortedNone(key); }
    for i := 0 to |xs|
      invariant |ys| == i && multiset(ys) == multiset(xs[..i]) && SortedBy(key, ys)
    {
      var k := 0;
      while k < i && key(ys[k]) <= key(xs[i])
        invariant k <= i && forall j :: 0 <= j < k ==> key(ys[j]) <= key(xs[i])
      {
        k := k + 1;
      }
      assert xs[..i + 1] == xs[..i] + [xs[i]];
      Inserted(key, ys, xs[i], k);
      InsertedElements(ys, xs[i], k);
      ys := ys[..k] + [xs[i]] + ys[k..];
    }
    assert xs[..|xs|] == xs;
  }

  lemma PlaceFor<T>(key: T -> int, ys: seq<T>, x: T) returns (k: nat)
    ensures k <= |ys| && (k < |ys| ==> key(x) < key(ys[k])) && forall j :: 0 <= j < k ==> key(ys[j]) <= key(x)
  {
    k := 0;
    while k < |ys| && key(ys[k]) <= key(x)
      invariant k <= |ys| && forall j :: 0 <= j < k ==> key(ys[j]) <= key(x)
    {
      k := k + 1;
    }
  }

  /** Every list has a sorted order. */
  lemma {:induction false} CanBeSorted<T>(key: T -> int, xs: seq<T>) returns (ys: seq<T>)
    ensures multiset(ys) == multiset(xs) && |ys| == |xs| && SortedBy(key, ys)
  {
    hide SortedBy;
    ys := [];
    if xs == [] {
      SortedNone(key);
    } else {
      var n := |xs| - 1;
      var zs := CanBeSorted(key, xs[..n]);
      var k := PlaceFor(key, zs, xs[n]);
      Inserted(key, zs, xs[n], k);
      InsertedElements(zs, xs[n], k);
      assert xs == xs[..n] + [xs[n]];
      ys := zs[..k] + [xs[n]] + zs[k..];
    }
  }

  function Take<T>(xs: seq<T>, n: nat): seq<T> {
    if n <= |xs| then xs[..n] else xs
  }

  lemma SameElements<T>(xs: seq<T>, ys: seq<T>)
    requires multiset(xs) == multiset(ys)
    ensures |xs| == |ys|
    ensures forall x {:trigger x in xs} {:trigger x in ys} :: x in xs <==> x in ys
  {
    assert |multiset(xs)| == |xs| && |multiset(ys)| == |ys|;
    forall x
      ensures x in xs <==> x in ys
    {
      assert x in xs <==> x in multiset(xs);
      assert x in ys <==> x in multiset(ys);
    }
  }

  ghost predicate KeysDiffer<T>(key: T -> int, xs: seq<T>) {
    forall i, j {:trigger xs[i], xs[j]} :: 0 <= i < j < |xs| ==> key(xs[i]) != key(xs[j])
  }

  lemma SameHead<T>(key: T -> int, xs: seq<T>, ys: seq<T>)
    requires SortedBy(key, xs) && SortedBy(key, ys) && multiset(xs) == multiset(ys) && KeysDiffer(key, xs) && xs != []
    ensures ys != [] && xs[0] == ys[0]
  {
    SameElements(xs, ys);
    assert xs[0] in ys && ys[0] in xs;
    var i :| 0 <= i < |ys| && ys[i] == xs[0];
    var j :| 0 <= j < |xs| && xs[j] == ys[0];
    assert key(ys[0]) <= key(ys[i]);
  }

  lemma Tail<T>(key: T -> int, xs: seq<T>)
    requires xs != [] && SortedBy(key, xs)
    ensures SortedBy(key, xs[1..])
    ensures multiset(xs[1..]) == multiset(xs) - multiset{xs[0]}
    ensures KeysDiffer(key, xs) ==> KeysDiffer(key, xs[1..])
  {
    assert xs == [xs[0]] + xs[1..];
  }

  /** Without equal keys there is one sorted order. */
  lemma {:induction false} OneOrder<T>(key: T -> int, xs: seq<T>, ys: seq<T>)
    requires SortedBy(key, xs) && SortedBy(key, ys) && multiset(xs) == multiset(ys) && KeysDiffer(key, xs)
    ensures xs == ys
  {
    hide SortedBy, KeysDiffer;
    SameElements(xs, ys);
    if xs != [] {
      SameHead(key, xs, ys);
      Tail(key, xs);
      Tail(key, ys);
      assert multiset(ys) - multiset{ys[0]} == multiset(xs) - multiset{xs[0]};
      assert KeysDiffer(key, xs[1..]);
      OneOrder(key, xs[1..], ys[1..]);
      assert xs == [xs[0]] + xs[1..] && ys == [ys[0]] + ys[1..];
    }
  }

  lemma TwoPlaces<T>(xs: seq<T>, i: nat, j: nat)
    requires i < j < |xs|
    ensures xs[i] == xs[j] ==> multiset(xs)[xs[i]] >= 2
  {
    assert xs == xs[..i] + [xs[i]] + xs[i + 1..j] + [xs[j]] + xs[j + 1..];
  }

  lemma {:induction false} OnePlace<T>(key: T -> int, xs: seq<T>, x: T)
    requires KeysDiffer(key, xs)
    ensures multiset(xs)[x] <= 1
  {
    if xs != [] {
      var n := |xs| - 1;
      OnePlace(key, xs[..n], x);
      assert xs == xs[..n] + [xs[n]];
      assert xs[n] !in multiset(xs[..n]);
    }
  }

  /** Moving elements keeps their keys different. */
  lemma RearrangedKeys<T>(key: T -> int, xs: seq<T>, ys: seq<T>)
    requires KeysDiffer(key, xs) && multiset(ys) == multiset(xs)
    ensures KeysDiffer(key, ys)
  {
    forall i, j | 0 <= i < j < |ys|
      ensures key(ys[i]) != key(ys[j])
    {
      TwoPlaces(ys, i, j);
      SameElements(ys, xs);
      assert ys[i] in xs && ys[j] in xs;
      var a :| 0 <= a < |xs| && xs[a] == ys[i];
      var b :| 0 <= b < |xs| && xs[b] == ys[j];
      if a == b {
        OnePlace(key, xs, ys[i]);
      }
    }
  }
}
