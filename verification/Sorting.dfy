/** What `sort.Slice` promises: some sorted permutation. */
module Sorting {

  ghost predicate TotalOrder<T(!new)>(leq: (T, T) -> bool) {
    && (forall a, b :: leq(a, b) || leq(b, a))
    && (forall a, b, c :: leq(a, b) && leq(b, c) ==> leq(a, c))
  }

  predicate SortedBy<T>(s: seq<T>, leq: (T, T) -> bool) {
    forall i, j | 0 <= i < j < |s| :: leq(s[i], s[j])
  }

  lemma InsertedElements<T>(r: seq<T>, k: nat, x: T)
    requires k <= |r|
    ensures multiset(r[..k] + [x] + r[k..]) == multiset(r) + multiset{x}
  {
    assert r == r[..k] + r[k..];
  }

  lemma Chain<T(!new)>(a: T, b: T, c: T, leq: (T, T) -> bool)
    requires TotalOrder(leq) && leq(a, b) && leq(b, c)
    ensures leq(a, c)
  {
  }

  lemma Inserted<T(!new)>(r: seq<T>, k: nat, x: T, leq: (T, T) -> bool)
    requires TotalOrder(leq) && SortedBy(r, leq) && k <= |r|
    requires forall j | k <= j < |r| :: leq(x, r[j])
    requires k > 0 ==> leq(r[k - 1], x)
    ensures SortedBy(r[..k] + [x] + r[k..], leq)
  {
    hide TotalOrder;
    var s := r[..k] + [x] + r[k..];
    forall j | 0 <= j < k ensures leq(r[j], x) {
      if j < k - 1 { Chain(r[j], r[k - 1], x, leq); }
    }
    forall i, j | 0 <= i < j < |s| ensures leq(s[i], s[j]) {
      assert s[i] == if i < k then r[i] else if i == k then x else r[i - 1];
      assert s[j] == if j < k then r[j] else if j == k then x else r[j - 1];
    }
  }

  lemma Opposite<T(!new)>(a: T, b: T, leq: (T, T) -> bool)
    requires TotalOrder(leq) && !leq(a, b)
    ensures leq(b, a)
  {
  }

  method Sort<T(!new)>(s: seq<T>, leq: (T, T) -> bool) returns (r: seq<T>)
    requires TotalOrder(leq)
    ensures multiset(r) == multiset(s) && SortedBy(r, leq)
  {
    hide TotalOrder, SortedBy;
    r := [];
    assert SortedBy(r, leq) by { NothingSorted(leq); }
    for i := 0 to |s|
      invariant multiset(r) == multiset(s[..i]) && SortedBy(r, leq)
    {
      var k := |r|;
      while k > 0 && !leq(r[k - 1], s[i])
        invariant 0 <= k <= |r|
        invariant forall j | k <= j < |r| :: leq(s[i], r[j])
      {
        Opposite(r[k - 1], s[i], leq);
        k := k - 1;
      }
      Inserted(r, k, s[i], leq);
      InsertedElements(r, k, s[i]);
      assert s[..i + 1] == s[..i] + [s[i]];
      r := r[..k] + [s[i]] + r[k..];
    }
    assert s[..|s|] == s;
  }

  lemma NothingSorted<T>(leq: (T, T) -> bool)
    ensures SortedBy([], leq)
  {
  }

  lemma SameElements<T>(a: seq<T>, b: seq<T>, x: T)
    requires multiset(a) == multiset(b)
    ensures x in a <==> x in b
    ensures |a| == |b|
  {
    assert x in multiset(a) <==> x in multiset(b);
    assert |multiset(a)| == |a| && |multiset(b)| == |b|;
  }

  lemma WithoutOne<T>(s: seq<T>, i: nat)
    requires i < |s|
    ensures multiset(s[..i] + s[i + 1..]) == multiset(s) - multiset{s[i]}
  {
    assert s == s[..i] + [s[i]] + s[i + 1..];
  }

  // Two places of a permutation come from two places of the original.
  lemma Elsewhere<T>(a: seq<T>, b: seq<T>, i: nat, j: nat)
    requires multiset(a) == multiset(b) && i < j < |b|
    ensures exists k: nat, l: nat :: k < |a| && l < |a| && k != l && a[k] == b[i] && a[l] == b[j]
  {
    SameElements(a, b, b[i]);
    var k: nat :| k < |a| && a[k] == b[i];
    WithoutOne(a, k);
    WithoutOne(b, i);
    var restA, restB := a[..k] + a[k + 1..], b[..i] + b[i + 1..];
    assert restB[j - 1] == b[j];
    SameElements(restA, restB, b[j]);
    var l: nat :| l < |restA| && restA[l] == b[j];
    assert restA[l] == a[if l < k then l else l + 1];
  }

  // The elements of a set, each once, in order.
  method SortSet<T(!new, ==)>(todo: set<T>, leq: (T, T) -> bool) returns (r: seq<T>)
    requires TotalOrder(leq)
    ensures SortedBy(r, leq)
    ensures forall x :: x in r <==> x in todo
    ensures forall i, j | 0 <= i < j < |r| :: r[i] != r[j]
  {
    hide TotalOrder, SortedBy;
    var listed: seq<T>, rest := [], todo;
    while rest != {}
      invariant forall x :: x in todo <==> x in rest || x in listed
      invariant forall x | x in rest :: x !in listed
      invariant forall i, j | 0 <= i < j < |listed| :: listed[i] != listed[j]
      decreases |rest|
    {
      var x :| x in rest;
      listed, rest := listed + [x], rest - {x};
    }
    r := Sort(listed, leq);
    forall x ensures x in r <==> x in listed { SameElements(listed, r, x); }
    forall i, j | 0 <= i < j < |r| ensures r[i] != r[j] { Elsewhere(listed, r, i, j); }
  }

  ghost predicate TellsApart<T(!new)>(a: seq<T>, leq: (T, T) -> bool) {
    forall x, y | x in a && y in a && leq(x, y) && leq(y, x) :: x == y
  }

  lemma SameHead<T(!new)>(a: seq<T>, b: seq<T>, leq: (T, T) -> bool)
    requires multiset(a) == multiset(b) && SortedBy(a, leq) && SortedBy(b, leq) && TellsApart(a, leq)
    requires a != [] && b != []
    ensures a[0] == b[0]
  {
    SameElements(a, b, a[0]);
    SameElements(a, b, b[0]);
    var i :| 0 <= i < |a| && a[i] == b[0];
    var j :| 0 <= j < |b| && b[j] == a[0];
    if i > 0 && j > 0 { assert leq(a[0], a[i]) && leq(b[0], b[j]); }
  }

  lemma TailElements<T>(a: seq<T>, b: seq<T>)
    requires multiset(a) == multiset(b) && a != [] && b != [] && a[0] == b[0]
    ensures multiset(a[1..]) == multiset(b[1..])
  {
    assert a == [a[0]] + a[1..] && b == [b[0]] + b[1..];
    assert multiset(a[1..]) == multiset(a) - multiset{a[0]};
    assert multiset(b[1..]) == multiset(b) - multiset{b[0]};
  }

  lemma TailSorted<T(!new)>(a: seq<T>, leq: (T, T) -> bool)
    requires SortedBy(a, leq) && a != []
    ensures SortedBy(a[1..], leq) && (TellsApart(a, leq) ==> TellsApart(a[1..], leq))
  {
  }

  lemma SameSize<T>(a: seq<T>, b: seq<T>)
    requires multiset(a) == multiset(b)
    ensures |a| == |b|
  {
    assert |multiset(a)| == |a| && |multiset(b)| == |b|;
  }

  // If the order tells all elements apart, there is only one sorted permutation.
  lemma {:induction false} SortedOnce<T(!new)>(a: seq<T>, b: seq<T>, leq: (T, T) -> bool)
    requires multiset(a) == multiset(b) && SortedBy(a, leq) && SortedBy(b, leq) && TellsApart(a, leq)
    ensures a == b
    decreases |a|
  {
    hide SortedBy, TellsApart;
    SameSize(a, b);
    if a != [] {
      SameHead(a, b, leq);
      TailElements(a, b);
      TailSorted(a, leq);
      TailSorted(b, leq);
      SortedOnce(a[1..], b[1..], leq);
      assert a == [a[0]] + a[1..] && b == [b[0]] + b[1..];
    }
  }
}
