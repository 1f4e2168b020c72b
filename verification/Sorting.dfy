/** sort.Slice with a comparison on an integer key: some ordering of the same
    elements by that key.  Equal keys may come out in any order. */
module Sorting {

  ghost predicate SortedBy<T>(xs: seq<T>, key: T -> int) {
    forall i, j | 0 <= i < j < |xs| :: key(xs[i]) <= key(xs[j])
  }

  method Insert<T>(xs: seq<T>, x: T, key: T -> int) returns (ys: seq<T>)
    requires SortedBy(xs, key)
    ensures SortedBy(ys, key) && multiset(ys) == multiset(xs) + multiset{x}
  {
    var i := |xs|;
    while 0 < i && key(x) < key(xs[i - 1])
      invariant 0 <= i <= |xs|
      invariant forall j | i <= j < |xs| :: key(x) < key(xs[j])
    {
      i := i - 1;
    }
    ys := xs[..i] + [x] + xs[i..];
    Spliced(xs, x, i, ys);
    Ordered(xs, x, key, i, ys);
  }

  lemma Spliced<T>(xs: seq<T>, x: T, i: nat, ys: seq<T>)
    requires i <= |xs| && ys == xs[..i] + [x] + xs[i..]
    ensures multiset(ys) == multiset(xs) + multiset{x}
  {
    assert xs == xs[..i] + xs[i..];
  }

  lemma Ordered<T>(xs: seq<T>, x: T, key: T -> int, i: nat, ys: seq<T>)
    requires SortedBy(xs, key) && i <= |xs| && ys == xs[..i] + [x] + xs[i..]
    requires 0 < i ==> key(xs[i - 1]) <= key(x)
    requires forall j | i <= j < |xs| :: key(x) < key(xs[j])
    ensures SortedBy(ys, key)
  {
    forall a, b | 0 <= a < b < |ys|
      ensures key(ys[a]) <= key(ys[b])
    {
      if a < i && b >= i {
        assert key(ys[a]) <= key(x);
      }
    }
  }

  method Sort<T>(xs: seq<T>, key: T -> int) returns (ys: seq<T>)
    ensures SortedBy(ys, key) && multiset(ys) == multiset(xs)
  {
    ys := [];
    for i := 0 to |xs|
      invariant SortedBy(ys, key) && multiset(ys) == multiset(xs[..i])
    {
      assert xs[..i + 1] == xs[..i] + [xs[i]];
      ys := Insert(ys, xs[i], key);
    }
    assert xs[..|xs|] == xs;
  }
}
