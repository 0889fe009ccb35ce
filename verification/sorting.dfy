/** sort.Slice by an integer key: some ascending permutation, the only one when keys are distinct. */
module Sorting {

  ghost predicate Ascending<T(!new)>(xs: seq<T>, key: T -> int) {
    forall i, j :: 0 <= i < j < |xs| ==> key(xs[i]) <= key(xs[j])
  }

  ghost predicate StrictlyAscending<T(!new)>(xs: seq<T>, key: T -> int) {
    forall i, j :: 0 <= i < j < |xs| ==> key(xs[i]) < key(xs[j])
  }

  ghost predicate SortedCopy<T(!new)>(xs: seq<T>, key: T -> int, ys: seq<T>) {
    multiset(ys) == multiset(xs) && Ascending(ys, key)
  }

  /** No two occurrences share a key. */
  ghost predicate DistinctKeys<T(!new)>(m: multiset<T>, key: T -> int) {
    forall x, y :: x in m && y in m && key(x) == key(y) ==> x == y && m[x] == 1
  }

  lemma AscendingConcat<T(!new)>(a: seq<T>, b: seq<T>, key: T -> int)
    requires Ascending(a, key) && Ascending(b, key)
    requires a != [] && b != [] ==> key(a[|a| - 1]) <= key(b[0])
    ensures Ascending(a + b, key)
  {
    forall i, j | 0 <= i < j < |a + b|
      ensures key((a + b)[i]) <= key((a + b)[j])
    {
      if i < |a| <= j {
        assert key(a[i]) <= key(a[|a| - 1]) && key(b[0]) <= key(b[j - |a|]);
      }
    }
  }

  lemma InsertKeepsOrder<T(!new)>(ys: seq<T>, x: T, p: nat, key: T -> int)
    requires Ascending(ys, key) && p <= |ys|
    requires p > 0 ==> key(ys[p - 1]) <= key(x)
    requires p < |ys| ==> key(x) <= key(ys[p])
    ensures Ascending(ys[..p] + [x] + ys[p..], key)
  {
    AscendingConcat(ys[..p], [x], key);
    AscendingConcat(ys[..p] + [x], ys[p..], key);
  }

  lemma InsertCounts<T>(ys: seq<T>, x: T, p: nat)
    requires p <= |ys|
    ensures multiset(ys[..p] + [x] + ys[p..]) == multiset(ys) + multiset{x}
  {
    assert ys == ys[..p] + ys[p..];
    assert multiset(ys) == multiset(ys[..p]) + multiset(ys[p..]);
  }

  lemma PrefixCounts<T>(xs: seq<T>, i: nat)
    requires i < |xs|
    ensures multiset(xs[..i + 1]) == multiset(xs[..i]) + multiset{xs[i]}
  {
    assert xs[..i + 1] == xs[..i] + [xs[i]];
  }

  method SortBy<T(!new)>(xs: seq<T>, key: T -> int) returns (ys: seq<T>)
    ensures SortedCopy(xs, key, ys)
  {
    ys := [];
    for i := 0 to |xs|
      invariant multiset(ys) == multiset(xs[..i]) && Ascending(ys, key)
    {
      var p := |ys|;
      while p > 0 && key(ys[p - 1]) > key(xs[i])
        invariant 0 <= p <= |ys|
        invariant p < |ys| ==> key(ys[p]) > key(xs[i])
      {
        p := p - 1;
      }
      InsertKeepsOrder(ys, xs[i], p, key);
      InsertCounts(ys, xs[i], p);
      PrefixCounts(xs, i);
      ys := ys[..p] + [xs[i]] + ys[p..];
    }
    assert xs[..|xs|] == xs;
  }

  lemma {:induction false} TwiceCountsTwo<T(!new)>(xs: seq<T>, i: nat, j: nat)
    requires i < j < |xs| && xs[i] == xs[j]
    ensures multiset(xs)[xs[i]] >= 2
  {
    assert xs == xs[..j] + xs[j..];
    assert xs[i] in xs[..j] && xs[j] in xs[j..];
    assert multiset(xs[..j])[xs[i]] >= 1 && multiset(xs[j..])[xs[i]] >= 1;
  }

  lemma DistinctIsStrict<T(!new)>(ys: seq<T>, key: T -> int)
    requires Ascending(ys, key) && DistinctKeys(multiset(ys), key)
    ensures StrictlyAscending(ys, key)
  {
    forall i, j | 0 <= i < j < |ys|
      ensures key(ys[i]) < key(ys[j])
    {
      if key(ys[i]) == key(ys[j]) {
        assert ys[i] in multiset(ys) && ys[j] in multiset(ys);
        TwiceCountsTwo(ys, i, j);
      }
    }
  }

  lemma HeadsAgree<T(!new)>(xs: seq<T>, ys: seq<T>, key: T -> int)
    requires StrictlyAscending(xs, key) && Ascending(ys, key) && multiset(xs) == multiset(ys)
    requires xs != [] && ys != []
    ensures xs[0] == ys[0]
  {
    assert xs[0] in multiset(ys) && ys[0] in multiset(xs);
    var i :| 0 <= i < |ys| && ys[i] == xs[0];
    var j :| 0 <= j < |xs| && xs[j] == ys[0];
    assert key(ys[0]) <= key(ys[i]);
  }

  lemma TailCounts<T>(xs: seq<T>)
    requires xs != []
    ensures xs == [xs[0]] + xs[1..] && multiset(xs[1..]) == multiset(xs) - multiset{xs[0]}
  {
    assert xs == [xs[0]] + xs[1..];
  }

  lemma {:induction false} StrictOrderUnique<T(!new)>(xs: seq<T>, ys: seq<T>, key: T -> int)
    requires StrictlyAscending(xs, key) && Ascending(ys, key) && multiset(xs) == multiset(ys)
    ensures xs == ys
  {
    assert |multiset(xs)| == |xs| && |multiset(ys)| == |ys|;
    if xs != [] {
      HeadsAgree(xs, ys, key);
      assert StrictlyAscending(xs[1..], key) && Ascending(ys[1..], key);
      hide StrictlyAscending; hide Ascending;
      TailCounts(xs);
      TailCounts(ys);
      StrictOrderUnique(xs[1..], ys[1..], key);
    }
  }

  /** Sorting does not depend on the order of the input when keys are distinct. */
  lemma SortedCopyUnique<T(!new)>(a: seq<T>, b: seq<T>, key: T -> int, xs: seq<T>, ys: seq<T>)
    requires multiset(a) == multiset(b) && DistinctKeys(multiset(a), key)
    requires SortedCopy(a, key, xs) && SortedCopy(b, key, ys)
    ensures xs == ys
  {
    DistinctIsStrict(xs, key);
    StrictOrderUnique(xs, ys, key);
  }
}
