/** Python's `list.sort(key=...)` on a real-valued key: a stable insertion
    sort, with the two facts the pipeline relies on (the result is ordered by
    the key and is a permutation of the input) and the fact that sorting an
    already ordered list changes nothing. */
module Sorting {

  ghost predicate SortedBy<T>(xs: seq<T>, key: T -> real)
  {
    forall i, j :: 0 <= i < j < |xs| ==> key(xs[i]) <= key(xs[j])
  }

  /** Inserts `x` after every element whose key is not greater than its own,
      which keeps equal keys in their original order. */
  function InsertBy<T>(x: T, xs: seq<T>, key: T -> real): (r: seq<T>)
    ensures multiset(r) == multiset(xs) + multiset{x}
    ensures |r| == |xs| + 1
    ensures SortedBy(xs, key) ==> SortedBy(r, key)
  {
    if xs == [] then [x]
    else if key(x) < key(xs[0]) then [x] + xs
    else
      var rest := InsertBy(x, xs[1..], key);
      assert xs == [xs[0]] + xs[1..];
      assert SortedBy(xs, key) ==> SortedBy([xs[0]] + rest, key) by {
        if SortedBy(xs, key) {
          ConsSorted(x, xs, rest, key);
        }
      }
      [xs[0]] + rest
  }

  /** The head of a sorted list stays in front of the rest once `x`, which
      is not smaller, has been inserted into it. */
  lemma ConsSorted<T>(x: T, xs: seq<T>, rest: seq<T>, key: T -> real)
    requires xs != [] && key(xs[0]) <= key(x) && SortedBy(xs, key)
    requires multiset(rest) == multiset(xs[1..]) + multiset{x}
    requires SortedBy(xs[1..], key) ==> SortedBy(rest, key)
    ensures SortedBy([xs[0]] + rest, key)
  {
    assert SortedBy(xs[1..], key) by {
      forall i, j | 0 <= i < j < |xs[1..]| ensures key(xs[1..][i]) <= key(xs[1..][j]) {
        assert xs[1..][i] == xs[i + 1] && xs[1..][j] == xs[j + 1];
      }
    }
    forall k | 0 <= k < |rest| ensures key(xs[0]) <= key(rest[k]) {
      assert rest[k] in multiset(rest);
      assert rest[k] in multiset(xs[1..]) + multiset{x};
      if rest[k] in multiset(xs[1..]) {
        var m :| 0 <= m < |xs[1..]| && xs[1..][m] == rest[k];
        assert xs[1 + m] == rest[k];
      }
    }
    var r := [xs[0]] + rest;
    forall i, j | 0 <= i < j < |r| ensures key(r[i]) <= key(r[j]) {
      if i > 0 {
        assert r[i] == rest[i - 1] && r[j] == rest[j - 1];
      } else {
        assert r[j] == rest[j - 1];
      }
    }
  }

  /** `sorted(xs, key=key)`. */
  function SortBy<T>(xs: seq<T>, key: T -> real): (r: seq<T>)
    ensures multiset(r) == multiset(xs) && |r| == |xs|
    ensures SortedBy(r, key)
  {
    if xs == [] then []
    else
      assert xs == xs[..|xs| - 1] + [xs[|xs| - 1]];
      InsertBy(xs[|xs| - 1], SortBy(xs[..|xs| - 1], key), key)
  }

  lemma {:induction false} InsertAtEnd<T>(x: T, xs: seq<T>, key: T -> real)
    requires forall k :: 0 <= k < |xs| ==> key(xs[k]) <= key(x)
    ensures InsertBy(x, xs, key) == xs + [x]
  {
    if xs != [] {
      InsertAtEnd(x, xs[1..], key);
    }
  }

  /** Sorting a list already in key order returns it unchanged (the sort
      is stable). */
  lemma {:induction false} SortSorted<T>(xs: seq<T>, key: T -> real)
    requires SortedBy(xs, key)
    ensures SortBy(xs, key) == xs
  {
    if xs != [] {
      var init, last := xs[..|xs| - 1], xs[|xs| - 1];
      assert SortedBy(init, key) by {
        forall i, j | 0 <= i < j < |init| ensures key(init[i]) <= key(init[j]) {
          assert init[i] == xs[i] && init[j] == xs[j];
        }
      }
      SortSorted(init, key);
      assert forall k :: 0 <= k < |init| ==> key(init[k]) <= key(last) by {
        forall k | 0 <= k < |init| ensures key(init[k]) <= key(last) {
          assert init[k] == xs[k];
        }
      }
      InsertAtEnd(last, init, key);
      assert init + [last] == xs;
    }
  }
}
