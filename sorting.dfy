/** Python's list sorting with a key function (`list.sort(key=...)` and
    `sorted(..., key=..., reverse=True)`), modelled as a stable insertion
    sort on sequences: elements with equal keys keep their input order, and
    `reverse=True` sorts by the negated key, which also keeps equal elements
    in input order. */
module Sorting {

  /** Keys never decrease from left to right. */
  predicate SortedBy<T>(s: seq<T>, key: T -> real) {
    forall i, j :: 0 <= i < j < |s| ==> key(s[i]) <= key(s[j])
  }

  /** Keys never increase from left to right. */
  predicate SortedDescBy<T>(s: seq<T>, key: T -> real) {
    forall i, j :: 0 <= i < j < |s| ==> key(s[i]) >= key(s[j])
  }

  function Negated<T>(key: T -> real): T -> real {
    x => -key(x)
  }

  /** Places x before the first element whose key is not smaller. */
  function InsertAsc<T>(x: T, s: seq<T>, key: T -> real): (r: seq<T>)
    requires SortedBy(s, key)
    ensures |r| == |s| + 1
    ensures multiset(r) == multiset(s) + multiset{x}
    ensures SortedBy(r, key)
  {
    if s == [] then [x]
    else if key(x) <= key(s[0]) then [x] + s
    else
      var rest := InsertAsc(x, s[1..], key);
      InsertedTailBound(x, s, rest, key);
      assert s == [s[0]] + s[1..];
      [s[0]] + rest
  }

  /** When x goes behind s[0], everything after s[0] has a key at least key(s[0]). */
  lemma InsertedTailBound<T>(x: T, s: seq<T>, rest: seq<T>, key: T -> real)
    requires SortedBy(s, key) && s != [] && key(s[0]) < key(x)
    requires multiset(rest) == multiset(s[1..]) + multiset{x}
    requires SortedBy(rest, key)
    ensures SortedBy([s[0]] + rest, key)
  {
    forall j | 0 <= j < |rest| ensures key(s[0]) <= key(rest[j]) {
      var y := rest[j];
      assert y in multiset(rest);
      if y != x {
        assert y in multiset(s[1..]);
        var i :| 0 <= i < |s[1..]| && s[1..][i] == y;
        assert s[i + 1] == y;
      }
    }
    var r := [s[0]] + rest;
    forall i, j | 0 <= i < j < |r| ensures key(r[i]) <= key(r[j]) {
      assert r[j] == rest[j - 1];
      if i > 0 {
        assert r[i] == rest[i - 1];
      }
    }
  }

  /** Stable ascending sort by key (Python's `list.sort(key=key)`). */
  function SortAsc<T>(s: seq<T>, key: T -> real): (r: seq<T>)
    ensures |r| == |s|
    ensures multiset(r) == multiset(s)
    ensures SortedBy(r, key)
  {
    if s == [] then []
    else
      assert s == [s[0]] + s[1..];
      InsertAsc(s[0], SortAsc(s[1..], key), key)
  }

  /** Stable descending sort by key (Python's `sorted(s, key=key, reverse=True)`). */
  function SortDesc<T>(s: seq<T>, key: T -> real): (r: seq<T>)
    ensures |r| == |s|
    ensures multiset(r) == multiset(s)
    ensures SortedDescBy(r, key)
  {
    var r := SortAsc(s, Negated(key));
    assert forall i, j :: 0 <= i < j < |r| ==> Negated(key)(r[i]) <= Negated(key)(r[j]);
    r
  }

  /** A sequence that is already in order is left as it is: insertion sort is stable. */
  lemma {:induction false} SortAscOfSorted<T>(s: seq<T>, key: T -> real)
    requires forall i, j :: 0 <= i < j < |s| ==> key(s[i]) <= key(s[j])
    ensures SortAsc(s, key) == s
    decreases |s|
  {
    if s != [] {
      SortAscOfSorted(s[1..], key);
      assert SortAsc(s[1..], key) == s[1..];
      assert s == [s[0]] + s[1..];
    }
  }

  /** The first n of a descending sort are the n largest: whatever is not among
      them has a key no greater than the n-th. */
  lemma SortDescPrefix<T>(s: seq<T>, key: T -> real, n: nat)
    requires 0 < n <= |s|
    ensures var r := SortDesc(s, key)[..n];
            && multiset(r) <= multiset(s)
            && forall x :: x in s && x !in r ==> key(x) <= key(r[n - 1])
  {
    var sorted := SortDesc(s, key);
    var r := sorted[..n];
    assert sorted == r + sorted[n..];
    assert multiset(sorted) == multiset(r) + multiset(sorted[n..]);
    forall x | x in s && x !in r ensures key(x) <= key(r[n - 1]) {
      assert x in multiset(sorted);
      var j :| 0 <= j < |sorted| && sorted[j] == x;
      assert j >= n;
      assert sorted[n - 1] == r[n - 1];
    }
  }
}
