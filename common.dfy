/** Small shared vocabulary: an optional value, absolute value, and sums of
    real-valued projections over sequences, with the algebra the other
    modules need (concatenation, scaling, pointwise addition, permutation). */
module Common {

  datatype Option<T> = None | Some(value: T)

  /** `d.get(key, default)` for a field that may be absent. */
  function GetOr<T>(o: Option<T>, default: T): T {
    match o
    case Some(v) => v
    case None => default
  }

  function Min(a: nat, b: nat): nat { if a < b then a else b }

  function Abs(x: real): real {
    if x < 0.0 then -x else x
  }

  /** A product of two non-negative numbers is non-negative, and zero exactly
      when one factor is. */
  lemma MulNonNegative(x: real, d: real)
    requires x >= 0.0 && d >= 0.0
    ensures x * d >= 0.0
    ensures x * d == 0.0 <==> x == 0.0 || d == 0.0
  {
    if x > 0.0 && d > 0.0 {
      assert x * d > 0.0;
    }
  }

  /** Python's `x ** 2`, written through |x| so that its sign follows from the
      product of two non-negative factors. */
  function Square(x: real): (r: real)
    ensures r >= 0.0
    ensures r == 0.0 <==> x == 0.0
  {
    MulNonNegative(Abs(x), Abs(x));
    Abs(x) * Abs(x)
  }

  /** The square is the product of the number with itself. */
  lemma SquareIsProduct(x: real)
    ensures Square(x) == x * x
  {
    if x < 0.0 {
      assert (-x) * (-x) == x * x;
    }
  }

  /** Sum of f over the elements of s, in order (Python's `sum(f(x) for x in s)`). */
  function SumOf<T>(s: seq<T>, f: T -> real): real {
    if s == [] then 0.0 else SumOf(s[..|s| - 1], f) + f(s[|s| - 1])
  }

  function Identity(x: real): real { x }

  /** Python's `sum(xs)` over a list of floats. */
  function Sum(s: seq<real>): real {
    SumOf(s, Identity)
  }

  lemma {:induction false} SumOfAppend<T>(a: seq<T>, b: seq<T>, f: T -> real)
    ensures SumOf(a + b, f) == SumOf(a, f) + SumOf(b, f)
    decreases |b|
  {
    if b == [] {
      assert a + b == a;
    } else {
      var b' := b[..|b| - 1];
      assert (a + b)[..|a + b| - 1] == a + b';
      SumOfAppend(a, b', f);
    }
  }

  /** Sum of the elements with index k removed, plus the element at k. */
  lemma {:induction false} SumOfRemove<T>(s: seq<T>, k: nat, f: T -> real)
    requires k < |s|
    ensures SumOf(s, f) == SumOf(s[..k] + s[k + 1..], f) + f(s[k])
  {
    var left, right := s[..k], s[k + 1..];
    assert s == (left + [s[k]]) + right;
    assert (left + [s[k]])[..|left|] == left;
    SumOfAppend(left + [s[k]], right, f);
    SumOfAppend(left, right, f);
  }

  /** A sum does not depend on the order of its terms. */
  lemma {:induction false} SumOfPermutation<T>(a: seq<T>, b: seq<T>, f: T -> real)
    requires multiset(a) == multiset(b)
    ensures SumOf(a, f) == SumOf(b, f)
    decreases |a|
  {
    if a == [] {
      assert |b| == |multiset(b)| == 0;
    } else {
      var x := a[|a| - 1];
      var a' := a[..|a| - 1];
      assert x in multiset(b);
      var k :| 0 <= k < |b| && b[k] == x;
      RemoveMatching(a, b, k);
      SumOfPermutation(a', b[..k] + b[k + 1..], f);
      SumOfRemove(b, k, f);
    }
  }

  /** Removing the last element of a and a matching element of b keeps the
      multisets equal. */
  lemma RemoveMatching<T>(a: seq<T>, b: seq<T>, k: nat)
    requires a != [] && k < |b| && b[k] == a[|a| - 1]
    requires multiset(a) == multiset(b)
    ensures multiset(a[..|a| - 1]) == multiset(b[..k] + b[k + 1..])
  {
    var x := b[k];
    assert a == a[..|a| - 1] + [x];
    assert b == b[..k] + [x] + b[k + 1..];
    assert multiset(a) == multiset(a[..|a| - 1]) + multiset{x};
    assert multiset(b) == multiset(b[..k] + b[k + 1..]) + multiset{x};
    assert multiset(a[..|a| - 1]) == multiset(a) - multiset{x};
    assert multiset(b[..k] + b[k + 1..]) == multiset(b) - multiset{x};
  }

  /** A constant factor comes out of a sum. */
  lemma {:induction false} SumOfScale<T>(s: seq<T>, f: T -> real, g: T -> real, c: real)
    requires forall x :: x in s ==> g(x) == c * f(x)
    ensures SumOf(s, g) == c * SumOf(s, f)
    decreases |s|
  {
    if s != [] {
      SumOfScale(s[..|s| - 1], f, g, c);
    }
  }

  /** A sum of pointwise sums is the sum of the two sums. */
  lemma {:induction false} SumOfAdd<T>(s: seq<T>, f: T -> real, g: T -> real, h: T -> real)
    requires forall x :: x in s ==> h(x) == f(x) + g(x)
    ensures SumOf(s, h) == SumOf(s, f) + SumOf(s, g)
    decreases |s|
  {
    if s != [] {
      SumOfAdd(s[..|s| - 1], f, g, h);
    }
  }

  /** A sum of non-negative terms is non-negative. */
  lemma {:induction false} SumOfNonNegative<T>(s: seq<T>, f: T -> real)
    requires forall x :: x in s ==> f(x) >= 0.0
    ensures SumOf(s, f) >= 0.0
    decreases |s|
  {
    if s != [] {
      SumOfNonNegative(s[..|s| - 1], f);
    }
  }

  /** n copies of c sum to n * c. */
  lemma {:induction false} SumConstant(s: seq<real>, c: real)
    requires forall i :: 0 <= i < |s| ==> s[i] == c
    ensures Sum(s) == (|s| as real) * c
    decreases |s|
  {
    if s != [] {
      SumConstant(s[..|s| - 1], c);
    }
  }
}
